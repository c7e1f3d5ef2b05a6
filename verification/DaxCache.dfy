/** What mapping and unmapping a page do to a branch, in terms of its live mappings alone. */
module DaxCache {
  import opened Basics
  import opened Identities
  import opened PageCache
  import opened CacheInvariant
  import opened CacheSteps

  /** The branch holds a live mapping of the page. */
  ghost predicate Mapped(s: State, b: BranchId, key: PageKey) {
    exists m {:trigger m in s.mappings} :: m in s.mappings && m.branch == b && m.key == key
  }

  /** The parts of a branch that mapping and unmapping leave alone. */
  predicate SameBranch(s: State, t: State, b: BranchId) {
    && t.id == s.id && t.nextBranch == s.nextBranch && t.branches.Keys == s.branches.Keys && b in s.branches
    && t.branches[b].open == s.branches[b].open
    && t.branches[b].store.files == s.branches[b].store.files
    && t.branches[b].store.names.objects == s.branches[b].store.names.objects
  }

  /** A page counts as active exactly when the branch holds a mapping of it. */
  lemma ActiveIsMapped(s: State, b: BranchId, key: PageKey)
    requires Inv(s) && b in s.branches && Resident(s, b, key).Some?
    ensures Active(s.branches[b], Resident(s, b, key).value) > 0 <==> Mapped(s, b, key)
  {
    var page := Resident(s, b, key).value;
    assert ActiveOk(s, b, page);
    if Mapped(s, b, key) {
      var m :| m in s.mappings && m.branch == b && m.key == key;
      assert MappingOk(s, m);
      assert m in MappingsOf(s, b, page);
    }
    if MappingsOf(s, b, page) != {} {
      var m :| m in MappingsOf(s, b, page);
      assert MappingOk(s, m);
      assert s.pages[Ident(s, b, m.key).value] == s.pages[Ident(s, b, key).value];
      IdentityNamesKey(s, b, m.key, b, key);
    }
  }

  /** The page may be mapped: a writable mapping of a shared page must be the branch's first. */
  ghost predicate CanMap(s: State, b: BranchId, node: NodeId, offset: nat, write: bool) {
    var key := PageKey(node, offset / PAGE_SIZE);
    && b in s.branches && OpenCount(s.branches[b], node) > 0 && node in s.branches[b].store.files
    && !(write && key !in s.branches[b].exclusive && Mapped(s, b, key))
  }

  lemma FileHasName(s: State, b: BranchId, key: PageKey)
    requires Inv(s) && b in s.branches
    ensures Ident(s, b, key).Some? <==> key.node in s.branches[b].store.files
  {
    assert BranchOk(s, b);
  }

  lemma MapSucceedsWhen(s: State, b: BranchId, node: NodeId, offset: nat, write: bool)
    requires Inv(s) && Aligned(offset)
    ensures MapPage(s, b, node, offset, MapFlags(true, write)).1.Ok? <==> CanMap(s, b, node, offset, write)
  {
    var key := PageKey(node, offset / PAGE_SIZE);
    if b in s.branches && Ident(s, b, key).Some? {
      FileHasName(s, b, key);
      LoadKeepsInv(s, b, key);
      ActiveIsMapped(LoadKnown(s, b, key), b, key);
      assert Mapped(LoadKnown(s, b, key), b, key) <==> Mapped(s, b, key);
      assert Resident(LoadPage(s, b, key), b, key) == Resident(LoadKnown(s, b, key), b, key);
    } else if b in s.branches {
      FileHasName(s, b, key);
    }
  }

  /** Why a page of an existing file cannot be mapped. */
  function MapError(s: State, b: BranchId, node: NodeId): CacheError
    requires b in s.branches
  {
    if OpenCount(s.branches[b], node) == 0 then NodeNotOpen(node) else PageBusy
  }

  lemma MapFails(s: State, b: BranchId, node: NodeId, offset: nat, write: bool)
    requires Inv(s) && Aligned(offset) && b in s.branches && node in s.branches[b].store.files
    requires !CanMap(s, b, node, offset, write)
    ensures MapPage(s, b, node, offset, MapFlags(true, write)) == (s, Err(MapError(s, b, node)))
  {
    MapSucceedsWhen(s, b, node, offset, write);
    MapPageKeepsInv(s, b, node, offset, MapFlags(true, write));
    FileHasName(s, b, PageKey(node, offset / PAGE_SIZE));
  }

  /** A successful mapping adds one live mapping and, if writable, makes the page exclusive. */
  lemma MapAdds(s: State, b: BranchId, node: NodeId, offset: nat, write: bool)
    requires Inv(s) && MapPage(s, b, node, offset, MapFlags(true, write)).1.Ok?
    ensures var (t, r) := MapPage(s, b, node, offset, MapFlags(true, write));
      var key := PageKey(node, offset / PAGE_SIZE);
      && Inv(t) && SameBytes(s, t) && SameBranch(s, t, b)
      && r.value !in s.mappings && t.mappings == s.mappings + {r.value}
      && r.value.branch == b && r.value.key == key && r.value.flags == MapFlags(true, write)
      && t.branches[b].exclusive == s.branches[b].exclusive + (if write then {key} else {})
  {
    hide MapPage, Prepared, SameBytes;
    var (t, r) := MapPage(s, b, node, offset, MapFlags(true, write));
    assert r.value in s.mappings ==> MappingOk(s, r.value);
    hide Inv;
    MapPageKeepsInv(s, b, node, offset, MapFlags(true, write));
    MapPageIsGrant(s, b, node, offset, MapFlags(true, write));
    PreparedFrame(s, b, PageKey(node, offset / PAGE_SIZE), MapFlags(true, write));
  }

  /** Loading and copying a page hands out no mapping and touches nothing of the branch but one name. */
  lemma PreparedFrame(s: State, b: BranchId, key: PageKey, flags: MapFlags)
    requires b in s.branches && Ident(s, b, key).Some?
    ensures var t := Prepared(s, b, key, flags);
      && SameBranch(s, t, b) && t.mappings == s.mappings && t.nextHandle == s.nextHandle
      && t.branches[b].exclusive == s.branches[b].exclusive + (if flags.write then {key} else {})
  {
    var s1 := LoadKnown(s, b, key);
    assert s1 == s.(pages := s1.pages, heap := s1.heap, nextPage := s1.nextPage, known := s1.known);
    assert Resident(s1, b, key).Some?;
    hide LoadKnown, LoadPage;
    CowFrame(s1, b, key);
    hide CopyOnWrite;
  }

  lemma CowFrame(s: State, b: BranchId, key: PageKey)
    requires b in s.branches && Resident(s, b, key).Some?
    ensures var t := CopyOnWrite(s, b, key);
      && SameBranch(s, t, b) && t.mappings == s.mappings && t.nextHandle == s.nextHandle
      && t.branches[b].exclusive == s.branches[b].exclusive + {key}
  {
    var t := CopyOnWrite(s, b, key);
    assert t == s.(branches := t.branches, pages := t.pages, heap := t.heap, nextPage := t.nextPage, nextVersion := t.nextVersion);
  }

  lemma UnmapRemoves(s: State, m: Mapping)
    requires Inv(s) && m in s.mappings
    ensures var (t, r) := Unmap(s, m.branch, m);
      && r.Ok? && Inv(t) && SameBytes(s, t) && SameBranch(s, t, m.branch)
      && t.mappings == s.mappings - {m}
      && t.branches[m.branch].exclusive == s.branches[m.branch].exclusive
  {
    UnmapSucceeds(s, m.branch, m);
    UnmapKeepsInv(s, m);
  }
}
