/** The remaining critical sections of the page cache keep its invariant. */
module CacheSteps {
  import opened Basics
  import opened Identities
  import opened PageCache
  import opened CacheInvariant

  // ---------------------------------------------------------------------
  // Mapping a page
  // ---------------------------------------------------------------------

  /** A page held back as busy was already resident, so the failed request loaded nothing. */
  lemma BusyPageWasResident(s: State, b: BranchId, key: PageKey)
    requires Inv(s) && b in s.branches && Ident(s, b, key).Some?
    requires Active(s.branches[b], Resident(LoadPage(s, b, key), b, key).value) > 0
    ensures LoadPage(s, b, key) == s
  {
    var page := Resident(LoadPage(s, b, key), b, key).value;
    assert ActiveOk(s, b, page);
    assert MappingsOf(s, b, page) != {};
    var m :| m in MappingsOf(s, b, page);
    assert MappingOk(s, m);
  }

  /** The state in which a mapping is granted: the page loaded and, if need be, copied. */
  function Prepared(s: State, b: BranchId, key: PageKey, flags: MapFlags): State
    requires b in s.branches && Ident(s, b, key).Some?
  {
    var s1 := LoadKnown(s, b, key);
    if flags.write && key !in s.branches[b].exclusive then CopyOnWrite(s1, b, key) else s1
  }

  lemma PreparedKeepsInv(s: State, b: BranchId, key: PageKey, flags: MapFlags)
    requires Inv(s) && b in s.branches && Ident(s, b, key).Some?
    requires flags.write && key !in s.branches[b].exclusive ==>
      Active(s.branches[b], Resident(LoadKnown(s, b, key), b, key).value) == 0
    ensures var t := Prepared(s, b, key, flags);
      && Inv(t) && SameBytes(s, t) && t.branches.Keys == s.branches.Keys && Resident(t, b, key).Some? && key in t.known
      && (flags.write ==> key in t.branches[b].exclusive)
  {
    var s1 := LoadKnown(s, b, key);
    LoadKeepsInv(s, b, key);
    if flags.write && key !in s.branches[b].exclusive {
      CowKeepsInv(s1, b, key);
      SameBytesTransitive(s, s1, CopyOnWrite(s1, b, key));
    }
  }

  lemma MapPageIsGrant(s: State, b: BranchId, node: NodeId, offset: nat, flags: MapFlags)
    requires MapPage(s, b, node, offset, flags).1.Ok?
    ensures var key := PageKey(node, offset / PAGE_SIZE);
      && b in s.branches && Ident(s, b, key).Some?
      && (flags.write && key !in s.branches[b].exclusive ==>
            Active(s.branches[b], Resident(LoadKnown(s, b, key), b, key).value) == 0)
      && Resident(Prepared(s, b, key, flags), b, key).Some?
      && MapPage(s, b, node, offset, flags).0 == Grant(Prepared(s, b, key, flags), b, key, flags).0
      && MapPage(s, b, node, offset, flags).1.value == Grant(Prepared(s, b, key, flags), b, key, flags).1
  {
    var key := PageKey(node, offset / PAGE_SIZE);
    LoadCommutes(s, b, key, flags);
  }

  /** Remembering the key early makes no difference to the mapping that is granted. */
  lemma LoadCommutes(s: State, b: BranchId, key: PageKey, flags: MapFlags)
    requires b in s.branches && Ident(s, b, key).Some?
    ensures Resident(LoadPage(s, b, key), b, key).Some?
    ensures Grant(LoadKnown(s, b, key), b, key, flags) == Grant(LoadPage(s, b, key), b, key, flags)
    ensures Grant(CopyOnWrite(LoadKnown(s, b, key), b, key), b, key, flags)
         == Grant(CopyOnWrite(LoadPage(s, b, key), b, key), b, key, flags)
  {
    var t := LoadPage(s, b, key);
    assert Resident(t, b, key).Some?;
    hide LoadPage;
    CowCommutes(t, b, key, t.known + {key});
    GrantCommutes(t, b, key, flags);
    GrantCommutes(CopyOnWrite(t, b, key), b, key, flags);
  }

  lemma GrantCommutes(s: State, b: BranchId, key: PageKey, flags: MapFlags)
    requires b in s.branches && Resident(s, b, key).Some?
    ensures var t := s.(known := s.known + {key});
      Resident(t, b, key).Some? && Grant(t, b, key, flags) == Grant(s, b, key, flags)
  {
  }

  lemma CowCommutes(s: State, b: BranchId, key: PageKey, known: set<PageKey>)
    requires b in s.branches && Resident(s, b, key).Some?
    ensures var t := s.(known := known);
      Resident(t, b, key).Some? && CopyOnWrite(t, b, key) == CopyOnWrite(s, b, key).(known := known)
    ensures b in CopyOnWrite(s, b, key).branches && Resident(CopyOnWrite(s, b, key), b, key).Some?
    ensures CopyOnWrite(s, b, key).known == s.known
  {
  }

  lemma FailedMapKeepsState(s: State, b: BranchId, node: NodeId, offset: nat, flags: MapFlags)
    requires Inv(s) && MapPage(s, b, node, offset, flags).1.Err?
    ensures MapPage(s, b, node, offset, flags).0 == s
  {
    if MapPage(s, b, node, offset, flags).1.error == PageBusy {
      BusyPageWasResident(s, b, PageKey(node, offset / PAGE_SIZE));
    }
  }

  /** Mapping a page changes what no branch reads; a request that fails changes nothing at all. */
  lemma MapPageKeepsInv(s: State, b: BranchId, node: NodeId, offset: nat, flags: MapFlags)
    requires Inv(s)
    ensures var (t, r) := MapPage(s, b, node, offset, flags);
      && Inv(t) && SameBytes(s, t) && t.branches.Keys == s.branches.Keys
      && (r.Ok? ==> r.value in t.mappings)
      && (r.Err? ==> t == s)
  {
    if MapPage(s, b, node, offset, flags).1.Ok? {
      var key := PageKey(node, offset / PAGE_SIZE);
      MapPageIsGrant(s, b, node, offset, flags);
      PreparedKeepsInv(s, b, key, flags);
      var s2 := Prepared(s, b, key, flags);
      GrantKeepsInv(s2, b, key, flags);
      SameBytesTransitive(s, s2, Grant(s2, b, key, flags).0);
    } else {
      FailedMapKeepsState(s, b, node, offset, flags);
      HandlesKeepInv(s, s);
    }
  }

  // ---------------------------------------------------------------------
  // Storing through a mapping
  // ---------------------------------------------------------------------

  /** The page of a writable mapping is read by its own branch, at its own key, and nowhere else. */
  lemma WritablePageIsPrivate(s: State, m: Mapping, c: BranchId, k: PageKey)
    requires Inv(s) && m in s.mappings && m.flags.write
    requires c in s.branches && Resident(s, c, k) == Some(m.page)
    ensures c == m.branch && k == m.key
  {
    assert MappingOk(s, m);
    IdentityNamesKey(s, c, k, m.branch, m.key);
    assert ExclusiveOk(s, m.branch, m.key, c);
  }

  lemma StoreKeepsInv(s: State, m: Mapping, within: nat, bytes: seq<Byte>)
    requires Inv(s) && m in s.mappings && m.flags.write && within + |bytes| <= PAGE_SIZE
    ensures m.page in s.heap && |s.heap[m.page]| == PAGE_SIZE && m.branch in s.branches
    ensures var t := StoreThrough(s, m, within, bytes);
      && Inv(t) && t.branches == s.branches
      && PageBytes(t, m.branch, m.key) == Splice(PageBytes(s, m.branch, m.key), within, bytes)
      && (forall c, k {:trigger PageBytes(t, c, k)} ::
            c in s.branches && (c != m.branch || k != m.key) ==> PageBytes(t, c, k) == PageBytes(s, c, k))
  {
    assert MappingOk(s, m);
    var t := StoreThrough(s, m, within, bytes);
    forall c ensures BranchOk(t, c) { assert BranchOk(s, c); }
    forall c, d, n, l ensures ObjectOk(t, c, d, n, l) { assert ObjectOk(s, c, d, n, l); }
    forall i | i in t.pages ensures Seen(t, i) {
      assert Seen(s, i);
      var c, k :| c in s.branches && k in s.known && Ident(s, c, k) == Some(i);
      assert Ident(t, c, k) == Some(i);
    }
    forall l | l in t.mappings ensures MappingOk(t, l) { assert MappingOk(s, l); }
    forall c, p ensures ActiveOk(t, c, p) {
      assert MappingsOf(t, c, p) == MappingsOf(s, c, p);
      assert ActiveOk(s, c, p);
    }
    forall c, k, d ensures ExclusiveOk(t, c, k, d) { assert ExclusiveOk(s, c, k, d); }
    forall c, k ensures DirtyOk(t, c, k) { assert DirtyOk(s, c, k); }
    forall c, k ensures CleanOk(t, c, k) { StoreKeepsPage(s, m, within, bytes, c, k); }
    forall c, d, k ensures ColdOk(t, c, d, k) { assert ColdOk(s, c, d, k); }
    forall c, k | c in s.branches && (c != m.branch || k != m.key) ensures PageBytes(t, c, k) == PageBytes(s, c, k) {
      StoreKeepsPage(s, m, within, bytes, c, k);
    }
  }

  lemma StoreKeepsPage(s: State, m: Mapping, within: nat, bytes: seq<Byte>, c: BranchId, k: PageKey)
    requires Inv(s) && m in s.mappings && m.flags.write && within + |bytes| <= PAGE_SIZE
    requires m.page in s.heap && |s.heap[m.page]| == PAGE_SIZE
    ensures var t := StoreThrough(s, m, within, bytes);
      && CleanOk(t, c, k)
      && (c in s.branches && (c != m.branch || k != m.key) ==> PageBytes(t, c, k) == PageBytes(s, c, k))
  {
    var t := StoreThrough(s, m, within, bytes);
    assert m in t.mappings;
    assert CleanOk(s, c, k);
    assert WriteMapped(s, c, k) ==> WriteMapped(t, c, k);
    if c in s.branches && Resident(s, c, k) == Some(m.page) {
      WritablePageIsPrivate(s, m, c, k);
    }
  }

  // ---------------------------------------------------------------------
  // Removing a branch
  // ---------------------------------------------------------------------

  /** A resident page is at a known key, whichever branch sees it. */
  lemma ResidentIsKnown(s: State, b: BranchId, key: PageKey)
    requires Inv(s) && b in s.branches && Resident(s, b, key).Some?
    ensures key in s.known
  {
    var id := Ident(s, b, key).value;
    assert Seen(s, id);
    var c, k :| c in s.branches && k in s.known && Ident(s, c, k) == Some(id);
    IdentityNamesKey(s, b, key, c, k);
  }

  /** Reclaiming a branch's pages drops none that a surviving branch sees. */
  lemma RemoveKeepsResident(s: State, b: BranchId, c: BranchId, k: PageKey)
    requires Inv(s) && RemoveBranch(s, b).1.Ok? && c in s.branches && c != b
    ensures var t := RemoveBranch(s, b).0;
      && Ident(t, c, k) == Ident(s, c, k) && Resident(t, c, k) == Resident(s, c, k)
      && (Ident(s, c, k).Some? ==> (Ident(s, c, k).value in t.pages <==> Ident(s, c, k).value in s.pages))
  {
    var t := RemoveBranch(s, b).0;
    if Resident(s, c, k).Some? {
      ResidentIsKnown(s, c, k);
      assert NameOf(t.branches[c].store.names, k).value in VisibleIdentities(t.branches, s.known);
    }
  }

  /** Exactly the pages that a remaining branch sees at a known key stay in the cache. */
  lemma RemoveDropsUnseen(s: State, b: BranchId)
    requires Inv(s)
    ensures var (t, r) := RemoveBranch(s, b);
      && (forall c, k {:trigger Resident(t, c, k)} :: c in t.branches ==> Resident(t, c, k) == Resident(s, c, k))
      && (forall id :: id in t.pages <==> id in s.pages && (r.Ok? ==> Seen(t, id)))
  {
    var (t, r) := RemoveBranch(s, b);
    if r.Ok? {
      forall c, k | c in t.branches ensures Resident(t, c, k) == Resident(s, c, k) { RemoveKeepsResident(s, b, c, k); }
      hide Inv;
      forall id | id in s.pages ensures id in t.pages <==> Seen(t, id) {
        if id in t.pages {
          var k, c :| k in s.known && c in t.branches && NameOf(t.branches[c].store.names, k) == Some(id);
          assert Ident(t, c, k) == Some(id);
        }
        if Seen(t, id) {
          var c, k :| c in t.branches && k in t.known && Ident(t, c, k) == Some(id);
          assert NameOf(t.branches[c].store.names, k).value in VisibleIdentities(t.branches, s.known);
        }
      }
    }
  }

  lemma RemoveKeepsInv(s: State, b: BranchId)
    requires Inv(s)
    ensures var (t, r) := RemoveBranch(s, b);
      && Inv(t) && SameBytes(s, t)
      && t.branches.Keys == (if r.Ok? then s.branches.Keys - {b} else s.branches.Keys)
      && (forall c, k {:trigger Resident(t, c, k)} :: c in t.branches ==> Resident(t, c, k) == Resident(s, c, k))
      && (forall id :: id in t.pages <==> id in s.pages && (r.Ok? ==> Seen(t, id)))
  {
    var (t, r) := RemoveBranch(s, b);
    RemoveDropsUnseen(s, b);
    if r.Err? {
      HandlesKeepInv(s, s);
    } else {
      forall c ensures BranchOk(t, c) { assert BranchOk(s, c); }
      forall c, d, n, l ensures ObjectOk(t, c, d, n, l) { assert ObjectOk(s, c, d, n, l); }
      forall i | i in t.pages ensures Seen(t, i) {
        var k, c :| k in s.known && c in t.branches && NameOf(t.branches[c].store.names, k) == Some(i);
        assert Ident(t, c, k) == Some(i);
      }
      forall m | m in t.mappings ensures MappingOk(t, m) { RemoveKeepsMapping(s, b, m); }
      forall c, p ensures ActiveOk(t, c, p) {
        assert MappingsOf(t, c, p) == MappingsOf(s, c, p);
        assert ActiveOk(s, c, p);
      }
      forall c, k, d ensures ExclusiveOk(t, c, k, d) {
        assert ExclusiveOk(s, c, k, d);
        if c in t.branches { RemoveKeepsResident(s, b, c, k); }
        if d in t.branches { RemoveKeepsResident(s, b, d, k); }
      }
      forall c, k ensures DirtyOk(t, c, k) && CleanOk(t, c, k) && SamePage(s, t, c, k) { RemoveKeepsPage(s, b, c, k); }
      forall c, d, k ensures ColdOk(t, c, d, k) {
        assert ColdOk(s, c, d, k);
        if c in t.branches { RemoveKeepsResident(s, b, c, k); }
      }
      forall c ensures SameFiles(s, t, c) {}
    }
  }

  lemma RemoveKeepsMapping(s: State, b: BranchId, m: Mapping)
    requires Inv(s) && RemoveBranch(s, b).1.Ok? && m in s.mappings
    ensures MappingOk(RemoveBranch(s, b).0, m)
  {
    assert MappingOk(s, m);
    UnmapSucceeds(s, m.branch, m);
    RemoveKeepsResident(s, b, m.branch, m.key);
  }

  lemma RemoveKeepsPage(s: State, b: BranchId, c: BranchId, k: PageKey)
    requires Inv(s) && RemoveBranch(s, b).1.Ok?
    ensures var t := RemoveBranch(s, b).0;
      DirtyOk(t, c, k) && CleanOk(t, c, k) && SamePage(s, t, c, k)
  {
    var t := RemoveBranch(s, b).0;
    assert DirtyOk(s, c, k) && CleanOk(s, c, k);
    assert WriteMapped(t, c, k) == WriteMapped(s, c, k);
    if c in t.branches { RemoveKeepsResident(s, b, c, k); }
  }

  // ---------------------------------------------------------------------
  // Creating a file
  // ---------------------------------------------------------------------

  /** A new file's pages carry a name nobody has seen; every other page keeps its own. */
  lemma CreateNames(s: State, b: BranchId, node: NodeId, size: nat, c: BranchId, k: PageKey)
    requires Inv(s) && b in s.branches && node !in Objects(s, b) && c in s.branches
    ensures var t := CreateFile(s, b, node, size);
      && (c != b || k.node != node ==>
            && Ident(t, c, k) == Ident(s, c, k) && Resident(t, c, k) == Resident(s, c, k)
            && FileOf(t, c, k.node) == FileOf(s, c, k.node))
      && (c == b && k.node == node ==> Ident(s, c, k).None? && Resident(t, c, k).None?)
      && (Ident(s, c, k).Some? ==> Ident(s, c, k).value.obj < s.nextObject)
  {
    var t := CreateFile(s, b, node, size);
    assert BranchOk(s, c);
    if c == b && k.node == node && Resident(t, c, k).Some? {
      var id := Ident(t, c, k).value;
      assert Seen(s, id);
      var d, l :| d in s.branches && l in s.known && Ident(s, d, l) == Some(id);
      assert BranchOk(s, d);
    }
  }

  lemma CreateKeepsInv(s: State, b: BranchId, node: NodeId, size: nat)
    requires Inv(s) && b in s.branches && node !in Objects(s, b)
    ensures var t := CreateFile(s, b, node, size);
      && Inv(t) && t.branches.Keys == s.branches.Keys
      && Objects(t, b).Keys == Objects(s, b).Keys + {node}
      && FileOf(t, b, node) == Zeros(size)
      && (forall k: PageKey {:trigger PageBytes(t, b, k)} :: k.node == node ==> PageBytes(t, b, k) == StorePage(Zeros(size), k))
      && (forall c, k: PageKey {:trigger PageBytes(t, c, k)} :: c in s.branches && (c != b || k.node != node) ==>
            PageBytes(t, c, k) == PageBytes(s, c, k))
      && (forall c, n {:trigger FileOf(t, c, n)} :: c in s.branches && (c != b || n != node) ==>
            FileOf(t, c, n) == FileOf(s, c, n))
  {
    var t := CreateFile(s, b, node, size);
    CreateKeepsNames(s, b, node, size);
    CreateKeepsMappings(s, b, node, size);
    forall c, k ensures DirtyOk(t, c, k) && CleanOk(t, c, k) { CreateKeepsPage(s, b, node, size, c, k); }
    forall c, d, k ensures ColdOk(t, c, d, k) { CreateKeepsCold(s, b, node, size, c, d, k); }
    forall c, k: PageKey | c in s.branches
      ensures c != b || k.node != node ==> PageBytes(t, c, k) == PageBytes(s, c, k)
      ensures c == b && k.node == node ==> PageBytes(t, c, k) == StorePage(Zeros(size), k)
    {
      CreateNames(s, b, node, size, c, k);
    }
    hide Seen, MappingOk, ActiveOk, ExclusiveOk, CleanOk, ColdOk, DirtyOk, BranchOk, ObjectOk;
  }

  lemma CreateKeepsNames(s: State, b: BranchId, node: NodeId, size: nat)
    requires Inv(s) && b in s.branches && node !in Objects(s, b)
    ensures var t := CreateFile(s, b, node, size); NamesInv(t) && HeapInv(t) && KnownInv(t)
  {
    var t := CreateFile(s, b, node, size);
    forall c ensures BranchOk(t, c) { assert BranchOk(s, c); }
    forall c, d, n, l ensures ObjectOk(t, c, d, n, l) {
      assert ObjectOk(s, c, d, n, l) && BranchOk(s, c) && BranchOk(s, d);
    }
    forall i | i in t.pages ensures Seen(t, i) {
      assert Seen(s, i);
      var c, k :| c in s.branches && k in s.known && Ident(s, c, k) == Some(i);
      CreateNames(s, b, node, size, c, k);
      assert Ident(t, c, k) == Some(i);
    }
  }

  lemma CreateKeepsMappings(s: State, b: BranchId, node: NodeId, size: nat)
    requires Inv(s) && b in s.branches && node !in Objects(s, b)
    ensures var t := CreateFile(s, b, node, size); MappingInv(t) && ActiveInv(t) && ExclusiveInv(t)
  {
    var t := CreateFile(s, b, node, size);
    forall m | m in t.mappings ensures MappingOk(t, m) {
      assert MappingOk(s, m);
      CreateNames(s, b, node, size, m.branch, m.key);
    }
    forall c, p ensures ActiveOk(t, c, p) {
      assert MappingsOf(t, c, p) == MappingsOf(s, c, p);
      assert ActiveOk(s, c, p);
    }
    forall c, k, d ensures ExclusiveOk(t, c, k, d) {
      assert ExclusiveOk(s, c, k, d);
      if c in s.branches { CreateNames(s, b, node, size, c, k); }
      if d in s.branches { CreateNames(s, b, node, size, d, k); }
    }
  }

  lemma CreateKeepsPage(s: State, b: BranchId, node: NodeId, size: nat, c: BranchId, k: PageKey)
    requires Inv(s) && b in s.branches && node !in Objects(s, b)
    ensures var t := CreateFile(s, b, node, size);
      DirtyOk(t, c, k) && CleanOk(t, c, k)
  {
    var t := CreateFile(s, b, node, size);
    assert DirtyOk(s, c, k) && CleanOk(s, c, k);
    assert WriteMapped(t, c, k) == WriteMapped(s, c, k);
    if c in s.branches { CreateNames(s, b, node, size, c, k); }
  }

  lemma CreateKeepsCold(s: State, b: BranchId, node: NodeId, size: nat, c: BranchId, d: BranchId, k: PageKey)
    requires Inv(s) && b in s.branches && node !in Objects(s, b)
    ensures ColdOk(CreateFile(s, b, node, size), c, d, k)
  {
    assert ColdOk(s, c, d, k);
    if c in s.branches { CreateNames(s, b, node, size, c, k); }
    if d in s.branches { CreateNames(s, b, node, size, d, k); }
  }

  // ---------------------------------------------------------------------
  // Writing back
  // ---------------------------------------------------------------------

  /** Writing one page back leaves every other page of the file as it was. */
  lemma SpliceKeepsOtherPages(file: seq<Byte>, key: PageKey, bytes: seq<Byte>, k: PageKey)
    requires Offset(key) + |bytes| <= |file| && |bytes| <= PAGE_SIZE && k.page != key.page
    ensures StorePage(Splice(file, Offset(key), bytes), k) == StorePage(file, k)
  {
    if k.page < key.page {
      assert Offset(k) + PAGE_SIZE <= Offset(key);
    } else {
      assert Offset(key) + PAGE_SIZE <= Offset(k);
    }
  }

  /** A dirty page is always there to be written back: sync does not find it gone. */
  lemma SyncPageSucceeds(s: State, b: BranchId, key: PageKey)
    requires Inv(s) && b in s.branches && key in s.branches[b].dirty
    ensures SyncPage(s, b, key).1.Ok?
  {
    assert DirtyOk(s, b, key) && BranchOk(s, b);
  }

  lemma SyncPageKeepsInv(s: State, b: BranchId, key: PageKey)
    requires Inv(s) && b in s.branches && key in s.branches[b].dirty
    ensures var t := SyncPage(s, b, key).0;
      && Inv(t) && SameBytes(s, t) && t.branches.Keys == s.branches.Keys && t.mappings == s.mappings
      && t.branches[b].dirty == s.branches[b].dirty - {key}
      && t.branches[b].active == s.branches[b].active
  {
    hide SyncPage, NamesInv, HeapInv, KnownInv;
    var t := SyncPage(s, b, key).0;
    SyncKeepsNames(s, b, key);
    forall m | m in t.mappings ensures MappingOk(t, m) { assert MappingOk(s, m); }
    forall c, p ensures ActiveOk(t, c, p) {
      assert MappingsOf(t, c, p) == MappingsOf(s, c, p);
      assert ActiveOk(s, c, p);
    }
    forall c, k, d ensures ExclusiveOk(t, c, k, d) { assert ExclusiveOk(s, c, k, d); }
    forall c, k ensures DirtyOk(t, c, k) { assert DirtyOk(s, c, k); }
    forall c, k ensures CleanOk(t, c, k) { SyncKeepsClean(s, b, key, c, k); }
    forall c, d, k ensures ColdOk(t, c, d, k) { SyncKeepsCold(s, b, key, c, d, k); }
    forall c ensures SameFiles(s, t, c) {
      forall n ensures c in s.branches ==> |FileOf(s, c, n)| == |FileOf(t, c, n)| {
        if c in s.branches { SyncKeepsStore(s, b, key, c, PageKey(n, 0)); }
      }
    }
    forall c, k ensures SamePage(s, t, c, k) {
      if c in s.branches { SyncKeepsStore(s, b, key, c, k); }
    }
  }

  lemma SyncKeepsNames(s: State, b: BranchId, key: PageKey)
    requires Inv(s) && b in s.branches && key in s.branches[b].dirty
    ensures var t := SyncPage(s, b, key).0;
      && NamesInv(t) && HeapInv(t) && KnownInv(t)
      && t == s.(branches := t.branches) && t.branches.Keys == s.branches.Keys
      && (forall c {:trigger t.branches[c]} :: c in s.branches ==>
            && t.branches[c].active == s.branches[c].active && t.branches[c].exclusive == s.branches[c].exclusive
            && t.branches[c].dirty == (if c == b then s.branches[c].dirty - {key} else s.branches[c].dirty)
            && t.branches[c].store.names == s.branches[c].store.names)
  {
    hide SyncPage, CleanInv, ColdInv, ExclusiveInv, MappingInv, ActiveInv;
    var t := SyncPage(s, b, key).0;
    SyncShape(s, b, key);
    forall c ensures BranchOk(t, c) { assert BranchOk(s, c); }
    forall c, d, n, l ensures ObjectOk(t, c, d, n, l) { assert ObjectOk(s, c, d, n, l); }
    forall i | i in t.pages ensures Seen(t, i) {
      assert Seen(s, i);
      var c, k :| c in s.branches && k in s.known && Ident(s, c, k) == Some(i);
      assert Ident(t, c, k) == Some(i);
    }
  }

  /** A write-back touches one dirty mark and the bytes of one file. */
  lemma SyncShape(s: State, b: BranchId, key: PageKey)
    requires Inv(s) && b in s.branches && key in s.branches[b].dirty
    ensures var t := SyncPage(s, b, key).0;
      && t == s.(branches := t.branches) && t.branches.Keys == s.branches.Keys
      && (forall c {:trigger t.branches[c]} :: c in s.branches ==>
            && t.branches[c].active == s.branches[c].active && t.branches[c].exclusive == s.branches[c].exclusive
            && t.branches[c].dirty == (if c == b then s.branches[c].dirty - {key} else s.branches[c].dirty)
            && t.branches[c].store.names == s.branches[c].store.names
            && t.branches[c].store.files.Keys == s.branches[c].store.files.Keys)
      && (forall c, n {:trigger FileOf(t, c, n)} :: c in s.branches ==> |FileOf(t, c, n)| == |FileOf(s, c, n)|)
  {
    SyncPageSucceeds(s, b, key);
    hide Inv, StorePage;
  }

  /** A write-back changes the stored bytes of the written page only. */
  lemma SyncKeepsStore(s: State, b: BranchId, key: PageKey, c: BranchId, k: PageKey)
    requires Inv(s) && b in s.branches && key in s.branches[b].dirty && c in s.branches
    ensures var t := SyncPage(s, b, key).0;
      && Ident(t, c, k) == Ident(s, c, k) && Resident(t, c, k) == Resident(s, c, k)
      && Resident(s, b, key).Some?
      && (c != b || k != key ==> StorePage(FileOf(t, c, k.node), k) == StorePage(FileOf(s, c, k.node), k))
      && |FileOf(t, c, k.node)| == |FileOf(s, c, k.node)|
  {
    SyncPageSucceeds(s, b, key);
    assert DirtyOk(s, b, key);
    if c == b && k.node == key.node && k != key && Offset(key) < |FileOf(s, b, key.node)| {
      var file := FileOf(s, b, key.node);
      var page := Heap(s, Resident(s, b, key).value);
      SpliceKeepsOtherPages(file, key, page[..Min(|file| - Offset(key), PAGE_SIZE)], k);
    }
  }

  lemma SyncKeepsClean(s: State, b: BranchId, key: PageKey, c: BranchId, k: PageKey)
    requires Inv(s) && b in s.branches && key in s.branches[b].dirty
    ensures CleanOk(SyncPage(s, b, key).0, c, k)
  {
    var t := SyncPage(s, b, key).0;
    SyncPageSucceeds(s, b, key);
    assert CleanOk(s, c, k);
    assert WriteMapped(t, c, k) == WriteMapped(s, c, k);
    if c in s.branches && Resident(s, c, k).Some? {
      SyncKeepsStore(s, b, key, c, k);
      if (c != b || k != key) && Agrees(Heap(s, Resident(s, c, k).value), FileOf(s, c, k.node), k) {
        SamePageAgrees(Heap(s, Resident(s, c, k).value), FileOf(s, c, k.node), FileOf(t, c, k.node), k);
      }
    }
  }

  lemma SamePageAgrees(page: seq<Byte>, file: seq<Byte>, file': seq<Byte>, key: PageKey)
    requires |page| == PAGE_SIZE && |file| == |file'| && StorePage(file, key) == StorePage(file', key)
    requires Agrees(page, file, key)
    ensures Agrees(page, file', key)
  {
    forall j {:trigger page[j]} | 0 <= j < |page| && Offset(key) + j < |file'|
      ensures page[j] == file'[Offset(key) + j]
    {
      assert StorePage(file, key)[j] == StorePage(file', key)[j];
    }
  }

  lemma SyncKeepsCold(s: State, b: BranchId, key: PageKey, c: BranchId, d: BranchId, k: PageKey)
    requires Inv(s) && b in s.branches && key in s.branches[b].dirty
    ensures ColdOk(SyncPage(s, b, key).0, c, d, k)
  {
    assert ColdOk(s, c, d, k);
    if c in s.branches { SyncKeepsStore(s, b, key, c, k); }
    if d in s.branches { SyncKeepsStore(s, b, key, d, k); }
  }
}
