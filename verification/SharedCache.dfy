/**
 The shared page cache as the object the supervisor holds.

 The fields are the ones behind the cache's lock: branch records whose store
 names pages through identity generations and whose dirty marks form
 generations too. Every method is one or more critical sections of the state
 machine in `PageCache`.
 */
module SharedCache {
  import opened Basics
  import opened Identities
  import opened PageCache
  import opened CacheInvariant
  import opened CacheSteps
  import opened CacheRuns
  import G = Generations

  type DirtyBranch = G.Branch<PageKey, bool>

  datatype LiveStore = LiveStore(identities: IdentityBranch, files: map<NodeId, seq<Byte>>)

  datatype LiveBranch = LiveBranch(
    store: LiveStore,
    open: map<NodeId, nat>,
    active: map<PageId, nat>,
    exclusive: set<PageKey>,
    dirty: DirtyBranch)

  function Marked(marks: map<PageKey, bool>): set<PageKey> {
    set key | key in marks && marks[key]
  }

  function DirtyKeys(d: DirtyBranch): set<PageKey> {
    Marked(G.Visible(d))
  }

  function StoreValue(store: LiveStore): Store {
    Store(NamesOf(store.identities), store.files)
  }

  function BranchValue(br: LiveBranch): CacheBranch {
    CacheBranch(StoreValue(br.store), br.open, br.active, br.exclusive, DirtyKeys(br.dirty))
  }

  function BranchValues(branches: map<BranchId, LiveBranch>): map<BranchId, CacheBranch> {
    map b | b in branches :: BranchValue(branches[b])
  }

  lemma UpdateBranch(branches: map<BranchId, LiveBranch>, b: BranchId, br: LiveBranch)
    ensures BranchValues(branches[b := br]) == BranchValues(branches)[b := BranchValue(br)]
  {
  }

  /** Marks made after a fork stay on one side: sealing preserves the dirty set, a mark moves one key. */
  lemma DirtyMarks(d: DirtyBranch, key: PageKey)
    ensures DirtyKeys(G.Seal(d)) == DirtyKeys(d)
    ensures DirtyKeys(G.Branch(G.Seal(d).base, map[])) == DirtyKeys(d)
    ensures DirtyKeys(G.Put(d, key, true)) == DirtyKeys(d) + {key}
    ensures DirtyKeys(G.Put(d, key, false)) == DirtyKeys(d) - {key}
  {
    assert G.Branch(G.Seal(d).base, map[]) == G.Seal(d);
  }

  /** Insert the entries of one node whose keys `visible` does not hold yet. */
  method InsertMissingOf(visible: map<PageKey, bool>, changes: map<PageKey, bool>, node: NodeId)
    returns (r: map<PageKey, bool>)
    ensures r == OfNode(changes, node) + visible
  {
    r := visible;
    var todo := changes.Keys;
    while todo != {}
      invariant todo <= changes.Keys
      invariant r == OfNode(changes - todo, node) + visible
      decreases todo
    {
      var key :| key in todo;
      if key.node == node && key !in r {
        r := r[key := changes[key]];
      }
      todo := todo - {key};
    }
    assert changes - todo == changes;
  }

  /** The keys marked true, each once. */
  method CollectMarked(marks: map<PageKey, bool>) returns (keys: seq<PageKey>)
    ensures Distinct(keys) && (forall key :: key in keys <==> key in Marked(marks))
  {
    keys := [];
    var todo := marks.Keys;
    while todo != {}
      invariant todo <= marks.Keys && Distinct(keys)
      invariant forall key :: key in keys <==> key in Marked(marks) && key !in todo
      decreases todo
    {
      var key :| key in todo;
      if marks[key] {
        keys := keys + [key];
      }
      todo := todo - {key};
    }
  }

  /** The dirty pages of one node, walking the generations newest first. */
  method PagesForNode(d: DirtyBranch, node: NodeId) returns (keys: seq<PageKey>)
    ensures Distinct(keys) && (forall key :: key in keys <==> key in DirtyKeys(d) && key.node == node)
  {
    var visible := OfNode(d.changes, node);
    var generation := Some(d.base);
    assert OfNode(G.Visible(d), node) == OfNode(G.VisibleIn(d.base), node) + visible;
    while generation.Some?
      invariant OfNode(G.Visible(d), node)
             == (if generation.Some? then OfNode(G.VisibleIn(generation.value), node) + visible else visible)
      decreases generation
    {
      var current := generation.value;
      ghost var before := visible;
      visible := InsertMissingOf(visible, current.changes, node);
      generation := current.parent;
      GenerationOfNode(current, node, before);
    }
    keys := CollectMarked(visible);
  }

  lemma GenerationOfNode(g: G.Generation<PageKey, bool>, node: NodeId, visible: map<PageKey, bool>)
    ensures OfNode(G.VisibleIn(g), node) + visible
         == (if g.parent.Some? then OfNode(G.VisibleIn(g.parent.value), node) + (OfNode(g.changes, node) + visible)
             else OfNode(g.changes, node) + visible)
  {
  }

  function OfNode(marks: map<PageKey, bool>, node: NodeId): map<PageKey, bool> {
    map key | key in marks && key.node == node :: marks[key]
  }

  /** All dirty pages, walking the generations newest first. */
  method AllPages(d: DirtyBranch) returns (keys: seq<PageKey>)
    ensures Distinct(keys) && (forall key :: key in keys <==> key in DirtyKeys(d))
  {
    var visible := G.FlattenNewestFirst(d);
    keys := CollectMarked(visible);
  }

  lemma OverwriteTwice(file: seq<Byte>, offset: nat, first: seq<Byte>, second: seq<Byte>)
    ensures Overwrite(Overwrite(file, offset, first), offset + |first|, second) == Overwrite(file, offset, first + second)
  {
  }

  lemma StoredTwice(v: Forest, b: BranchId, node: NodeId, offset: nat, first: seq<Byte>, second: seq<Byte>)
    requires b in v && node in v[b]
    ensures Apply(Apply(v, Stored(b, node, offset, first)), Stored(b, node, offset + |first|, second))
         == Apply(v, Stored(b, node, offset, first + second))
  {
    OverwriteTwice(v[b][node], offset, first, second);
    var v1 := Apply(v, Stored(b, node, offset, first));
    assert v1[b][node] == Overwrite(v[b][node], offset, first);
    assert Apply(v1, Stored(b, node, offset + |first|, second))[b] == Apply(v, Stored(b, node, offset, first + second))[b];
  }

  lemma VisibleUnion(branches: map<BranchId, CacheBranch>, a: set<PageKey>, b: set<PageKey>)
    ensures VisibleIdentities(branches, a + b) == VisibleIdentities(branches, a) + VisibleIdentities(branches, b)
  {
  }

  function SeenAt(branches: map<BranchId, CacheBranch>, cs: set<BranchId>, key: PageKey): set<PageIdentity> {
    set c | c in cs && c in branches && NameOf(branches[c].store.names, key).Some? :: NameOf(branches[c].store.names, key).value
  }

  /** The identities the branches see at one key. */
  method VisibleAt(branches: map<BranchId, LiveBranch>, key: PageKey) returns (ids: set<PageIdentity>)
    ensures ids == VisibleIdentities(BranchValues(branches), {key})
  {
    hide PageIdentityOf, NamesOf, DirtyKeys;
    ids := {};
    var todo := branches.Keys;
    ghost var values := BranchValues(branches);
    while todo != {}
      invariant todo <= branches.Keys
      invariant ids == SeenAt(values, branches.Keys - todo, key)
      decreases todo
    {
      var c :| c in todo;
      var identity := PageIdentityOf(branches[c].store.identities, key.node, key.page * PAGE_SIZE);
      IdentityIsName(branches[c].store.identities, key.node, key.page * PAGE_SIZE);
      if identity.Some? {
        ids := ids + {identity.value};
      }
      todo := todo - {c};
      assert branches.Keys - todo == (branches.Keys - todo - {c}) + {c};
    }
    SeenByAll(values, key);
    assert branches.Keys - todo == values.Keys;
  }

  lemma SeenByOne(branches: map<BranchId, CacheBranch>, key: PageKey, id: PageIdentity)
    ensures id in VisibleIdentities(branches, {key}) <==>
      exists c :: c in branches && NameOf(branches[c].store.names, key) == Some(id)
  {
    if c :| c in branches && NameOf(branches[c].store.names, key) == Some(id) {
      assert key in {key};
    }
  }

  lemma RenamedHasName(s: State, b: BranchId, key: PageKey, version: nat)
    requires b in s.branches && Ident(s, b, key).Some?
    ensures NameOf(BumpVersion(s.branches[b].store.names, key, version), key).Some?
  {
  }

  /** Copy on write, given the renamed branch and whether the old name is still seen. */
  lemma CopiedState(s: State, b: BranchId, key: PageKey, was: PageIdentity, branches: map<BranchId, CacheBranch>,
                    id: PageIdentity, visible: bool)
    requires b in s.branches && Ident(s, b, key) == Some(was) && was in s.pages
    requires var br := s.branches[b];
      var names := BumpVersion(br.store.names, key, s.nextVersion);
      && branches == s.branches[b := br.(store := br.store.(names := names), exclusive := br.exclusive + {key})]
      && NameOf(names, key) == Some(id)
    requires visible <==> exists c :: c in branches && NameOf(branches[c].store.names, key) == Some(was)
    ensures var pages := s.pages[id := s.nextPage];
      var t := s.(branches := branches, pages := if visible then pages else pages - {was},
                  heap := s.heap[s.nextPage := Heap(s, s.pages[was])],
                  nextPage := s.nextPage + 1, nextVersion := s.nextVersion + 1);
      PageCache.CopyOnWrite(s, b, key) == t && Resident(t, b, key) == Some(s.nextPage)
  {
    hide BumpVersion;
    assert NameOf(branches[b].store.names, key) == Some(id);
  }

  lemma SeenByAll(branches: map<BranchId, CacheBranch>, key: PageKey)
    ensures SeenAt(branches, branches.Keys, key) == VisibleIdentities(branches, {key})
  {
  }

  function StoreValues(stores: seq<LiveStore>): seq<Store> {
    seq(|stores|, i requires 0 <= i < |stores| => StoreValue(stores[i]))
  }

  function LiveStoreOf(stores: seq<LiveStore>, b: BranchId): LiveStore
    requires 1 <= b <= |stores|
  {
    stores[b - 1]
  }

  function LiveBranches(stores: seq<LiveStore>): map<BranchId, LiveBranch> {
    map b | 1 <= b <= |stores| :: LiveBranch(LiveStoreOf(stores, b), map[], map[], {}, G.EmptyBranch())
  }

  lemma LiveBranchesAreFresh(stores: seq<LiveStore>)
    ensures BranchValues(LiveBranches(stores)) == Restored(0, StoreValues(stores), 0, 0).branches
  {
    forall b | 1 <= b <= |stores| ensures BranchValue(LiveBranches(stores)[b]) == FreshBranch(StoreOf(StoreValues(stores), b)) {
      assert StoreOf(StoreValues(stores), b) == StoreValue(LiveStoreOf(stores, b));
      assert DirtyKeys(G.EmptyBranch()) == {};
    }
  }

  class SharedPageCache {
    const id: nat
    var nextBranch: nat
    var branches: map<BranchId, LiveBranch>
    var pages: map<PageIdentity, PageId>
    var known: set<PageKey>
    /** Contents of the backing files, by page id. */
    var heap: map<PageId, seq<Byte>>
    var nextPage: nat
    var nextObject: nat
    var nextVersion: nat
    var nextHandle: nat
    /** The mappings handed out and not returned. */
    ghost var mappings: set<Mapping>

    ghost function Value(): State
      reads this
    {
      State(id, nextBranch, BranchValues(branches), pages, known, heap, nextPage, nextObject, nextVersion, nextHandle,
            mappings)
    }

    /** A cache over the branches of one lineage; a new filesystem is a lineage of one. */
    constructor (id: nat, stores: seq<LiveStore>, nextObject: nat, nextVersion: nat)
      ensures Value() == Restored(id, StoreValues(stores), nextObject, nextVersion)
    {
      this.id := id;
      this.nextBranch := |stores| + 1;
      this.branches := LiveBranches(stores);
      this.pages, this.known, this.heap, this.nextPage := map[], {}, map[], 1;
      this.nextObject, this.nextVersion, this.nextHandle, this.mappings := nextObject, nextVersion, 0, {};
      new;
      LiveBranchesAreFresh(stores);
    }

    /** All branches of a lineage in one cache; a lineage without branches is refused. */
    static method Restore(id: nat, stores: seq<LiveStore>, nextObject: nat, nextVersion: nat)
      returns (r: Result<SharedPageCache, CacheError>)
      ensures r.Err? <==> stores == [] || |stores| + 1 > U64_MAX
      ensures r.Err? ==> r.error == InvalidMapping
      ensures r.Ok? ==> fresh(r.value) && r.value.Value() == Restored(id, StoreValues(stores), nextObject, nextVersion)
    {
      if stores == [] || |stores| + 1 > U64_MAX {
        return Err(InvalidMapping);
      }
      var cache := new SharedPageCache(id, stores, nextObject, nextVersion);
      r := Ok(cache);
    }

    method Fork(source: BranchId) returns (r: Result<BranchId, CacheError>)
      modifies this
      ensures (Value(), r) == PageCache.Fork(old(Value()), source)
    {
      if source !in branches {
        return Err(BranchNotFound(source));
      }
      var br := branches[source];
      if br.active != map[] {
        return Err(ActiveMappings);
      }
      var identities := Seal(br.store.identities);
      SealKeepsNames(br.store.identities);
      DirtyMarks(br.dirty, PageKey(0, 0));
      var dirty := G.Seal(br.dirty);
      UpdateBranch(branches, source, br.(store := br.store.(identities := identities), dirty := dirty, exclusive := {}));
      branches := branches[source := br.(store := br.store.(identities := identities), dirty := dirty, exclusive := {})];
      if nextBranch == U64_MAX {
        return Err(InvalidMapping);
      }
      var child := LiveBranch(LiveStore(identities, br.store.files), map[], map[], {}, G.Branch(dirty.base, map[]));
      UpdateBranch(branches, nextBranch, child);
      r := Ok(nextBranch);
      branches := branches[nextBranch := child];
      nextBranch := nextBranch + 1;
    }

    method RemoveBranch(b: BranchId) returns (r: Result<(), CacheError>)
      modifies this
      ensures (Value(), r) == PageCache.RemoveBranch(old(Value()), b)
    {
      if b !in branches {
        return Err(BranchNotFound(b));
      }
      if branches[b].active != map[] {
        return Err(ActiveMappings);
      }
      WithoutBranch(branches, b);
      hide BranchValues, VisibleIdentities;
      branches := branches - {b};
      var visible := CollectVisible();
      pages := map identity | identity in pages && identity in visible :: pages[identity];
      r := Ok(());
    }

    /** The identities the branches see at the known keys. */
    method CollectVisible() returns (visible: set<PageIdentity>)
      ensures visible == VisibleIdentities(Value().branches, known)
    {
      visible := {};
      var keys := known;
      ghost var values := BranchValues(branches);
      assert VisibleIdentities(values, known - keys) == {};
      hide VisibleIdentities, BranchValues, BranchValue;
      while keys != {}
        invariant keys <= known
        invariant visible == VisibleIdentities(values, known - keys)
        decreases keys
      {
        var key :| key in keys;
        var here := VisibleAt(branches, key);
        VisibleUnion(values, known - keys, {key});
        visible := visible + here;
        keys := keys - {key};
        assert known - keys == (known - keys - {key}) + {key};
      }
      assert known - keys == known;
    }

    /** `ok` is the outcome of the store's own hook. */
    method Open(b: BranchId, node: NodeId, ok: bool) returns (r: Result<(), CacheError>)
      modifies this
      ensures (Value(), r) == PageCache.Open(old(Value()), b, node, ok)
    {
      hide DirtyKeys, NamesOf, StorePage;
      if b !in branches {
        return Err(BranchNotFound(b));
      }
      var br := branches[b];
      var count := if node in br.open then br.open[node] else 0;
      if count == 0 && !ok {
        UpdateBranch(branches, b, br.(open := br.open[node := 0]));
        branches := branches[b := br.(open := br.open[node := 0])];
        return Err(Io);
      }
      UpdateBranch(branches, b, br.(open := br.open[node := count + 1]));
      branches := branches[b := br.(open := br.open[node := count + 1])];
      r := Ok(());
    }

    method Close(b: BranchId, node: NodeId, ok: bool) returns (r: Result<(), CacheError>)
      modifies this
      ensures (Value(), r) == PageCache.Close(old(Value()), b, node, ok)
    {
      if b !in branches {
        return Err(BranchNotFound(b));
      }
      var br := branches[b];
      if node !in br.open {
        return Err(NodeNotOpen(node));
      }
      if br.open[node] == 0 {
        return Err(InvalidMapping);
      }
      var count := br.open[node] - 1;
      UpdateBranch(branches, b, br.(open := br.open[node := count]));
      branches := branches[b := br.(open := br.open[node := count])];
      r := if count == 0 && !ok then Err(Io) else Ok(());
    }

    /** Creating a file in the branch's store; `node` is the id the filesystem picked. */
    method CreateFile(b: BranchId, node: NodeId, size: nat) returns (r: Result<(), CacheError>)
      modifies this
      ensures b !in old(branches) ==> r == Err(BranchNotFound(b)) && Value() == old(Value())
      ensures b in old(branches) ==> r == Ok(()) && Value() == PageCache.CreateFile(old(Value()), b, node, size)
    {
      if b !in branches {
        return Err(BranchNotFound(b));
      }
      var br := branches[b];
      MeetsStoreContract(br.store.identities, node, 0, nextObject);
      var store := LiveStore(AddFile(br.store.identities, node, nextObject), br.store.files[node := Zeros(size)]);
      UpdateBranch(branches, b, br.(store := store));
      branches := branches[b := br.(store := store)];
      nextObject := nextObject + 1;
      r := Ok(());
    }

    /** Find the page of an identity, reading it from the store if it is not resident. */
    method LoadPage(b: BranchId, identity: PageIdentity, key: PageKey) returns (page: PageId)
      requires b in branches && Ident(Value(), b, key) == Some(identity) && key.node in branches[b].store.files
      modifies this`pages, this`heap, this`nextPage
      ensures Value() == PageCache.LoadPage(old(Value()), b, key)
      ensures Resident(Value(), b, key) == Some(page)
    {
      hide StorePage, BranchValue;
      LoadedFile(branches, b, key.node);
      if identity in pages {
        return pages[identity];
      }
      var bytes := StorePage(branches[b].store.files[key.node], key);
      page := nextPage;
      heap := heap[page := bytes];
      nextPage := nextPage + 1;
      pages := pages[identity := page];
    }

    /** Duplicate the page, rename it in its branch, and drop the old name if nobody sees it. */
    method CopyOnWrite(b: BranchId, identity: PageIdentity, key: PageKey, page: PageId) returns (copy: PageId)
      requires b in branches && Ident(Value(), b, key) == Some(identity) && Resident(Value(), b, key) == Some(page)
      modifies this`pages, this`heap, this`nextPage, this`branches, this`nextVersion
      ensures Value() == PageCache.CopyOnWrite(old(Value()), b, key) && b in branches
      ensures Resident(Value(), b, key) == Some(copy)
    {
      hide BranchValue, BranchValues, VisibleIdentities, PageIdentityOf, PageCache.CopyOnWrite, BumpVersion, Renamed;
      HasValue(branches, b);
      ghost var s := Value();
      var br := branches[b];
      copy := nextPage;
      var renamed := Renamed(br, key, nextVersion);
      SetRenamed(branches, b, key, nextVersion, br.exclusive + {key});
      RenamedHasName(s, b, key, nextVersion);
      var after := branches[b := renamed.(exclusive := br.exclusive + {key})];
      var named := PageIdentityOf(renamed.store.identities, key.node, key.page * PAGE_SIZE).value;
      var visible := VisibleAt(after, key);
      SeenByOne(BranchValues(after), key, identity);
      CopiedState(s, b, key, identity, BranchValues(after), named, identity in visible);
      var kept := pages[named := copy];
      if identity !in visible {
        kept := kept - {identity};
      }
      heap := heap[copy := if page in heap then heap[page] else []];
      branches, pages, nextPage, nextVersion := after, kept, nextPage + 1, nextVersion + 1;
    }

    method MapPage(b: BranchId, node: NodeId, offset: nat, flags: MapFlags) returns (r: Result<Mapping, CacheError>)
      modifies this
      ensures (Value(), r) == PageCache.MapPage(old(Value()), b, node, offset, flags)
    {
      if offset % PAGE_SIZE != 0 {
        return Err(InvalidMapping);
      }
      if !flags.read && !flags.write {
        return Err(InvalidMapping);
      }
      if b !in branches {
        return Err(BranchNotFound(b));
      }
      var key := PageKey(node, offset / PAGE_SIZE);
      var br := branches[b];
      if node !in br.open || br.open[node] == 0 {
        return Err(NodeNotOpen(node));
      }
      hide StorePage;
      LookedUp(branches, b, node, offset);
      var identity := PageIdentityOf(br.store.identities, node, offset);
      if identity.None? || node !in br.store.files {
        return Err(Io);
      }
      r := MapKnown(b, key, identity.value, flags);
    }

    /** Load a page that has a name, copy it if need be, and hand out a mapping. */
    method MapKnown(b: BranchId, key: PageKey, identity: PageIdentity, flags: MapFlags) returns (r: Result<Mapping, CacheError>)
      requires b in branches && Ident(Value(), b, key) == Some(identity) && key.node in branches[b].store.files
      modifies this
      ensures var s1 := PageCache.LoadPage(old(Value()), b, key);
        && b in s1.branches && Resident(s1, b, key).Some?
        && var copyOnWrite := flags.write && key !in old(Value()).branches[b].exclusive;
           if copyOnWrite && Active(old(Value()).branches[b], Resident(s1, b, key).value) > 0 then
             Value() == s1 && r == Err(PageBusy)
           else
             var s2 := if copyOnWrite then PageCache.CopyOnWrite(s1, b, key) else s1;
             && b in s2.branches && Resident(s2, b, key).Some?
             && r.Ok? && (Value(), r.value) == PageCache.Grant(s2, b, key, flags)
    {
      hide StorePage, PageCache.LoadPage, PageCache.CopyOnWrite, PageCache.Grant;
      var br := branches[b];
      HasValue(branches, b);
      var page := LoadPage(b, identity, key);
      var copyOnWrite := flags.write && key !in br.exclusive;
      if copyOnWrite && page in br.active && br.active[page] > 0 {
        return Err(PageBusy);
      }
      if copyOnWrite {
        page := CopyOnWrite(b, identity, key, page);
      }
      r := Grant(b, key, flags, page);
    }

    method Grant(b: BranchId, key: PageKey, flags: MapFlags, page: PageId) returns (r: Result<Mapping, CacheError>)
      requires b in branches && Resident(Value(), b, key) == Some(page)
      modifies this`known, this`branches, this`nextHandle, this`mappings
      ensures r.Ok? && (Value(), r.value) == PageCache.Grant(old(Value()), b, key, flags)
    {
      hide BranchValue;
      known := known + {key};
      var br := branches[b];
      var active := br.active[page := (if page in br.active then br.active[page] else 0) + 1];
      SetActive(branches, b, active);
      branches := branches[b := br.(active := active)];
      r := Ok(Mapping(nextHandle, id, b, key, flags, page));
      nextHandle := nextHandle + 1;
      mappings := mappings + {r.value};
    }

    method Unmap(b: BranchId, m: Mapping) returns (r: Result<(), CacheError>)
      modifies this
      ensures (Value(), r) == PageCache.Unmap(old(Value()), b, m)
    {
      hide BranchValue;
      if m.cache != id || m.branch != b {
        return Err(StaleMapping);
      }
      if b !in branches {
        return Err(BranchNotFound(b));
      }
      var br := branches[b];
      SetActive(branches, b, br.active);
      if m.page !in br.active || br.active[m.page] == 0 {
        return Err(StaleMapping);
      }
      var count := br.active[m.page] - 1;
      var active := if count == 0 then br.active - {m.page} else br.active[m.page := count];
      if m.flags.write {
        SetReturned(branches, b, active, m.key);
        branches := branches[b := br.(active := active, dirty := G.Put(br.dirty, m.key, true))];
      } else {
        SetActive(branches, b, active);
        branches := branches[b := br.(active := active)];
      }
      mappings := mappings - {m};
      r := Ok(());
    }

    /** A store through the memory of a mapping. */
    method StoreThrough(m: Mapping, within: nat, bytes: seq<Byte>)
      requires m.page in heap && within + |bytes| <= |heap[m.page]|
      modifies this`heap
      ensures Value() == PageCache.StoreThrough(old(Value()), m, within, bytes)
    {
      heap := heap[m.page := Splice(heap[m.page], within, bytes)];
    }

    method SyncPages(b: BranchId, keys: seq<PageKey>) returns (r: Result<(), CacheError>)
      requires b in branches
      modifies this`branches
      ensures (Value(), r) == PageCache.SyncPages(old(Value()), b, keys)
    {
      hide PageCache.SyncPage, BranchValue;
      for i := 0 to |keys|
        invariant b in branches
        invariant PageCache.SyncPages(old(Value()), b, keys) == PageCache.SyncPages(Value(), b, keys[i..])
      {
        assert keys[i..][0] == keys[i] && keys[i..][1..] == keys[i + 1..];
        r := SyncPage(b, keys[i]);
        if r.Err? {
          return;
        }
      }
      r := Ok(());
    }

    method SyncPage(b: BranchId, key: PageKey) returns (r: Result<(), CacheError>)
      requires b in branches
      modifies this`branches
      ensures (Value(), r) == PageCache.SyncPage(old(Value()), b, key)
      ensures branches.Keys == old(branches).Keys
    {
      var br := branches[b];
      SetClean(branches, b, key, br.store.files);
      var clean := br.(dirty := G.Put(br.dirty, key, false));
      if key.node !in br.store.files {
        return Err(Io);
      }
      var file := br.store.files[key.node];
      if Offset(key) >= |file| {
        branches := branches[b := clean];
        return Ok(());
      }
      LookedUp(branches, b, key.node, key.page * PAGE_SIZE);
      var identity := PageIdentityOf(br.store.identities, key.node, key.page * PAGE_SIZE);
      if identity.None? {
        return Err(Io);
      }
      if identity.value !in pages {
        return Err(StaleMapping);
      }
      var page := if pages[identity.value] in heap then heap[pages[identity.value]] else [];
      var count := Min(|file| - Offset(key), PAGE_SIZE);
      if |page| < count {
        return Err(Io);
      }
      var files := br.store.files[key.node := Splice(file, Offset(key), page[..count])];
      SetClean(branches, b, key, files);
      branches := branches[b := clean.(store := br.store.(files := files))];
      r := Ok(());
    }

    /** Write back the dirty pages of one node. */
    method Sync(b: BranchId, node: NodeId) returns (r: Result<(), CacheError>, ghost keys: seq<PageKey>)
      modifies this`branches
      ensures b !in old(branches) ==> r == Err(BranchNotFound(b)) && Value() == old(Value())
      ensures b in old(branches) ==>
        && Distinct(keys) && (forall key :: key in keys <==> key in old(Value()).branches[b].dirty && key.node == node)
        && (Value(), r) == PageCache.SyncPages(old(Value()), b, keys)
    {
      if b !in branches {
        return Err(BranchNotFound(b)), [];
      }
      var dirty := PagesForNode(branches[b].dirty, node);
      keys := dirty;
      r := SyncPages(b, dirty);
    }

    /** Write back every dirty page of the branch. */
    method SyncAll(b: BranchId) returns (r: Result<(), CacheError>, ghost keys: seq<PageKey>)
      modifies this`branches
      ensures b !in old(branches) ==> r == Err(BranchNotFound(b)) && Value() == old(Value())
      ensures b in old(branches) ==>
        && Distinct(keys) && (forall key :: key in keys <==> key in old(Value()).branches[b].dirty)
        && (Value(), r) == PageCache.SyncPages(old(Value()), b, keys)
      ensures old(Inv(Value())) && b in old(branches) ==> r.Ok? && Inv(Value()) && View(Value()) == old(View(Value()))
      ensures old(Inv(Value())) && b in old(branches) && old(branches)[b].active == map[] ==>
        b in branches && branches[b].store.files == old(View(Value()))[b]
    {
      if b !in branches {
        return Err(BranchNotFound(b)), [];
      }
      var dirty := AllPages(branches[b].dirty);
      keys := dirty;
      r := SyncPages(b, dirty);
      SyncAllFacts(old(Value()), b, keys);
    }
  }

  // Effects of the methods' record updates on the branches' values.

  lemma WithoutBranch(branches: map<BranchId, LiveBranch>, b: BranchId)
    requires b in branches
    ensures BranchValues(branches - {b}) == BranchValues(branches) - {b}
    ensures b in BranchValues(branches) && BranchValues(branches)[b].active == branches[b].active
  {
  }

  lemma HasValue(branches: map<BranchId, LiveBranch>, b: BranchId)
    ensures b in BranchValues(branches) <==> b in branches
  {
  }

  lemma LoadedFile(branches: map<BranchId, LiveBranch>, b: BranchId, node: NodeId)
    requires b in branches && node in branches[b].store.files
    ensures var v := BranchValues(branches);
      b in v && node in v[b].store.files && v[b].store.files[node] == branches[b].store.files[node]
  {
  }

  lemma SetActive(branches: map<BranchId, LiveBranch>, b: BranchId, active: map<PageId, nat>)
    requires b in branches
    ensures var v := BranchValues(branches);
      && v[b].active == branches[b].active
      && BranchValues(branches[b := branches[b].(active := active)]) == v[b := v[b].(active := active)]
  {
  }

  lemma SetReturned(branches: map<BranchId, LiveBranch>, b: BranchId, active: map<PageId, nat>, key: PageKey)
    requires b in branches
    ensures var v := BranchValues(branches);
      && v[b].active == branches[b].active
      && BranchValues(branches[b := branches[b].(active := active, dirty := G.Put(branches[b].dirty, key, true))])
      == v[b := v[b].(active := active, dirty := v[b].dirty + {key})]
  {
    var br := branches[b];
    DirtyMarks(br.dirty, key);
    UpdateBranch(branches, b, br.(active := active, dirty := G.Put(br.dirty, key, true)));
  }

  lemma SetClean(branches: map<BranchId, LiveBranch>, b: BranchId, key: PageKey, files: map<NodeId, seq<Byte>>)
    requires b in branches
    ensures var br := branches[b];
      var clean := br.(dirty := G.Put(br.dirty, key, false), store := br.store.(files := files));
      var v := BranchValues(branches);
      && v[b].store.files == br.store.files
      && BranchValues(branches[b := clean])
      == v[b := v[b].(dirty := v[b].dirty - {key}, store := v[b].store.(files := files))]
  {
    var br := branches[b];
    DirtyMarks(br.dirty, key);
    UpdateBranch(branches, b, br.(dirty := G.Put(br.dirty, key, false), store := br.store.(files := files)));
  }

  /** The identity a branch's chain gives a page is the one its value names. */
  lemma LookedUp(branches: map<BranchId, LiveBranch>, b: BranchId, node: NodeId, offset: nat)
    requires b in branches
    ensures PageIdentityOf(branches[b].store.identities, node, offset)
         == NameOf(BranchValues(branches)[b].store.names, PageKey(node, offset / PAGE_SIZE))
  {
    IdentityIsName(branches[b].store.identities, node, offset);
  }

  lemma SetRenamed(branches: map<BranchId, LiveBranch>, b: BranchId, key: PageKey, version: nat, exclusive: set<PageKey>)
    requires b in branches
    ensures var br := branches[b];
      var renamed := Renamed(br, key, version);
      var v := BranchValues(branches);
      var names := BumpVersion(v[b].store.names, key, version);
      && v[b].exclusive == br.exclusive
      && BranchValues(branches[b := renamed.(exclusive := exclusive)])
         == v[b := v[b].(store := v[b].store.(names := names), exclusive := exclusive)]
      && PageIdentityOf(renamed.store.identities, key.node, key.page * PAGE_SIZE) == NameOf(names, key)
  {
    var br := branches[b];
    MeetsStoreContract(br.store.identities, key.node, key.page * PAGE_SIZE, version);
    UpdateBranch(branches, b, Renamed(br, key, version).(exclusive := exclusive));
    IdentityIsName(Renamed(br, key, version).store.identities, key.node, key.page * PAGE_SIZE);
  }

  function Renamed(br: LiveBranch, key: PageKey, version: nat): LiveBranch {
    br.(store := br.store.(identities := PreparePageWrite(br.store.identities, key.node, key.page * PAGE_SIZE, version)))
  }

  lemma SyncAllFacts(s: State, b: BranchId, keys: seq<PageKey>)
    requires b in s.branches && Distinct(keys) && (forall key :: key in keys <==> key in s.branches[b].dirty)
    ensures var (t, r) := PageCache.SyncPages(s, b, keys);
      && (Inv(s) ==> r.Ok? && Inv(t) && View(t) == View(s))
      && (Inv(s) && s.branches[b].active == map[] ==> b in t.branches && t.branches[b].store.files == View(s)[b])
  {
    if Inv(s) {
      SyncPagesKeepsInv(s, b, keys);
      SameView(s, PageCache.SyncPages(s, b, keys).0);
      if s.branches[b].active == map[] {
        SyncAllMakesStoreTheView(s, b, keys);
      }
    }
  }
}
