/** Saving the stores of a cache's branches, and a cache over the saved stores. */
module CacheCheckpoint {
  import opened Basics
  import opened Identities
  import opened PageCache
  import opened CacheInvariant
  import opened CacheRuns

  /** Everything written back, and no mapping out. */
  predicate Quiet(s: State, b: BranchId) {
    b in s.branches && s.branches[b].dirty == {} && s.branches[b].active == map[]
  }

  predicate AllQuiet(s: State, order: seq<BranchId>) {
    forall i :: 0 <= i < |order| ==> Quiet(s, order[i])
  }

  /** The stores of some branches, as a checkpoint saves them. */
  function SavedStores(s: State, order: seq<BranchId>): seq<Store>
    requires AllQuiet(s, order)
  {
    seq(|order|, i requires 0 <= i < |order| => s.branches[order[i]].store)
  }

  /** A page of a quiet branch is in its store. */
  lemma StoreHasPage(s: State, b: BranchId, key: PageKey)
    requires Inv(s) && Quiet(s, b) && Resident(s, b, key).Some?
    ensures Agrees(Heap(s, Resident(s, b, key).value), FileOf(s, b, key.node), key)
    ensures |Heap(s, Resident(s, b, key).value)| == PAGE_SIZE
  {
    assert CleanOk(s, b, key);
    if WriteMapped(s, b, key) {
      var m :| m in s.mappings && m.branch == b && m.key == key && m.flags.write;
      UnmapSucceeds(s, b, m);
    }
  }

  /** Files that agree with one page, up to the same length, read the same there. */
  lemma SameStorePage(page: seq<Byte>, f: seq<Byte>, g: seq<Byte>, key: PageKey)
    requires |page| == PAGE_SIZE && Agrees(page, f, key) && Agrees(page, g, key) && |f| == |g|
    ensures StorePage(f, key) == StorePage(g, key)
  {
    var a, b := StorePage(f, key), StorePage(g, key);
    forall j | 0 <= j < PAGE_SIZE ensures a[j] == b[j] {
      var byte := page[j];
    }
  }

  /** Two quiet branches that give a page one name hold the same bytes for it. */
  lemma SameNameSameBytes(s: State, b: BranchId, c: BranchId, key: PageKey)
    requires Inv(s) && Quiet(s, b) && Quiet(s, c) && Ident(s, b, key).Some? && Ident(s, b, key) == Ident(s, c, key)
    ensures StorePage(FileOf(s, b, key.node), key) == StorePage(FileOf(s, c, key.node), key)
  {
    if Resident(s, b, key).Some? {
      StoreHasPage(s, b, key);
      StoreHasPage(s, c, key);
      IdentityNamesKey(s, b, key, c, key);
      hide Inv;
      SameStorePage(Heap(s, Resident(s, b, key).value), FileOf(s, b, key.node), FileOf(s, c, key.node), key);
    } else {
      assert ColdOk(s, b, c, key);
    }
  }

  lemma QuietCompatible(s: State, b: BranchId, c: BranchId)
    requires Inv(s) && Quiet(s, b) && Quiet(s, c)
    ensures Compatible(s.branches[b].store, s.branches[c].store)
  {
    var p, q := s.branches[b].store, s.branches[c].store;
    assert BranchOk(s, b) && BranchOk(s, c);
    forall n, m | n in p.names.objects && m in q.names.objects && p.names.objects[n] == q.names.objects[m]
      ensures n == m && n in p.files && n in q.files && |p.files[n]| == |q.files[n]|
    {
      assert ObjectOk(s, b, c, n, m);
    }
    forall key | NameOf(p.names, key).Some? && NameOf(p.names, key) == NameOf(q.names, key)
        && key.node in p.files && key.node in q.files
      ensures StorePage(p.files[key.node], key) == StorePage(q.files[key.node], key)
    {
      SameNameSameBytes(s, b, c, key);
    }
  }

  /** Saved stores may share one cache. */
  lemma SavedAreCoherent(s: State, order: seq<BranchId>)
    requires Inv(s) && AllQuiet(s, order)
    ensures Coherent(SavedStores(s, order), s.nextObject, s.nextVersion)
  {
    hide Compatible;
    var stores := SavedStores(s, order);
    forall b | 1 <= b <= |stores|
      ensures Issued(StoreOf(stores, b).names, s.nextObject, s.nextVersion)
      ensures StoreOf(stores, b).files.Keys == StoreOf(stores, b).names.objects.Keys
    {
      assert Quiet(s, order[b - 1]) && BranchOk(s, order[b - 1]);
    }
    forall b, c | 1 <= b <= |stores| && 1 <= c <= |stores| ensures Compatible(StoreOf(stores, b), StoreOf(stores, c)) {
      assert Quiet(s, order[b - 1]) && Quiet(s, order[c - 1]);
      QuietCompatible(s, order[b - 1], order[c - 1]);
    }
  }

  /** A cache over saved stores shows each branch as it was when they were saved. */
  lemma SavedViews(s: State, order: seq<BranchId>, id: nat, i: nat)
    requires Inv(s) && AllQuiet(s, order) && i < |order|
    ensures var t := Restored(id, SavedStores(s, order), s.nextObject, s.nextVersion);
      i + 1 in t.branches && BranchView(t, i + 1) == BranchView(s, order[i])
  {
    var stores := SavedStores(s, order);
    var t := Restored(id, stores, s.nextObject, s.nextVersion);
    assert i + 1 in t.branches && Quiet(s, order[i]);
    SavedAreCoherent(s, order);
    SyncedStoreIsView(s, order[i]);
    hide Inv, Coherent, BranchView, Restored;
    RestoredView(id, stores, s.nextObject, s.nextVersion);
    assert View(t)[i + 1] == StoreOf(stores, i + 1).files;
  }

  /** And from there on it refines deep copies. */
  lemma SavedComeBack(s: State, order: seq<BranchId>, id: nat, steps: seq<Step>)
    requires Inv(s) && AllQuiet(s, order)
    requires LegalRun(Restored(id, SavedStores(s, order), s.nextObject, s.nextVersion), steps)
    ensures var t := Restored(id, SavedStores(s, order), s.nextObject, s.nextVersion);
      && (forall i :: 0 <= i < |order| ==> i + 1 in t.branches && BranchView(t, i + 1) == BranchView(s, order[i]))
      && Inv(Run(t, steps)) && View(Run(t, steps)) == SpecRun(t, View(t), steps)
  {
    var t := Restored(id, SavedStores(s, order), s.nextObject, s.nextVersion);
    SavedAreCoherent(s, order);
    hide Inv, Coherent, Run, SpecRun, LegalRun, BranchView, Restored, View, AllQuiet;
    RestoredRefines(id, SavedStores(s, order), s.nextObject, s.nextVersion, steps);
    forall i | 0 <= i < |order| ensures i + 1 in t.branches && BranchView(t, i + 1) == BranchView(s, order[i]) {
      SavedViews(s, order, id, i);
    }
  }
}
