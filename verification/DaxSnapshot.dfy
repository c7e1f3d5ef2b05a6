/** Saving a branch under its window: suspend, write back, note the specs, resume. */
module DaxSnapshot {
  import opened Basics
  import opened Identities
  import opened PageCache
  import opened DaxCache
  import opened DaxWindow
  import opened DaxResume
  import opened DaxFork
  import CI = CacheInvariant
  import CR = CacheRuns

  /** A list of the branch's dirty pages. */
  ghost predicate ListsDirty(w: Window, keys: seq<PageKey>) {
    w.branch in w.cache.branches && Distinct(keys) && forall key :: key in keys <==> key in w.cache.branches[w.branch].dirty
  }

  /** The branch's dirty pages written back. */
  function SyncUnder(w: Window, keys: seq<PageKey>): (Window, Result<(), CacheError>)
    requires w.branch in w.cache.branches
  {
    var (t, r) := SyncPages(w.cache, w.branch, keys);
    (w.(cache := t), r)
  }

  /** What writing back leaves alone. */
  ghost predicate SameHandles(s: State, t: State, b: BranchId) {
    && b in s.branches && b in t.branches
    && t.branches[b].open == s.branches[b].open && t.branches[b].exclusive == s.branches[b].exclusive
    && t.branches[b].store.files.Keys == s.branches[b].store.files.Keys
    && forall n {:trigger FileOf(t, b, n)} :: |FileOf(t, b, n)| == |FileOf(s, b, n)|
  }

  lemma {:induction false} SyncKeepsHandles(s: State, b: BranchId, keys: seq<PageKey>)
    requires b in s.branches
    ensures SameHandles(s, SyncPages(s, b, keys).0, b)
    decreases |keys|
  {
    if keys != [] {
      var (t, r) := SyncPage(s, b, keys[0]);
      assert SameHandles(s, t, b);
      if r.Ok? {
        SyncKeepsHandles(t, b, keys[1..]);
        forall n ensures |FileOf(SyncPages(s, b, keys).0, b, n)| == |FileOf(s, b, n)| {
          assert |FileOf(t, b, n)| == |FileOf(s, b, n)|;
        }
      }
    }
  }

  /** Writing back under a suspended window never fails, makes the store the view, and changes nothing the window needs. */
  lemma SyncKeepsWindow(w: Window, keys: seq<PageKey>)
    requires WindowOk(w) && Unmapped(w) && ListsDirty(w, keys)
    ensures var (t, r) := SyncUnder(w, keys);
      && r.Ok? && WindowOk(t) && Unmapped(t) && Exclusive(t) == Exclusive(w)
      && t.specs == w.specs && t.len == w.len && t.branch == w.branch
      && t.cache.branches.Keys == w.cache.branches.Keys && w.branch in CR.View(w.cache)
      && t.cache.branches[w.branch].store.files == CR.View(w.cache)[w.branch]
      && CI.SameBytes(w.cache, t.cache)
      && (forall o {:trigger InFile(t, o)} :: InFile(t, o) <==> InFile(w, o))
      && (forall o, failing {:trigger Ready(t, o, failing)} :: Ready(t, o, failing) <==> Ready(w, o, failing))
  {
    assert w.branch in w.cache.branches;
    hide *;
    hide WindowOk, Unmapped, ListsDirty, SyncUnder;
    var t := SyncUnder(w, keys).0;
    SyncCache(w, keys);
    HandlesKeepWindow(w, t);
  }

  lemma SyncCache(w: Window, keys: seq<PageKey>)
    requires WindowOk(w) && Unmapped(w) && ListsDirty(w, keys)
    ensures var (t, r) := SyncUnder(w, keys);
      && r.Ok? && t == w.(cache := t.cache) && CI.Inv(t.cache) && CI.SameBytes(w.cache, t.cache)
      && t.cache.mappings == w.cache.mappings && SameHandles(w.cache, t.cache, w.branch)
      && t.cache.branches.Keys == w.cache.branches.Keys && w.branch in CR.View(w.cache)
      && t.cache.branches[w.branch].store.files == CR.View(w.cache)[w.branch]
  {
    var b := w.branch;
    NoActiveCounts(w);
    assert b in CR.View(w.cache);
    hide CI.Inv, CI.SameBytes, CR.View, SyncPages, SameHandles;
    CR.SyncPagesKeepsInv(w.cache, b, keys);
    CR.SyncAllMakesStoreTheView(w.cache, b, keys);
    SyncKeepsHandles(w.cache, b, keys);
  }

  lemma HandlesKeepWindow(w: Window, t: Window)
    requires WindowOk(w) && Unmapped(w) && t == w.(cache := t.cache) && CI.Inv(t.cache)
    requires t.cache.mappings == w.cache.mappings && SameHandles(w.cache, t.cache, w.branch)
    ensures WindowOk(t) && Unmapped(t) && Exclusive(t) == Exclusive(w)
    ensures forall o {:trigger InFile(t, o)} :: InFile(t, o) <==> InFile(w, o)
    ensures forall o, failing {:trigger Ready(t, o, failing)} :: Ready(t, o, failing) <==> Ready(w, o, failing)
  {
    hide CI.Inv;
    forall o ensures InFile(t, o) <==> InFile(w, o) {
      if o in w.specs {
        assert |FileOf(t.cache, w.branch, w.specs[o].node)| == |FileOf(w.cache, w.branch, w.specs[o].node)|;
      }
    }
    forall o ensures SpecOk(t, o) { assert SpecOk(w, o); }
    forall o ensures EntryOk(t, o) { }
    forall o, p ensures EntriesApart(t, o, p) { }
    forall key ensures !Mapped(t.cache, t.branch, key) { assert !Mapped(w.cache, w.branch, key); }
  }

  /**
   A snapshot of a branch: its store holds what the branch read before, nothing
   any branch reads changes, and the window comes back exactly when it would
   have after a mere suspension.
   */
  lemma SnapshotIsView(w: Window, held: seq<nat>, keys: seq<PageKey>, offsets: seq<nat>, failing: set<nat>)
    requires WindowOk(w) && OwnsAll(w) && Holds(w, held) && Enumerates(offsets, w)
    requires ListsDirty(Suspend(w, held), keys)
    ensures var (t, q) := SyncUnder(Suspend(w, held), keys);
      && q.Ok?
      && t.cache.branches.Keys == w.cache.branches.Keys && w.branch in t.cache.branches && w.branch in CR.View(w.cache)
      && t.cache.branches[w.branch].store.files == CR.View(w.cache)[w.branch]
      && (forall i :: 0 <= i < |offsets| ==> offsets[i] in t.specs)
      && var (u, r) := Resume(t, offsets, failing);
         && WindowOk(u) && OwnsAll(u) && CI.SameBytes(w.cache, u.cache)
         && (r.Ok? <==> CanResume(w, failing))
         && (r.Ok? ==> forall o :: o in u.active <==> o in w.specs && InFile(w, o))
         && (r.Err? ==> u.active == map[])
  {
    hide CI.Inv, CI.SameBytes, CR.View, SyncUnder, Resume, Suspend, CanResume, Ready, InFile, OwnsAll, Exclusive;
    var v := Suspend(w, held);
    SuspendUnmaps(w, held);
    SameShows(w, v);
    SyncKeepsWindow(v, keys);
    var t := SyncUnder(v, keys).0;
    CI.SameBytesTransitive(w.cache, v.cache, t.cache);
    SameViews(w, v);
    UnmappedOwnsAll(t);
    ResumesWhen(t, offsets, failing);
    ResumedPages(t, offsets, failing);
    CI.SameBytesTransitive(w.cache, t.cache, Resume(t, offsets, failing).0.cache);
    SameCanResume(w, v, failing);
    SameCanResume(v, t, failing);
    forall o ensures InFile(t, o) <==> InFile(w, o) { assert InFile(v, o) <==> InFile(w, o); }
  }

  lemma SameViews(w: Window, v: Window)
    requires WindowOk(w) && WindowOk(v) && SameCache(w, v) && w.branch in v.cache.branches
    ensures w.branch in w.cache.branches && CR.View(w.cache) == CR.View(v.cache) && w.branch in CR.View(w.cache)
  {
    assert w.cache.branches.Keys == v.cache.branches.Keys;
    CR.SameView(w.cache, v.cache);
  }
}
