/**
 When the pages of a suspended window can all be mapped again. Pages are
 mapped in the order of their window offsets, and a page shared with another
 branch can be mapped writable only while its branch has it mapped nowhere.
 */
module DaxResume {
  import opened Basics
  import opened Identities
  import opened PageCache
  import opened DaxCache
  import opened DaxWindow
  import CI = CacheInvariant

  /** The specs' offsets in increasing order. */
  predicate Enumerates(offsets: seq<nat>, w: Window) {
    && (forall i, j :: 0 <= i < j < |offsets| ==> offsets[i] < offsets[j])
    && Elements(offsets) == w.specs.Keys
  }

  // ---------------------------------------------------------------------
  // The condition
  // ---------------------------------------------------------------------

  /** The page's file is open and the host maps it. */
  predicate Ready(w: Window, o: nat, failing: set<nat>) {
    InFile(w, o) ==> OpenCount(w.cache.branches[w.branch], w.specs[o].node) > 0 && o !in failing
  }

  /** The window shows the file page at `o`. */
  predicate Shows(w: Window, o: nat, key: PageKey) {
    InFile(w, o) && KeyOf(w.specs[o]) == key
  }

  predicate ShowsWritable(w: Window, o: nat, key: PageKey) {
    Shows(w, o, key) && w.specs[o].writable
  }

  /** The first writable mapping of a shared file page comes after a read-only one. */
  ghost predicate Blocked(w: Window, p: nat) {
    && InFile(w, p) && w.specs[p].writable && KeyOf(w.specs[p]) !in Exclusive(w)
    && (exists o: nat {:trigger Shows(w, o, KeyOf(w.specs[p]))} :: o < p && Shows(w, o, KeyOf(w.specs[p])))
    && (forall o: nat {:trigger ShowsWritable(w, o, KeyOf(w.specs[p]))} :: o < p ==> !ShowsWritable(w, o, KeyOf(w.specs[p])))
  }

  ghost predicate Passes(w: Window, o: nat, failing: set<nat>) {
    Ready(w, o, failing) && !Blocked(w, o)
  }

  /** The window can show its specs: it has none, or it is attached and every page passes. */
  ghost predicate CanResume(w: Window, failing: set<nat>) {
    w.specs == map[] || (w.len.Some? && forall o :: o in w.specs ==> Passes(w, o, failing))
  }

  /** Why a page that does not pass is refused. */
  ghost function Refusal(w: Window, o: nat): DaxError
    requires o in w.specs && w.branch in w.cache.branches
  {
    if OpenCount(w.cache.branches[w.branch], w.specs[o].node) == 0 then CacheFailed(NodeNotOpen(w.specs[o].node))
    else if Blocked(w, o) then CacheFailed(PageBusy)
    else MmapFailed
  }

  /** The lowest page that does not pass, and why. */
  ghost predicate FailsAt(w: Window, o: nat, failing: set<nat>, error: DaxError) {
    && o in w.specs && w.branch in w.cache.branches && !Passes(w, o, failing) && error == Refusal(w, o)
    && forall p :: p in w.specs && p < o ==> Passes(w, p, failing)
  }

  /** Map every spec's page again, in the order given. */
  function Resume(w: Window, offsets: seq<nat>, failing: set<nat>): (Window, Result<(), DaxError>)
    requires forall i :: 0 <= i < |offsets| ==> offsets[i] in w.specs
  {
    if offsets == [] then (w, Ok(()))
    else if w.len.None? then (w, Err(ENODEV))
    else Activate(w, offsets, failing, [])
  }

  // ---------------------------------------------------------------------
  // Part way through
  // ---------------------------------------------------------------------

  ghost predicate Shown(w: Window, offsets: seq<nat>, k: nat, key: PageKey)
    requires k <= |offsets|
  {
    exists i {:trigger Shows(w, offsets[i], key)} :: 0 <= i < k && Shows(w, offsets[i], key)
  }

  ghost predicate ShownWritable(w: Window, offsets: seq<nat>, k: nat, key: PageKey)
    requires k <= |offsets|
  {
    exists i {:trigger ShowsWritable(w, offsets[i], key)} :: 0 <= i < k && ShowsWritable(w, offsets[i], key)
  }

  ghost predicate KeyAt(w0: Window, w: Window, offsets: seq<nat>, k: nat, key: PageKey)
    requires k <= |offsets|
  {
    && (Mapped(w.cache, w.branch, key) <==> Shown(w0, offsets, k, key))
    && (key in Exclusive(w) <==> key in Exclusive(w0) || ShownWritable(w0, offsets, k, key))
  }

  /** After the first `k` offsets: what is mapped and exclusive is what they show. */
  ghost predicate Progress(w0: Window, w: Window, offsets: seq<nat>, k: nat) {
    && k <= |offsets| && TableOk(w) && SameTable(w0, w)
    && w.active.Keys <= Elements(offsets[..k])
    && (forall key {:trigger KeyAt(w0, w, offsets, k, key)} :: KeyAt(w0, w, offsets, k, key))
  }

  lemma BlockedIsBusy(w0: Window, w: Window, offsets: seq<nat>, k: nat)
    requires Progress(w0, w, offsets, k) && k < |offsets| && Enumerates(offsets, w0)
    requires InFile(w0, offsets[k])
    ensures var key := KeyOf(w0.specs[offsets[k]]);
      Blocked(w0, offsets[k]) <==>
      w0.specs[offsets[k]].writable && key !in Exclusive(w) && Mapped(w.cache, w.branch, key)
  {
    hide TableOk, SameTable, Mapped;
    var p := offsets[k];
    var key := KeyOf(w0.specs[p]);
    assert KeyAt(w0, w, offsets, k, key);
    forall o: nat | o < p && Shows(w0, o, key) ensures exists i :: 0 <= i < k && offsets[i] == o { IndexBelow(offsets, w0, k, o); }
    assert Shown(w0, offsets, k, key) <==> exists o: nat {:trigger Shows(w0, o, key)} :: o < p && Shows(w0, o, key);
    assert ShownWritable(w0, offsets, k, key) <==> exists o: nat {:trigger ShowsWritable(w0, o, key)} :: o < p && ShowsWritable(w0, o, key);
  }

  lemma IndexBelow(offsets: seq<nat>, w: Window, k: nat, o: nat)
    requires Enumerates(offsets, w) && k < |offsets| && o < offsets[k] && o in w.specs
    ensures exists i :: 0 <= i < k && offsets[i] == o
  {
    assert o in Elements(offsets);
    var i :| 0 <= i < |offsets| && offsets[i] == o;
    assert i < k;
  }

  /** The next page maps exactly when it passes. */
  lemma NextPage(w0: Window, w: Window, offsets: seq<nat>, k: nat, failing: set<nat>)
    requires WindowOk(w0) && w0.len.Some? && Progress(w0, w, offsets, k) && k < |offsets| && Enumerates(offsets, w0)
    ensures offsets[k] in w.specs && w.len.Some? && offsets[k] !in w.active
    ensures ActivateOne(w, offsets[k], failing).1.Ok? <==> Passes(w0, offsets[k], failing)
    ensures ActivateOne(w, offsets[k], failing).1.Err? ==>
      && offsets[k] in w0.specs && w0.branch in w0.cache.branches
      && ActivateOne(w, offsets[k], failing).1.error == Refusal(w0, offsets[k])
  {
    hide CI.SameBytes, CI.Inv;
    var o := offsets[k];
    assert o in Elements(offsets) && SpecOk(w0, o);
    SameSpecs(w0, w);
    NotYet(offsets, w0, k);
    assert InFile(w, o) <==> InFile(w0, o);
    if InFile(w0, o) {
      var spec := w0.specs[o];
      BlockedIsBusy(w0, w, offsets, k);
      MapSucceedsWhen(w.cache, w.branch, spec.node, spec.offset, spec.writable);
      CacheMaps(w.cache, w.branch, spec);
      hide MapPage, Unmap, Blocked, Mapped;
      var (c, q) := MapPage(w.cache, w.branch, spec.node, spec.offset, MapFlags(true, spec.writable));
      assert q.Ok? <==> OpenCount(w0.cache.branches[w0.branch], spec.node) > 0 && !Blocked(w0, o);
      if q.Err? {
        MapFails(w.cache, w.branch, spec.node, spec.offset, spec.writable);
      }
    }
  }

  lemma NotYet(offsets: seq<nat>, w: Window, k: nat)
    requires Enumerates(offsets, w) && k < |offsets|
    ensures offsets[k] !in Elements(offsets[..k])
  {
  }

  lemma NextProgress(w0: Window, w: Window, offsets: seq<nat>, k: nat, failing: set<nat>)
    requires WindowOk(w0) && w0.len.Some? && Progress(w0, w, offsets, k) && k < |offsets| && Enumerates(offsets, w0)
    requires Passes(w0, offsets[k], failing)
    ensures offsets[k] in w.specs && w.len.Some?
    ensures Progress(w0, ActivateOne(w, offsets[k], failing).0, offsets, k + 1)
  {
    hide CI.SameBytes, CI.Inv, Blocked, ActivateOne;
    var o := offsets[k];
    assert o in Elements(offsets) && SpecOk(w0, o);
    NextPage(w0, w, offsets, k, failing);
    SameSpecs(w0, w);
    var (t, r) := ActivateOne(w, o, failing);
    ActivateOneMaps(w, o, failing);
    SameTableTwice(w0, w, t);
    ElementsPush(offsets[..k], o);
    assert offsets[..k + 1] == offsets[..k] + [o];
    assert (InFile(w, o) <==> InFile(w0, o)) && EntryOk(t, o);
    var next := k + 1;
    forall key ensures KeyAt(w0, t, offsets, next, key) {
      assert KeyAt(w0, w, offsets, k, key);
      NextKey(w0, w, t, offsets, k, r.value, key);
    }
  }

  lemma NextKey(w0: Window, w: Window, t: Window, offsets: seq<nat>, k: nat, mapped: bool, key: PageKey)
    requires k < |offsets| && KeyAt(w0, w, offsets, k, key) && w.branch == t.branch
    requires mapped == InFile(w0, offsets[k]) && offsets[k] in w0.specs
    requires !mapped ==> t == w
    requires mapped ==>
      && offsets[k] in t.active && t.cache.mappings == w.cache.mappings + {t.active[offsets[k]]}
      && t.active[offsets[k]].branch == w.branch && t.active[offsets[k]].key == KeyOf(w0.specs[offsets[k]])
      && Exclusive(t) == Exclusive(w) + (if w0.specs[offsets[k]].writable then {KeyOf(w0.specs[offsets[k]])} else {})
    ensures KeyAt(w0, t, offsets, k + 1, key)
  {
    hide InFile, Exclusive;
    assert Shows(w0, offsets[k], key) <==> mapped && KeyOf(w0.specs[offsets[k]]) == key;
    assert Shown(w0, offsets, k + 1, key) <==> Shown(w0, offsets, k, key) || Shows(w0, offsets[k], key);
    assert ShownWritable(w0, offsets, k + 1, key) <==>
      ShownWritable(w0, offsets, k, key) || ShowsWritable(w0, offsets[k], key);
    if mapped && KeyOf(w0.specs[offsets[k]]) == key {
      assert t.active[offsets[k]] in t.cache.mappings;
    }
    if Mapped(w.cache, w.branch, key) {
      var m :| m in w.cache.mappings && m.branch == w.branch && m.key == key;
      assert m in t.cache.mappings;
    }
  }

  // ---------------------------------------------------------------------
  // The whole window
  // ---------------------------------------------------------------------

  /** Offset `i` of a list is the first from `k` on that does not pass. */
  ghost predicate FirstFailure(w: Window, offsets: seq<nat>, k: nat, i: nat, failing: set<nat>, error: DaxError) {
    && k <= i < |offsets| && !Passes(w, offsets[i], failing)
    && offsets[i] in w.specs && w.branch in w.cache.branches && error == Refusal(w, offsets[i])
    && forall j :: k <= j < i ==> Passes(w, offsets[j], failing)
  }

  lemma {:induction false} ResumeFrom(w0: Window, w: Window, offsets: seq<nat>, k: nat, failing: set<nat>, activated: seq<nat>)
    requires WindowOk(w0) && w0.len.Some? && Progress(w0, w, offsets, k) && Enumerates(offsets, w0)
    requires w.len.Some? && forall i :: k <= i < |offsets| ==> offsets[i] in w.specs
    ensures var r := Activate(w, offsets[k..], failing, activated).1;
      && (r.Ok? <==> forall i :: k <= i < |offsets| ==> Passes(w0, offsets[i], failing))
      && (r.Err? ==> exists i: nat :: FirstFailure(w0, offsets, k, i, failing, r.error))
    decreases |offsets| - k
  {
    hide WindowOk, Progress, Passes, ActivateOne, RollBack, Enumerates, Refusal;
    assert k <= |offsets| by { ProgressBound(w0, w, offsets, k); }
    if k < |offsets| {
      assert offsets[k..][0] == offsets[k] && offsets[k..][1..] == offsets[k + 1..];
      NextPage(w0, w, offsets, k, failing);
      var (t, r) := ActivateOne(w, offsets[k], failing);
      if r.Ok? {
        NextProgress(w0, w, offsets, k, failing);
        ProgressSpecs(w0, t, offsets, k + 1);
        ProgressSpecs(w0, w, offsets, k);
        var next := if r.value then activated + [offsets[k]] else activated;
        ResumeFrom(w0, t, offsets, k + 1, failing, next);
        var q := Activate(t, offsets[k + 1..], failing, next).1;
        if q.Err? {
          var i: nat :| FirstFailure(w0, offsets, k + 1, i, failing, q.error);
          assert FirstFailure(w0, offsets, k, i, failing, q.error);
        }
      } else {
        assert FirstFailure(w0, offsets, k, k, failing, r.error);
      }
    }
  }

  lemma ProgressBound(w0: Window, w: Window, offsets: seq<nat>, k: nat)
    requires Progress(w0, w, offsets, k)
    ensures k <= |offsets|
  {
  }

  lemma ProgressSpecs(w0: Window, w: Window, offsets: seq<nat>, k: nat)
    requires Progress(w0, w, offsets, k)
    ensures w.specs == w0.specs && w.len == w0.len
  {
    SameSpecs(w0, w);
  }

  /** No live mapping of the window's branch. */
  ghost predicate Unmapped(w: Window) {
    w.active == map[] && forall key {:trigger Mapped(w.cache, w.branch, key)} :: !Mapped(w.cache, w.branch, key)
  }

  /** A suspended window resumes exactly when it can, and otherwise reports its lowest page that does not pass. */
  lemma ResumesWhen(w: Window, offsets: seq<nat>, failing: set<nat>)
    requires WindowOk(w) && Unmapped(w) && Enumerates(offsets, w)
    ensures forall i :: 0 <= i < |offsets| ==> offsets[i] in w.specs
    ensures var r := Resume(w, offsets, failing).1;
      && (r.Ok? <==> CanResume(w, failing))
      && (r.Err? ==> if w.len.None? then r.error == ENODEV else exists o :: FailsAt(w, o, failing, r.error))
  {
    hide Passes, Refusal, FailsAt, FirstFailure, Activate;
    forall i | 0 <= i < |offsets| ensures offsets[i] in w.specs { assert offsets[i] in Elements(offsets); }
    forall o | o in w.specs ensures exists i :: 0 <= i < |offsets| && offsets[i] == o { assert o in Elements(offsets); }
    if offsets != [] {
      assert offsets[0] in w.specs;
      if w.len.Some? {
        AttachedResumesWhen(w, offsets, failing);
        var r := Activate(w, offsets, failing, []).1;
        if r.Err? {
          FirstIsLowest(w, offsets, failing, r.error);
        }
      }
    }
  }

  /** In increasing order, the first failure is the lowest. */
  lemma FirstIsLowest(w: Window, offsets: seq<nat>, failing: set<nat>, error: DaxError)
    requires Enumerates(offsets, w) && exists i: nat :: FirstFailure(w, offsets, 0, i, failing, error)
    ensures exists o :: FailsAt(w, o, failing, error)
  {
    hide Passes, Refusal;
    var i: nat :| FirstFailure(w, offsets, 0, i, failing, error);
    var o := offsets[i];
    forall p | p in w.specs && p < o ensures Passes(w, p, failing) {
      IndexBelow(offsets, w, i, p);
    }
    assert FailsAt(w, o, failing, error);
  }

  lemma AttachedResumesWhen(w: Window, offsets: seq<nat>, failing: set<nat>)
    requires WindowOk(w) && w.len.Some? && Unmapped(w) && Enumerates(offsets, w)
    requires forall i :: 0 <= i < |offsets| ==> offsets[i] in w.specs
    ensures var r := Activate(w, offsets, failing, []).1;
      && (r.Ok? <==> forall i :: 0 <= i < |offsets| ==> Passes(w, offsets[i], failing))
      && (r.Err? ==> exists i: nat :: FirstFailure(w, offsets, 0, i, failing, r.error))
  {
    hide Blocked, Ready, Refusal;
    SameTableRefl(w);
    forall key ensures KeyAt(w, w, offsets, 0, key) { }
    assert Progress(w, w, offsets, 0);
    ResumeFrom(w, w, offsets, 0, failing, []);
    assert offsets[0..] == offsets;
  }
}
