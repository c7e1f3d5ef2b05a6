/** The window's tables over whole runs, with the rest of the cache moving in between. */
module DaxRuns {
  import opened Basics
  import opened Identities
  import opened PageCache
  import opened DaxCache
  import opened DaxWindow
  import opened DaxResume
  import opened DaxFork
  import opened DaxSnapshot
  import CI = CacheInvariant

  datatype Step =
    | DoSetup(node: NodeId, fileOffset: nat, size: nat, writable: bool, start: nat, failing: set<nat>)
    | DoRemove(start: nat, size: nat)
    | DoAttach(size: nat, order: seq<nat>, failing: set<nat>)
    | DoDetach(held: seq<nat>)
    | DoFork(held: seq<nat>, order: seq<nat>, failing: set<nat>)
    | DoSnapshot(held: seq<nat>, keys: seq<PageKey>, order: seq<nat>, failing: set<nat>)
    | DoFileWrite(held: seq<nat>, cache: State, order: seq<nat>, failing: set<nat>)
    | DoCache(cache: State)

  /**
   What other users of the cache may do: anything that leaves this window's
   mappings live and its files as long, and holds no mapping of its branch.
   */
  ghost predicate Outside(w: Window, cache: State) {
    && CI.Inv(cache)
    && (forall o :: o in w.active ==> w.active[o] in cache.mappings)
    && (forall m :: m in cache.mappings && m.branch == w.branch ==> m in w.cache.mappings)
    && (w.branch in w.cache.branches ==>
          && w.branch in cache.branches
          && w.cache.branches[w.branch].store.files.Keys <= cache.branches[w.branch].store.files.Keys
          && (forall n :: n in w.cache.branches[w.branch].store.files ==>
                |FileOf(cache, w.branch, n)| == |FileOf(w.cache, w.branch, n)|))
  }

  ghost predicate Legal(w: Window, step: Step) {
    match step
    case DoAttach(size, order, failing) => Enumerates(order, w)
    case DoDetach(held) => Holds(w, held)
    case DoFork(held, order, failing) => Holds(w, held) && Enumerates(order, w)
    case DoSnapshot(held, keys, order, failing) =>
      Holds(w, held) && Enumerates(order, w) && ListsDirty(Suspend(w, held), keys)
    case DoFileWrite(held, cache, order, failing) =>
      Holds(w, held) && Enumerates(order, w) && Outside(Suspend(w, held), cache)
    case DoCache(cache) => Outside(w, cache)
    case _ => true
  }

  lemma OrderHasSpecs(w: Window, order: seq<nat>)
    requires Enumerates(order, w)
    ensures forall i :: 0 <= i < |order| ==> order[i] in w.specs
  {
    forall i | 0 <= i < |order| ensures order[i] in w.specs { assert order[i] in Elements(order); }
  }

  function Attach(w: Window, size: nat, order: seq<nat>, failing: set<nat>): Window
    requires Enumerates(order, w)
  {
    if w.len.Some? then w
    else
      OrderHasSpecs(w, order);
      var (t, r) := Activate(w.(len := Some(size)), order, failing, []);
      if r.Ok? then t else t.(len := None)
  }

  function Detach(w: Window, held: seq<nat>): Window {
    var (t, r) := RemoveEach(w, held, false);
    if r.Ok? then t.(len := None) else t
  }

  function ResumeIn(w: Window, order: seq<nat>, failing: set<nat>): Window {
    if forall i :: 0 <= i < |order| ==> order[i] in w.specs then Resume(w, order, failing).0 else w
  }

  function ForkAndResume(w: Window, held: seq<nat>, order: seq<nat>, failing: set<nat>): Window {
    ResumeIn(ForkUnder(Suspend(w, held)), order, failing)
  }

  /** Suspend, write everything back, resume. */
  function SnapshotAndResume(w: Window, held: seq<nat>, keys: seq<PageKey>, order: seq<nat>, failing: set<nat>): Window {
    var v := Suspend(w, held);
    if v.branch in v.cache.branches then ResumeIn(SyncUnder(v, keys).0, order, failing) else v
  }

  /** Suspend, let the file be opened, written, written back and closed, resume. */
  function WriteAndResume(w: Window, held: seq<nat>, cache: State, order: seq<nat>, failing: set<nat>): Window {
    ResumeIn(Suspend(w, held).(cache := cache), order, failing)
  }

  ghost function Next(w: Window, step: Step): Window
    requires Legal(w, step)
  {
    match step
    case DoSetup(node, fileOffset, size, writable, start, failing) =>
      Setup(w, node, fileOffset, size, writable, start, failing).0
    case DoRemove(start, size) => RemoveEach(w, Pages(start, size), true).0
    case DoAttach(size, order, failing) => Attach(w, size, order, failing)
    case DoDetach(held) => Detach(w, held)
    case DoFork(held, order, failing) => ForkAndResume(w, held, order, failing)
    case DoSnapshot(held, keys, order, failing) => SnapshotAndResume(w, held, keys, order, failing)
    case DoFileWrite(held, cache, order, failing) => WriteAndResume(w, held, cache, order, failing)
    case DoCache(cache) => w.(cache := cache)
  }

  // ---------------------------------------------------------------------
  // Every step keeps the tables
  // ---------------------------------------------------------------------

  /** The tables are consistent and hold every live mapping of the branch. */
  ghost predicate Good(w: Window) {
    WindowOk(w) && OwnsAll(w)
  }

  lemma {:induction false} RemoveKeepsWindow(w: Window, offsets: seq<nat>, removeSpec: bool)
    requires Good(w)
    ensures Good(RemoveEach(w, offsets, removeSpec).0)
    decreases |offsets|
  {
    if offsets != [] {
      var o := offsets[0];
      EntriesHaveSpecs(w, o);
      if o in w.specs {
        RemoveOne(w, o, removeSpec);
        var t := RemoveOffset(w, o, removeSpec).0;
        SpecsStay(w, t);
        OwnsLess(w, t, {o});
        RemoveKeepsWindow(t, offsets[1..], removeSpec);
      }
    }
  }

  lemma AttachKeepsWindow(w: Window, size: nat, order: seq<nat>, failing: set<nat>)
    requires Good(w) && Enumerates(order, w)
    ensures Good(Attach(w, size, order, failing))
  {
    hide CI.Inv, CI.SameBytes, Activate, InFile, OwnsAll;
    if w.len.None? {
      OrderHasSpecs(w, order);
      var v := w.(len := Some(size));
      forall o ensures o !in w.active { assert EntryOk(w, o); }
      forall o ensures EntryOk(v, o) { }
      forall o, p ensures EntriesApart(v, o, p) { }
      forall i | 0 <= i < |order| ensures Aligned(v.specs[order[i]].offset) { assert SpecOk(w, order[i]); }
      ActivateSettles(v, order, failing, []);
      SameOwner(w, v);
      ActivateOwns(v, order, failing, []);
      var (u, r) := Activate(v, order, failing, []);
      var t := Attach(w, size, order, failing);
      SameOwner(u, t);
      AttachedSpecs(w, v, u, order, r.Ok?);
      forall o ensures EntryOk(t, o) { assert EntryOk(u, o); }
      forall o, p ensures EntriesApart(t, o, p) { assert EntriesApart(u, o, p); }
    }
  }

  lemma AttachedSpecs(w: Window, v: Window, u: Window, order: seq<nat>, ok: bool)
    requires WindowOk(w) && Enumerates(order, w) && w.active == map[] && SameTable(v, u)
    requires v == w.(len := v.len)
    requires ok ==> forall i :: 0 <= i < |order| ==> Fits(u, order[i])
    ensures forall o {:trigger SpecOk(if ok then u else u.(len := None), o)} :: SpecOk(if ok then u else u.(len := None), o)
  {
    hide CI.Inv, CI.SameBytes;
    var t := if ok then u else u.(len := None);
    forall o ensures SpecOk(t, o) {
      assert SpecOk(w, o);
      if o in w.specs {
        assert o in Elements(order);
        var i :| 0 <= i < |order| && order[i] == o;
        assert ok ==> Fits(u, order[i]);
      }
    }
  }

  lemma DetachKeepsWindow(w: Window, held: seq<nat>)
    requires Good(w) && Holds(w, held)
    ensures Good(Detach(w, held))
  {
    hide CI.Inv, CI.SameBytes, OwnsAll;
    forall o | o in w.active ensures o in w.specs { EntriesHaveSpecs(w, o); }
    RemoveEachRemoves(w, held, false);
    var u, t := RemoveEach(w, held, false).0, Detach(w, held);
    SpecsStay(w, u);
    OwnsLess(w, u, Elements(held));
    SameOwner(u, t);
    forall o ensures EntryOk(t, o) { }
    forall o, p ensures EntriesApart(t, o, p) { }
    forall o ensures SpecOk(t, o) { assert SpecOk(u, o); }
  }

  lemma OutsideKeepsWindow(w: Window, cache: State)
    requires Good(w) && Outside(w, cache)
    ensures Good(w.(cache := cache))
  {
    hide CI.Inv;
    var t := w.(cache := cache);
    forall o ensures EntryOk(t, o) { assert EntryOk(w, o) && SpecOk(w, o); }
    forall o, p ensures EntriesApart(t, o, p) { assert EntriesApart(w, o, p); }
    forall o ensures SpecOk(t, o) { assert SpecOk(w, o); }
    forall m ensures Owned(t, m) { assert Owned(w, m); }
  }

  lemma SnapshotKeepsWindow(w: Window, held: seq<nat>, keys: seq<PageKey>, order: seq<nat>, failing: set<nat>)
    requires Good(w) && Legal(w, DoSnapshot(held, keys, order, failing))
    ensures Good(SnapshotAndResume(w, held, keys, order, failing))
  {
    hide WindowOk, OwnsAll, Suspend, SyncUnder, Resume, CI.SameBytes, CanResume, InFile;
    SnapshotIsView(w, held, keys, order, failing);
    assert Suspend(w, held).branch in Suspend(w, held).cache.branches;
  }

  lemma FileWriteKeepsWindow(w: Window, held: seq<nat>, cache: State, order: seq<nat>, failing: set<nat>)
    requires Good(w) && Legal(w, DoFileWrite(held, cache, order, failing))
    ensures Good(WriteAndResume(w, held, cache, order, failing))
  {
    hide CI.Inv, CI.SameBytes, Resume, InFile, OwnsAll, Outside, WindowOk;
    var v := Suspend(w, held);
    SuspendUnmaps(w, held);
    hide Suspend;
    UnmappedOwnsAll(v);
    OutsideKeepsWindow(v, cache);
    var u := v.(cache := cache);
    OrderHasSpecs(u, order);
    ResumedPages(u, order, failing);
  }

  /** Writing back is such a move of the cache. */
  lemma SyncIsOutside(w: Window, keys: seq<PageKey>)
    requires WindowOk(w) && Unmapped(w) && ListsDirty(w, keys)
    ensures Outside(w, SyncUnder(w, keys).0.cache)
  {
    hide SyncUnder, SyncPages;
    SyncCache(w, keys);
    var t := SyncUnder(w, keys).0.cache;
    forall n | n in w.cache.branches[w.branch].store.files
      ensures |FileOf(t, w.branch, n)| == |FileOf(w.cache, w.branch, n)| { }
  }

  /** So are reading and writing a file, which return the mappings they take. */
  lemma FileAccessIsOutside(w: Window, t: State)
    requires OwnsAll(w) && TableOk(w) && CI.Inv(t) && SameBranch(w.cache, t, w.branch) && t.mappings == w.cache.mappings
    ensures Outside(w, t)
  {
    forall o | o in w.active ensures w.active[o] in t.mappings { assert EntryOk(w, o); }
  }

  lemma StepKeepsWindow(w: Window, step: Step)
    requires Good(w) && Legal(w, step)
    ensures Good(Next(w, step))
  {
    hide WindowOk, OwnsAll, Setup, RemoveEach, Attach, Detach, Suspend, ForkUnder, Resume, SnapshotAndResume, WriteAndResume;
    match step
    case DoSetup(node, fileOffset, size, writable, start, failing) =>
      SetupIsAllOrNothing(w, node, fileOffset, size, writable, start, failing);
      SetupOwns(w, node, fileOffset, size, writable, start, failing);
    case DoRemove(start, size) => RemoveKeepsWindow(w, Pages(start, size), true);
    case DoAttach(size, order, failing) => AttachKeepsWindow(w, size, order, failing);
    case DoDetach(held) => DetachKeepsWindow(w, held);
    case DoFork(held, order, failing) => ForkResumesWhen(w, held, order, failing);
    case DoSnapshot(held, keys, order, failing) => SnapshotKeepsWindow(w, held, keys, order, failing);
    case DoFileWrite(held, cache, order, failing) => FileWriteKeepsWindow(w, held, cache, order, failing);
    case DoCache(cache) => OutsideKeepsWindow(w, cache);
  }

  ghost predicate LegalRun(w: Window, steps: seq<Step>)
    decreases |steps|
  {
    steps == [] || (Legal(w, steps[0]) && LegalRun(Next(w, steps[0]), steps[1..]))
  }

  ghost function Run(w: Window, steps: seq<Step>): Window
    requires LegalRun(w, steps)
    decreases |steps|
  {
    if steps == [] then w else Run(Next(w, steps[0]), steps[1..])
  }

  /**
   After every run: mapped pages have specs and an attached window, specs are
   aligned and apart, mappings are live, and no mapping of the branch is lost.
   */
  lemma {:induction false} RunKeepsWindow(w: Window, steps: seq<Step>)
    requires Good(w) && LegalRun(w, steps)
    ensures Good(Run(w, steps))
    decreases |steps|
  {
    hide Good, Legal, Next;
    if steps != [] {
      StepKeepsWindow(w, steps[0]);
      RunKeepsWindow(Next(w, steps[0]), steps[1..]);
    }
  }

  /** A window starts out so: nothing mapped, specs that are in order, and no mapping of a branch nobody has used. */
  lemma StartIsGood(cache: State, branch: BranchId, specs: map<nat, Spec>)
    requires CI.Inv(cache) && forall m :: m in cache.mappings ==> m.branch != branch
    requires var w := Window(cache, branch, None, specs, map[]); forall o {:trigger SpecOk(w, o)} :: SpecOk(w, o)
    ensures Good(Window(cache, branch, None, specs, map[]))
  {
    hide CI.Inv;
  }

  /** The child of a fork starts with the specs of its source, which are in order for it. */
  lemma ChildIsGood(w: Window)
    requires Good(w) && Unmapped(w) && PageCache.Fork(w.cache, w.branch).1.Ok?
    ensures var (t, child) := PageCache.Fork(w.cache, w.branch);
      Good(Window(t, child.value, None, w.specs, map[]))
  {
    var (t, child) := PageCache.Fork(w.cache, w.branch);
    var c := Window(t, child.value, None, w.specs, map[]);
    CI.ForkKeepsInv(w.cache, w.branch);
    forall m | m in t.mappings ensures m.branch != child.value {
      assert CI.MappingOk(w.cache, m) && CI.BranchOk(w.cache, m.branch);
    }
    forall o ensures SpecOk(c, o) { assert SpecOk(w, o); }
    hide CI.Inv;
    StartIsGood(t, child.value, w.specs);
  }

  /** Attaching a window of some size succeeds exactly when every spec fits it and passes. */
  lemma AttachesWhen(w: Window, size: nat, order: seq<nat>, failing: set<nat>)
    requires Good(w) && w.len.None? && Enumerates(order, w)
    ensures var t := Attach(w, size, order, failing);
      && (t.len.Some? <==> forall o :: o in w.specs ==> o + PAGE_SIZE <= size && Passes(w, o, failing))
      && (t.len.Some? ==> forall o :: o in t.active <==> o in w.specs && InFile(w, o))
      && (t.len.None? ==> t.active == map[])
  {
    hide CI.Inv, CI.SameBytes, Activate, InFile, OwnsAll, Passes, CanResume;
    var v := w.(len := Some(size));
    OrderHasSpecs(w, order);
    DetachedIsUnmapped(w);
    Unlimited(w, size);
    if forall o :: o in w.specs ==> o + PAGE_SIZE <= size {
      assert WindowOk(v) by { FitsWindow(w, size); }
      AttachedResumes(v, order, failing);
      var (u, r) := Activate(v, order, failing, []);
      assert Attach(w, size, order, failing) == if r.Ok? then u else u.(len := None);
      assert r.Err? ==> u.active == map[];
      forall o ensures (InFile(v, o) <==> InFile(w, o)) && (Passes(v, o, failing) <==> Passes(w, o, failing)) { }
    } else {
      AttachTooSmall(w, size, order, failing);
    }
  }

  lemma DetachedIsUnmapped(w: Window)
    requires Good(w) && w.len.None?
    ensures w.active == map[] && Unmapped(w)
  {
    forall o ensures o !in w.active { assert EntryOk(w, o); }
    forall key ensures !Mapped(w.cache, w.branch, key) {
      forall m ensures !(m in w.cache.mappings && m.branch == w.branch) { assert Owned(w, m); }
    }
  }

  /** Whether a page passes does not depend on the window's size. */
  lemma Unlimited(w: Window, size: nat)
    ensures var v := w.(len := Some(size));
      && (forall o {:trigger InFile(v, o)} :: InFile(v, o) <==> InFile(w, o))
      && (forall o, failing {:trigger Passes(v, o, failing)} :: Passes(v, o, failing) <==> Passes(w, o, failing))
  {
    var v := w.(len := Some(size));
    forall o ensures InFile(v, o) <==> InFile(w, o) { }
    forall o, failing ensures Passes(v, o, failing) <==> Passes(w, o, failing) {
      SameBlocked(w, v, o);
      assert Ready(v, o, failing) <==> Ready(w, o, failing);
    }
  }

  lemma FitsWindow(w: Window, size: nat)
    requires WindowOk(w) && w.active == map[] && forall o :: o in w.specs ==> o + PAGE_SIZE <= size
    ensures WindowOk(w.(len := Some(size)))
  {
    hide CI.Inv;
    var v := w.(len := Some(size));
    forall o ensures SpecOk(v, o) { assert SpecOk(w, o); }
    forall o ensures EntryOk(v, o) { }
    forall o, p ensures EntriesApart(v, o, p) { }
  }

  lemma AttachedResumes(v: Window, order: seq<nat>, failing: set<nat>)
    requires WindowOk(v) && v.len.Some? && Unmapped(v) && Enumerates(order, v)
    requires forall i :: 0 <= i < |order| ==> order[i] in v.specs
    ensures var (u, r) := Activate(v, order, failing, []);
      && (r.Ok? <==> forall o :: o in v.specs ==> Passes(v, o, failing)) && u.len.Some?
      && (r.Ok? ==> forall o :: o in u.active <==> o in v.specs && InFile(v, o))
      && (r.Err? ==> u.active == map[])
  {
    hide CI.Inv, CI.SameBytes, InFile, Passes, WindowOk;
    ResumesWhen(v, order, failing);
    ResumedPages(v, order, failing);
    forall o | o in v.specs ensures order != [] { assert o in Elements(order); }
    ActivateKeepsLen(v, order, failing, []);
  }

  lemma {:induction false} ActivateKeepsLen(w: Window, offsets: seq<nat>, failing: set<nat>, activated: seq<nat>)
    requires w.len.Some? && forall i :: 0 <= i < |offsets| ==> offsets[i] in w.specs
    ensures Activate(w, offsets, failing, activated).0.len == w.len
    decreases |offsets|
  {
    if offsets != [] {
      var o := offsets[0];
      if o in w.active {
        ActivateKeepsLen(w, offsets[1..], failing, activated);
      } else {
        var (t, r) := ActivateOne(w, o, failing);
        assert t.len == w.len && t.specs == w.specs;
        if r.Ok? {
          ActivateKeepsLen(t, offsets[1..], failing, if r.value then activated + [o] else activated);
        } else {
          RollBackKeepsLen(t, activated);
        }
      }
    }
  }

  lemma {:induction false} RollBackKeepsLen(w: Window, activated: seq<nat>)
    ensures RollBack(w, activated).len == w.len
    decreases |activated|
  {
    if activated != [] {
      var last := |activated| - 1;
      RollBackKeepsLen(RemoveOffset(w, activated[last], false).0, activated[..last]);
    }
  }

  lemma AttachTooSmall(w: Window, size: nat, order: seq<nat>, failing: set<nat>)
    requires WindowOk(w) && w.len.None? && w.active == map[] && Enumerates(order, w)
    requires exists o :: o in w.specs && o + PAGE_SIZE > size
    ensures var t := Attach(w, size, order, failing); t.len.None? && t.active == map[]
  {
    hide CI.Inv, CI.SameBytes, Activate, InFile;
    OrderHasSpecs(w, order);
    var v := w.(len := Some(size));
    forall o ensures EntryOk(v, o) { }
    forall o, p ensures EntriesApart(v, o, p) { }
    forall i | 0 <= i < |order| ensures Aligned(v.specs[order[i]].offset) { assert SpecOk(w, order[i]); }
    ActivateSettles(v, order, failing, []);
    var o :| o in w.specs && o + PAGE_SIZE > size;
    assert o in Elements(order);
    var i :| 0 <= i < |order| && order[i] == o;
    assert !Fits(Activate(v, order, failing, []).0, order[i]);
    assert Activate(v, order, failing, []).1.Err?;
    assert v.active - Elements([]) == map[];
  }

  /** After every run a fork brings the window back exactly under the condition of `ForkResumesWhen`. */
  lemma ForkAfterRun(w: Window, steps: seq<Step>, held: seq<nat>, order: seq<nat>, failing: set<nat>)
    requires Good(w) && LegalRun(w, steps) && Holds(Run(w, steps), held) && Enumerates(order, Run(w, steps))
    ensures var t := Run(w, steps);
      var u := ForkAndResume(t, held, order, failing);
      if CanResumeShared(t, failing) then forall o :: o in u.active <==> o in t.specs && InFile(t, o)
      else u.active == map[]
  {
    RunKeepsWindow(w, steps);
    hide *;
    hide Good;
    ForkOutcome(Run(w, steps), held, order, failing);
  }

  lemma ForkOutcome(t: Window, held: seq<nat>, order: seq<nat>, failing: set<nat>)
    requires Good(t) && Holds(t, held) && Enumerates(order, t)
    ensures var u := ForkAndResume(t, held, order, failing);
      if CanResumeShared(t, failing) then forall o :: o in u.active <==> o in t.specs && InFile(t, o)
      else u.active == map[]
  {
    hide WindowOk, OwnsAll, Suspend, ForkUnder, Resume, CanResumeShared, InFile, FailsAt;
    ForkResumesWhen(t, held, order, failing);
  }
}
