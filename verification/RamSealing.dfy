/** Sealing every VM for a checkpoint, and checkpoints of any run from start-up. */
module RamSealing {
  import opened Basics
  import opened GuestRam
  import opened RamInvariant
  import opened RamForks
  import opened RamRuns
  import opened RamCheckpoint

  /** A list of what is dirty in one VM. */
  ghost predicate ListsDirty(w: World, vm: VmId, extra: seq<nat>) {
    vm in w.rams && Distinct(extra) && forall i {:trigger i in extra} :: i in extra <==> i in Dirty(w, vm)
  }

  /** A fork under pause whose child is dropped: what it leaves is the sealed VM. */
  function SealVm(w: World, vm: VmId, child: VmId, extra: seq<nat>): World {
    Next(Next(Next(Next(w, DoStart(vm, [])), DoPause(vm)), DoFinish(vm, child, extra)), DoRemove(child))
  }

  ghost predicate CanSeal(w: World, vm: VmId, child: VmId, extra: seq<nat>) {
    Inv(w) && w.forks == map[] && child !in w.rams && ListsDirty(w, vm, extra)
  }

  /** The VM with its dirty log taken and nothing copied yet. */
  lemma StartedEmpty(w: World, vm: VmId, child: VmId, extra: seq<nat>)
    requires CanSeal(w, vm, child, extra)
    ensures var u := Next(Next(w, DoStart(vm, [])), DoPause(vm));
      && Inv(u) && View(u) == View(w) && Legal(u, DoFinish(vm, child, extra))
      && u.rams == w.rams && u.forks.Keys == {vm} && u.forks[vm].order == []
  {
    assert RamOk(w, vm);
    var s := Next(w, DoStart(vm, []));
    StepRefines(w, DoStart(vm, []));
    assert w.rams[vm].kvmDirty - (set i | i in []) == w.rams[vm].kvmDirty;
    assert w.rams[vm := w.rams[vm]] == w.rams;
    assert s.rams == w.rams && s.forks.Keys == {vm} && s.forks[vm].order == [];
    StepRefines(s, DoPause(vm));
  }

  /** Sealing leaves the VM without private pages and changes no memory and no other VM. */
  lemma SealKeepsMemory(w: World, vm: VmId, child: VmId, extra: seq<nat>)
    requires CanSeal(w, vm, child, extra)
    ensures var t := SealVm(w, vm, child, extra);
      && Inv(t) && View(t) == View(w) && t.forks == map[] && t.rams.Keys == w.rams.Keys
      && t.rams[vm].sealed && t.rams[vm].overlay == map[]
      && forall v :: v in w.rams && v != vm ==> t.rams[v] == w.rams[v]
  {
    var u := Next(Next(w, DoStart(vm, [])), DoPause(vm));
    StartedEmpty(w, vm, child, extra);
    SameVms(w);
    hide CanSeal, Legal, Inv, View, StartFork, FinishFork, Pause;
    var f := Next(u, DoFinish(vm, child, extra));
    FinishedClean(u, vm, child, extra);
    assert Legal(f, DoRemove(child)) by { Unforked(f, child); }
    StepRefines(u, DoFinish(vm, child, extra));
    StepRefines(f, DoRemove(child));
    ForkedAndRemoved(View(w), vm, child);
  }

  lemma SameVms(w: World)
    ensures View(w).Keys == w.rams.Keys
  {
  }

  lemma Unforked(w: World, vm: VmId)
    requires vm !in w.forks
    ensures Legal(w, DoRemove(vm))
  {
  }

  lemma ForkedAndRemoved(m: Memories, vm: VmId, child: VmId)
    requires vm in m && child !in m
    ensures Apply(Apply(m, Forked(vm, child)), Removed(child)) == m
  {
  }

  lemma FinishedClean(u: World, vm: VmId, child: VmId, extra: seq<nat>)
    requires Inv(u) && Legal(u, DoFinish(vm, child, extra)) && u.forks.Keys == {vm} && u.forks[vm].order == []
    ensures var f := Next(u, DoFinish(vm, child, extra));
      && f.forks == map[] && f.rams.Keys == u.rams.Keys + {child}
      && f.rams[vm].sealed && f.rams[vm].overlay == map[]
      && forall v :: v in u.rams && v != vm ==> f.rams[v] == u.rams[v]
  {
    assert ForkOk(u, vm);
    var f := Next(u, DoFinish(vm, child, extra));
    forall i ensures i !in f.rams[vm].overlay { assert OverlayOk(u, vm, i); }
  }

  // ---------------------------------------------------------------------
  // All VMs, one after the other
  // ---------------------------------------------------------------------

  datatype Sealing = Sealing(vm: VmId, extra: seq<nat>)

  function SealAll(w: World, seals: seq<Sealing>, child: VmId): World
    decreases |seals|
  {
    if seals == [] then w else SealAll(SealVm(w, seals[0].vm, child, seals[0].extra), seals[1..], child)
  }

  ghost predicate CanSealAll(w: World, seals: seq<Sealing>, child: VmId)
    decreases |seals|
  {
    seals == [] ||
    (CanSeal(w, seals[0].vm, child, seals[0].extra)
      && CanSealAll(SealVm(w, seals[0].vm, child, seals[0].extra), seals[1..], child))
  }

  ghost predicate IsSealed(w: World, vm: VmId) {
    vm in w.rams && w.rams[vm].sealed && w.rams[vm].overlay == map[]
  }

  ghost predicate SealedOrListed(w: World, seals: seq<Sealing>, vm: VmId) {
    vm in w.rams ==> IsSealed(w, vm) || exists i :: 0 <= i < |seals| && seals[i].vm == vm
  }

  lemma {:induction false} SealAllSeals(w: World, seals: seq<Sealing>, child: VmId)
    requires Inv(w) && w.forks == map[] && CanSealAll(w, seals, child)
    requires forall vm {:trigger SealedOrListed(w, seals, vm)} :: SealedOrListed(w, seals, vm)
    ensures var t := SealAll(w, seals, child);
      Inv(t) && View(t) == View(w) && Quiescent(t)
    decreases |seals|
  {
    hide Inv, View, SealVm, ListsDirty;
    if seals == [] {
      forall vm | vm in w.rams ensures IsSealed(w, vm) { assert SealedOrListed(w, seals, vm); }
    } else {
      var s, rest := seals[0], seals[1..];
      var t := SealVm(w, s.vm, child, s.extra);
      SealKeepsMemory(w, s.vm, child, s.extra);
      forall vm ensures SealedOrListed(t, rest, vm) {
        assert SealedOrListed(w, seals, vm);
        if vm in t.rams && !IsSealed(t, vm) {
          var i :| 0 <= i < |seals| && seals[i].vm == vm;
          assert i > 0 && rest[i - 1].vm == vm;
        }
      }
      SealAllSeals(t, rest, child);
    }
  }

  /** Every VM is listed. */
  ghost predicate ListsAll(w: World, seals: seq<Sealing>) {
    forall vm :: vm in w.rams ==> exists i :: 0 <= i < |seals| && seals[i].vm == vm
  }

  /** Sealing every VM makes the moment a checkpoint needs, and changes no byte. */
  lemma SealingIsQuiescent(w: World, seals: seq<Sealing>, child: VmId)
    requires Inv(w) && w.forks == map[] && CanSealAll(w, seals, child) && ListsAll(w, seals)
    ensures var t := SealAll(w, seals, child);
      Inv(t) && View(t) == View(w) && Quiescent(t)
  {
    hide Inv, View, CanSealAll, SealAll;
    SealAllSeals(w, seals, child);
  }

  // ---------------------------------------------------------------------
  // From start-up
  // ---------------------------------------------------------------------

  const EMPTY: Durable := Durable(World(map[], 1, 1, map[], map[]), map[], [])

  lemma EmptyIsDurable()
    ensures DurableInv(EMPTY)
  {
    forall vm, other, g ensures OneWriterOk(EMPTY.world, vm, other, g) { }
  }

  /** Sealing is made of ordinary steps, so it keeps everything on disk. */
  lemma SealKeepsDurable(d: Durable, vm: VmId, child: VmId, extra: seq<nat>)
    requires DurableInv(d) && CanSeal(d.world, vm, child, extra)
    ensures DurableInv(d.(world := SealVm(d.world, vm, child, extra)))
  {
    var w := d.world;
    var s := Next(w, DoStart(vm, []));
    var u := Next(s, DoPause(vm));
    var f := Next(u, DoFinish(vm, child, extra));
    StartedEmpty(w, vm, child, extra);
    assert Legal(w, DoStart(vm, [])) && Legal(s, DoPause(vm));
    assert RamOk(w, vm);
    hide DurableInv;
    LiveKeepsInv(d, DoStart(vm, []));
    LiveKeepsInv(d.(world := s), DoPause(vm));
    FinishedClean(u, vm, child, extra);
    LiveKeepsInv(d.(world := u), DoFinish(vm, child, extra));
    LiveKeepsInv(d.(world := f), DoRemove(child));
  }

  lemma {:induction false} SealAllKeepsDurable(d: Durable, seals: seq<Sealing>, child: VmId)
    requires DurableInv(d) && CanSealAll(d.world, seals, child)
    ensures DurableInv(d.(world := SealAll(d.world, seals, child)))
    decreases |seals|
  {
    hide DurableInv, CanSeal, SealVm;
    if seals != [] {
      var t := d.(world := SealVm(d.world, seals[0].vm, child, seals[0].extra));
      SealKeepsDurable(d, seals[0].vm, child, seals[0].extra);
      SealAllKeepsDurable(t, seals[1..], child);
      assert t.(world := SealAll(t.world, seals[1..], child)) == d.(world := SealAll(d.world, seals, child));
    } else {
      assert d.(world := d.world) == d;
    }
  }

  /**
   From start-up, after any run, with every VM sealed and a checkpoint taken:
   whatever happens later, crashes and restarts included, the checkpoint
   restores the memories of all VMs as they were before the sealing.
   */
  lemma CheckpointOfAnyRun(steps: seq<DurableStep>, seals: seq<Sealing>, child: VmId,
                           later: seq<DurableStep>, nextGen: nat, nextPage: nat)
    requires DurableRunLegal(EMPTY, steps)
    requires var d := DurableRun(EMPTY, steps);
      d.world.forks == map[] && CanSealAll(d.world, seals, child) && ListsAll(d.world, seals)
    requires var d := DurableRun(EMPTY, steps);
      var taken := Checkpoint(d.(world := SealAll(d.world, seals, child)));
      && DurableRunLegal(taken, later)
      && DurableLegal(DurableRun(taken, later), CrashAndRestart(|d.log|, nextGen, nextPage))
    ensures var d := DurableRun(EMPTY, steps);
      var taken := Checkpoint(d.(world := SealAll(d.world, seals, child)));
      View(Restart(DurableRun(taken, later), |d.log|, nextGen, nextPage).world) == View(d.world)
  {
    EmptyIsDurable();
    DurableRunKeepsInv(EMPTY, steps);
    var d := DurableRun(EMPTY, steps);
    WorldInv(d);
    hide *;
    var s := d.(world := SealAll(d.world, seals, child));
    SealAllKeepsDurable(d, seals, child);
    SealingIsQuiescent(d.world, seals, child);
    CheckpointsSurvive(s, later, nextGen, nextPage);
  }

  lemma WorldInv(d: Durable)
    requires DurableInv(d)
    ensures Inv(d.world)
  {
  }
}
