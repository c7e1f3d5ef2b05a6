/** Page accounting of the fork forest over whole runs. */
module ForestCounts {
  import opened Basics
  import opened PageBranches
  import opened ForestRuns
  import opened ForestObject
  import FA = ForestAccounting
  import G = Generations

  /** In both address spaces a private page is held nowhere else and ids are below the next one. */
  ghost predicate Counted(f: Forest) {
    FA.Inv(SpaceOf(f.vms, Memory), f.nextPage) && FA.Inv(SpaceOf(f.vms, Files), f.nextPage)
  }

  // ---------------------------------------------------------------------
  // What each step does to one address space
  // ---------------------------------------------------------------------

  lemma SpaceAfterFork(f: Forest, source: VmId, space: Space)
    requires source in f.vms
    ensures SpaceOf(Fork(f, source).vms, space) == FA.ForkSpace(SpaceOf(f.vms, space), source, f.nextVm)
  {
  }

  lemma SpaceAfterCreate(f: Forest, space: Space)
    ensures SpaceOf(Create(f).vms, space) == SpaceOf(f.vms, space)[f.nextVm := G.EmptyBranch()]
  {
  }

  lemma SpaceAfterWrite(f: Forest, vm: VmId, space: Space, w: Written, other: Space)
    requires vm in f.vms
    ensures SpaceOf(Store(f, vm, space, w).vms, other)
         == if other == space then SpaceOf(f.vms, space)[vm := w.branch] else SpaceOf(f.vms, other)
  {
  }

  /** A VM with nothing written holds nothing. */
  lemma EmptyKeepsInv(space: FA.Space, nextPage: nat, vm: VmId)
    requires FA.Inv(space, nextPage) && vm !in space
    ensures FA.Inv(space[vm := G.EmptyBranch()], nextPage)
  {
    var t := space[vm := G.EmptyBranch()];
    assert FA.RetainedIds(t[vm]) == {};
    hide FA.RetainedIds;
    forall v, key ensures FA.PageOk(t, nextPage, v, key) { assert FA.PageOk(space, nextPage, v, key); }
    forall v, key, other ensures FA.PagesApart(t, v, key, other) { assert FA.PagesApart(space, v, key, other); }
    forall v, key, other ensures FA.VmsApart(t, v, key, other) { assert FA.VmsApart(space, v, key, other); }
    forall v ensures FA.IdsBelow(t, nextPage, v) { assert FA.IdsBelow(space, nextPage, v); }
  }

  lemma FewerKeepInv(space: FA.Space, nextPage: nat, vm: VmId)
    requires FA.Inv(space, nextPage)
    ensures FA.Inv(space - {vm}, nextPage)
  {
    var t := space - {vm};
    forall v, key ensures FA.PageOk(t, nextPage, v, key) { assert FA.PageOk(space, nextPage, v, key); }
    forall v, key, other ensures FA.PagesApart(t, v, key, other) { assert FA.PagesApart(space, v, key, other); }
    forall v, key, other ensures FA.VmsApart(t, v, key, other) { assert FA.VmsApart(space, v, key, other); }
    forall v ensures FA.IdsBelow(t, nextPage, v) { assert FA.IdsBelow(space, nextPage, v); }
  }

  /** Ids taken by the other space leave this one as it is. */
  lemma LaterIdsKeepInv(space: FA.Space, nextPage: nat, later: nat)
    requires FA.Inv(space, nextPage) && nextPage <= later
    ensures FA.Inv(space, later)
  {
    forall v, key ensures FA.PageOk(space, later, v, key) { assert FA.PageOk(space, nextPage, v, key); }
    forall v ensures FA.IdsBelow(space, later, v) { assert FA.IdsBelow(space, nextPage, v); }
  }

  lemma StepKeepsCounted(f: Forest, step: Step)
    requires Valid(f) && Counted(f) && Legal(f, step)
    ensures Counted(Next(f, step))
  {
    hide FA.Inv, Sized, Write, PagesTouched;
    forall space: Space ensures FA.Inv(SpaceOf(Next(f, step).vms, space), Next(f, step).nextPage) {
      assert FA.Inv(SpaceOf(f.vms, space), f.nextPage) by { assert space == Memory || space == Files; }
      match step
      case DoCreate(vm) =>
        SpaceAfterCreate(f, space);
        EmptyKeepsInv(SpaceOf(f.vms, space), f.nextPage, f.nextVm);
      case DoFork(source, child) =>
        SpaceAfterFork(f, source, space);
        FA.ForkKeepsInv(SpaceOf(f.vms, space), f.nextPage, source, f.nextVm);
      case DoRemove(vm) =>
        assert SpaceOf(Remove(f, vm).vms, space) == SpaceOf(f.vms, space) - {vm};
        FewerKeepInv(SpaceOf(f.vms, space), f.nextPage, vm);
      case DoWrite(vm, s, path, offset, bytes) =>
        var w := Write(Branch(f.vms[vm], s), f.nextPage, path, offset, bytes);
        SpaceAfterWrite(f, vm, s, w, space);
        if space == s {
          FA.WriteConserves(SpaceOf(f.vms, s), f.nextPage, vm, path, offset, bytes);
        } else {
          WrittenCount(Branch(f.vms[vm], s), f.nextPage, path, offset, bytes);
          LaterIdsKeepInv(SpaceOf(f.vms, space), f.nextPage, w.nextPage);
        }
    }
  }

  /** Page ids stay unique and below the counter over every run. */
  lemma {:induction false} RunIsCounted(steps: seq<Step>)
    requires LegalRun(steps)
    ensures Counted(Run(steps))
    decreases |steps|
  {
    if steps == [] {
      assert SpaceOf(EMPTY.vms, Memory) == map[] && SpaceOf(EMPTY.vms, Files) == map[];
    } else {
      hide Legal, Next, Valid, Counted;
      var before := steps[..|steps| - 1];
      RunIsValid(before);
      RunIsCounted(before);
      StepKeepsCounted(Run(before), steps[|steps| - 1]);
    }
  }

  // ---------------------------------------------------------------------
  // Conservation
  // ---------------------------------------------------------------------

  /** After any run, a fork holds exactly the pages held before and adds to the shared ones what the source sees. */
  lemma ForkAccount(steps: seq<Step>, source: VmId, space: Space)
    requires LegalRun(steps) && source in Run(steps).vms
    ensures var before := SpaceOf(Run(steps).vms, space);
      var after := SpaceOf(Fork(Run(steps), source).vms, space);
      && FA.Resident(after) == FA.Resident(before)
      && SharedIds(after) == SharedIds(before) + FA.VisibleIds(before[source])
  {
    var f := Run(steps);
    RunIsValid(steps);
    RunIsCounted(steps);
    SpaceAfterFork(f, source, space);
    var before, after := SpaceOf(f.vms, space), SpaceOf(Fork(f, source).vms, space);
    FA.ForkConserves(before, f.nextPage, source, f.nextVm);
    hide FA.VisibleIds, FA.Inv, FA.Resident, FA.ForkSpace;
    forall id ensures id in SharedIds(after) <==> id in SharedIds(before) + FA.VisibleIds(before[source]) {
      SharedIffSeen(after, id);
      SharedIffSeen(before, id);
    }
  }

  lemma SharedIffSeen(space: FA.Space, id: nat)
    ensures id in SharedIds(space) <==> FA.IsShared(space, id)
  {
    hide FA.VisibleIds;
    if FA.IsShared(space, id) {
      var a, b :| FA.SharedBy(space, id, a, b);
      assert a in space && id in FA.VisibleIds(space[a]);
    }
  }

  /** After any run, a write raises the pages held by exactly those it reaches that were not private, and shares no more. */
  lemma WriteAccount(steps: seq<Step>, vm: VmId, space: Space, path: string, offset: nat, bytes: seq<Byte>)
    requires LegalRun(steps) && vm in Run(steps).vms
    ensures var f := Run(steps);
      && Sized(Branch(f.vms[vm], space))
      && var w := Write(Branch(f.vms[vm], space), f.nextPage, path, offset, bytes);
         var before, after := SpaceOf(f.vms, space), SpaceOf(Store(f, vm, space, w).vms, space);
         && FA.PagesHeld(after) == FA.PagesHeld(before) + FA.PagesNotPrivate(Branch(f.vms[vm], space), path, offset, w.done)
         && SharedIds(after) <= SharedIds(before)
  {
    var f := Run(steps);
    RunIsValid(steps);
    RunIsCounted(steps);
    var w := Write(Branch(f.vms[vm], space), f.nextPage, path, offset, bytes);
    SpaceAfterWrite(f, vm, space, w, space);
    var before, after := SpaceOf(f.vms, space), SpaceOf(Store(f, vm, space, w).vms, space);
    hide FA.Inv, FA.PagesHeld, FA.PagesNotPrivate, Write, FA.IsShared, SharedIds;
    FA.WriteConserves(before, f.nextPage, vm, path, offset, bytes);
    forall id | id in SharedIds(after) ensures id in SharedIds(before) {
      SharedIffSeen(after, id);
      SharedIffSeen(before, id);
      FA.WriteSharesNoMore(before, f.nextPage, vm, path, offset, bytes, id);
    }
  }
}
