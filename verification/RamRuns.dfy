/**
 Whole runs of guest RAM refine one flat byte array per VM.

 In the specification a fork copies the source's bytes, a write overwrites
 bytes of one VM, and nothing else has an effect.
 */
module RamRuns {
  import opened Basics
  import opened GuestRam
  import opened RamInvariant
  import opened RamForks

  type Memories = map<VmId, seq<Byte>>

  datatype Effect =
    | NoEffect
    | Created(vm: VmId, pages: nat)
    | Wrote(vm: VmId, offset: nat, bytes: seq<Byte>)
    | Forked(source: VmId, child: VmId)
    | Removed(vm: VmId)

  function Apply(m: Memories, e: Effect): Memories {
    match e
    case NoEffect => m
    case Created(vm, n) => m[vm := Zeros(n * PAGE_SIZE)]
    case Wrote(vm, offset, bytes) =>
      if vm in m && offset + |bytes| <= |m[vm]| then m[vm := Splice(m[vm], offset, bytes)] else m
    case Forked(source, child) => if source in m then m[child := m[source]] else m
    case Removed(vm) => m - {vm}
  }

  function ByteAt(w: World, vm: VmId, a: nat): Byte
    requires vm in w.rams && a / PAGE_SIZE < |w.rams[vm].pages|
  {
    var page := Read(w, vm, a / PAGE_SIZE);
    if a % PAGE_SIZE < |page| then page[a % PAGE_SIZE] else 0
  }

  function Memory(w: World, vm: VmId): (m: seq<Byte>)
    requires vm in w.rams
    ensures |m| == |w.rams[vm].pages| * PAGE_SIZE
    ensures forall a :: 0 <= a < |m| ==> a / PAGE_SIZE < |w.rams[vm].pages| && m[a] == ByteAt(w, vm, a)
  {
    seq(|w.rams[vm].pages| * PAGE_SIZE, a requires 0 <= a < |w.rams[vm].pages| * PAGE_SIZE => ByteAt(w, vm, a))
  }

  function View(w: World): Memories {
    map vm | vm in w.rams :: Memory(w, vm)
  }

  datatype Step =
    | DoCreate(vm: VmId, pages: nat)
    | DoRemove(vm: VmId)
    | DoGuestWrite(vm: VmId, offset: nat, bytes: seq<Byte>)
    | DoHostWrite(vm: VmId, offset: nat, bytes: seq<Byte>)
    | DoStart(vm: VmId, order: seq<nat>)
    | DoCopy(vm: VmId, count: nat)
    | DoPause(vm: VmId)
    | DoFinish(vm: VmId, child: VmId, extra: seq<nat>)

  ghost predicate InRange(w: World, vm: VmId, offset: nat, len: nat) {
    vm in w.rams && offset + len <= |w.rams[vm].pages| * PAGE_SIZE
  }

  /**
   What the environment guarantees: VM ids are new; a guest stays in its
   memory and does not run while paused; the host does not write RAM that is
   being forked, and does not drop it; a preparation is finished once.
   */
  ghost predicate Legal(w: World, step: Step) {
    match step
    case DoCreate(vm, n) => vm !in w.rams && vm !in w.forks && 0 < n
    case DoRemove(vm) => vm !in w.forks
    case DoGuestWrite(vm, offset, bytes) =>
      InRange(w, vm, offset, |bytes|) && (vm in w.forks ==> !w.forks[vm].paused)
    case DoHostWrite(vm, offset, bytes) => InRange(w, vm, offset, |bytes|) && vm !in w.forks
    case DoStart(vm, order) =>
      && vm in w.rams && vm !in w.forks && Distinct(order)
      && (order == [] || forall i {:trigger i in order} :: i in order <==> i in w.rams[vm].kvmDirty)
    case DoCopy(vm, n) =>
      vm in w.forks && w.forks[vm].done < |w.forks[vm].order| && 0 < n && w.forks[vm].at + n <= PAGE_SIZE
    case DoPause(vm) => vm in w.forks && w.forks[vm].done == |w.forks[vm].order|
    case DoFinish(vm, child, extra) =>
      && vm in w.forks && vm in w.rams && w.forks[vm].paused && child !in w.rams && child !in w.forks && Distinct(extra)
      && (forall i {:trigger i in extra} :: i in extra <==> i in Dirty(w, vm) && i !in w.forks[vm].order)
  }

  function Next(w: World, step: Step): World {
    match step
    case DoCreate(vm, n) => Create(w, vm, n)
    case DoRemove(vm) => Remove(w, vm)
    case DoGuestWrite(vm, offset, bytes) =>
      if vm in w.rams && offset + |bytes| <= |w.rams[vm].pages| * PAGE_SIZE then GuestWrite(w, vm, offset, bytes) else w
    case DoHostWrite(vm, offset, bytes) =>
      if vm in w.rams && offset + |bytes| <= |w.rams[vm].pages| * PAGE_SIZE then HostWrite(w, vm, offset, bytes) else w
    case DoStart(vm, order) => if vm in w.rams && 0 < |w.rams[vm].pages| then StartFork(w, vm, order) else w
    case DoCopy(vm, n) => if vm in w.forks && w.forks[vm].done < |w.forks[vm].order| then CopyChunk(w, vm, n) else w
    case DoPause(vm) => if vm in w.forks then Pause(w, vm) else w
    case DoFinish(vm, child, extra) =>
      if vm in w.rams && vm in w.forks && w.forks[vm].generation in w.files then FinishFork(w, vm, child, extra) else w
  }

  function EffectOf(step: Step): Effect {
    match step
    case DoCreate(vm, n) => Created(vm, n)
    case DoRemove(vm) => Removed(vm)
    case DoGuestWrite(vm, offset, bytes) => Wrote(vm, offset, bytes)
    case DoHostWrite(vm, offset, bytes) => Wrote(vm, offset, bytes)
    case DoStart(_, _) => NoEffect
    case DoCopy(_, _) => NoEffect
    case DoPause(_) => NoEffect
    case DoFinish(vm, child, _) => Forked(vm, child)
  }

  lemma SameMemory(w: World, v: VmId, t: World, u: VmId)
    requires v in w.rams && u in t.rams && |w.rams[v].pages| == |t.rams[u].pages|
    requires forall i {:trigger Read(t, u, i)} :: 0 <= i < |w.rams[v].pages| ==> Read(t, u, i) == Read(w, v, i)
    ensures Memory(t, u) == Memory(w, v)
  {
    forall a | 0 <= a < |Memory(w, v)| ensures Memory(t, u)[a] == Memory(w, v)[a] {
      assert Read(t, u, a / PAGE_SIZE) == Read(w, v, a / PAGE_SIZE);
    }
  }

  /** A write splices its bytes into the memory of its VM. */
  lemma WriteMemory(w: World, t: World, vm: VmId, offset: nat, bytes: seq<Byte>)
    requires Inv(w) && WriteStep(w, t, vm, offset, bytes)
    ensures View(t) == Apply(View(w), Wrote(vm, offset, bytes))
  {
    forall v | v in w.rams && v != vm ensures Memory(t, v) == Memory(w, v) {
      forall i | 0 <= i < |w.rams[v].pages| ensures Read(t, v, i) == Read(w, v, i) {
        WriteReads(w, t, vm, offset, bytes, v, i);
      }
      SameMemory(w, v, t, v);
    }
    var expected := Splice(Memory(w, vm), offset, bytes);
    forall a | 0 <= a < |expected| ensures Memory(t, vm)[a] == expected[a] {
      WrittenByte(w, t, vm, offset, bytes, a);
    }
    assert Memory(t, vm) == expected;
  }

  lemma WrittenByte(w: World, t: World, vm: VmId, offset: nat, bytes: seq<Byte>, a: nat)
    requires Inv(w) && WriteStep(w, t, vm, offset, bytes) && a / PAGE_SIZE < |w.rams[vm].pages|
    ensures ByteAt(t, vm, a) == if offset <= a < offset + |bytes| then bytes[a - offset] else ByteAt(w, vm, a)
  {
    var i := a / PAGE_SIZE;
    WriteReads(w, t, vm, offset, bytes, vm, i);
    ReadIsPage(w, vm, i);
    assert a == i * PAGE_SIZE + a % PAGE_SIZE;
    if offset <= a < offset + |bytes| {
      assert Touches(i, offset, |bytes|);
    }
  }

  lemma QuietView(w: World, t: World)
    requires t.rams.Keys == w.rams.Keys
    requires forall v {:trigger t.rams[v]} :: v in w.rams ==> |t.rams[v].pages| == |w.rams[v].pages|
    requires forall v, i {:trigger Read(t, v, i)} :: v in w.rams && 0 <= i < |w.rams[v].pages| ==> Read(t, v, i) == Read(w, v, i)
    ensures View(t) == View(w)
  {
    forall v | v in w.rams ensures Memory(t, v) == Memory(w, v) { SameMemory(w, v, t, v); }
  }

  lemma CreateMemory(w: World, vm: VmId, n: nat)
    requires Inv(w) && Legal(w, DoCreate(vm, n))
    ensures View(Create(w, vm, n)) == Apply(View(w), Created(vm, n))
  {
    CreateKeepsInv(w, vm, n);
    var t := Create(w, vm, n);
    forall v | v in w.rams ensures Memory(t, v) == Memory(w, v) {
      assert RamOk(w, v);
      assert Read(t, v, 0) == Read(w, v, 0);
      SameMemory(w, v, t, v);
    }
    CreatedZero(w, vm, n);
  }

  lemma CreatedZero(w: World, vm: VmId, n: nat)
    requires Inv(w) && Legal(w, DoCreate(vm, n))
    ensures Memory(Create(w, vm, n), vm) == Zeros(n * PAGE_SIZE)
  {
    CreateKeepsInv(w, vm, n);
    hide Inv;
    var t := Create(w, vm, n);
    forall a | 0 <= a < n * PAGE_SIZE ensures Memory(t, vm)[a] == 0 {
      assert Read(t, vm, a / PAGE_SIZE) == Zeros(PAGE_SIZE);
    }
  }

  lemma RemoveMemory(w: World, vm: VmId)
    requires Inv(w) && Legal(w, DoRemove(vm))
    ensures View(Remove(w, vm)) == Apply(View(w), Removed(vm))
  {
    RemoveKeepsInv(w, vm);
    var t := Remove(w, vm);
    forall v | v in t.rams ensures Memory(t, v) == Memory(w, v) {
      assert RamOk(t, v);
      assert Read(t, v, 0) == Read(w, v, 0);
      SameMemory(w, v, t, v);
    }
  }

  lemma StartMemory(w: World, vm: VmId, order: seq<nat>)
    requires Inv(w) && Legal(w, DoStart(vm, order)) && CanStart(w, vm, order)
    ensures View(StartFork(w, vm, order)) == View(w)
  {
    var t := StartFork(w, vm, order);
    forall v, i | v in w.rams && 0 <= i < |w.rams[v].pages| ensures Read(t, v, i) == Read(w, v, i) {
      StartReads(w, vm, order, v, i);
    }
    QuietView(w, t);
  }

  lemma CopyMemory(w: World, vm: VmId, n: nat)
    requires CanCopy(w, vm, n)
    ensures View(CopyChunk(w, vm, n)) == View(w)
  {
    var t := CopyChunk(w, vm, n);
    ChunkTarget(w, vm, n);
    forall v, i | v in w.rams && 0 <= i < |w.rams[v].pages| ensures Read(t, v, i) == Read(w, v, i) {
      ChunkReads(w, vm, n, v, i);
    }
    QuietView(w, t);
  }

  lemma FinishMemory(w: World, vm: VmId, child: VmId, extra: seq<nat>)
    requires CanFinish(w, vm, child, extra) && w.forks[vm].generation in w.files
    ensures View(FinishFork(w, vm, child, extra)) == Apply(View(w), Forked(vm, child))
  {
    hide Inv, Memory, FinishedPages, FinishedFile;
    var t := FinishFork(w, vm, child, extra);
    assert t.rams.Keys == w.rams.Keys + {child};
    forall v | v in w.rams ensures Memory(t, v) == Memory(w, v) { OtherMemory(w, vm, child, extra, v); }
    ChildMemory(w, vm, child, extra);
  }

  lemma OtherMemory(w: World, vm: VmId, child: VmId, extra: seq<nat>, v: VmId)
    requires CanFinish(w, vm, child, extra) && w.forks[vm].generation in w.files && v in w.rams
    ensures var t := FinishFork(w, vm, child, extra); v in t.rams && Memory(t, v) == Memory(w, v)
  {
    var t := FinishFork(w, vm, child, extra);
    assert RamOk(w, v);
    FinishReads(w, vm, child, extra, v, 0);
    forall i | 0 <= i < |w.rams[v].pages| ensures Read(t, v, i) == Read(w, v, i) {
      FinishReads(w, vm, child, extra, v, i);
    }
    SameMemory(w, v, t, v);
  }

  lemma ChildMemory(w: World, vm: VmId, child: VmId, extra: seq<nat>)
    requires CanFinish(w, vm, child, extra) && w.forks[vm].generation in w.files
    ensures Memory(FinishFork(w, vm, child, extra), child) == Memory(w, vm)
  {
    var t := FinishFork(w, vm, child, extra);
    assert RamOk(w, vm);
    FinishReads(w, vm, child, extra, vm, 0);
    forall i | 0 <= i < |w.rams[vm].pages| ensures Read(t, child, i) == Read(w, vm, i) {
      FinishReads(w, vm, child, extra, vm, i);
    }
    SameMemory(w, vm, t, child);
  }

  /** Every step keeps the invariant and has exactly its specified effect on every VM's memory. */
  lemma StepRefines(w: World, step: Step)
    requires Inv(w) && Legal(w, step)
    ensures Inv(Next(w, step))
    ensures View(Next(w, step)) == Apply(View(w), EffectOf(step))
  {
    match step
    case DoCreate(vm, n) => CreateKeepsInv(w, vm, n); CreateMemory(w, vm, n);
    case DoRemove(vm) => RemoveKeepsInv(w, vm); RemoveMemory(w, vm);
    case DoGuestWrite(vm, offset, bytes) =>
      WriteKeepsInv(w, GuestWrite(w, vm, offset, bytes), vm, offset, bytes);
      WriteMemory(w, GuestWrite(w, vm, offset, bytes), vm, offset, bytes);
    case DoHostWrite(vm, offset, bytes) =>
      WriteKeepsInv(w, HostWrite(w, vm, offset, bytes), vm, offset, bytes);
      WriteMemory(w, HostWrite(w, vm, offset, bytes), vm, offset, bytes);
    case DoStart(vm, order) =>
      assert RamOk(w, vm);
      StartKeepsInv(w, vm, order);
      StartMemory(w, vm, order);
    case DoCopy(vm, n) => CopyKeepsInv(w, vm, n); CopyMemory(w, vm, n);
    case DoPause(vm) => PauseKeepsInv(w, vm); QuietView(w, Pause(w, vm));
    case DoFinish(vm, child, extra) => FinishKeepsInv(w, vm, child, extra); FinishMemory(w, vm, child, extra);
  }

  // ---------------------------------------------------------------------
  // Runs
  // ---------------------------------------------------------------------

  ghost predicate LegalRun(w: World, steps: seq<Step>)
    decreases |steps|
  {
    steps == [] || (Legal(w, steps[0]) && LegalRun(Next(w, steps[0]), steps[1..]))
  }

  function Run(w: World, steps: seq<Step>): World
    decreases |steps|
  {
    if steps == [] then w else Run(Next(w, steps[0]), steps[1..])
  }

  function SpecRun(m: Memories, steps: seq<Step>): Memories
    decreases |steps|
  {
    if steps == [] then m else SpecRun(Apply(m, EffectOf(steps[0])), steps[1..])
  }

  /** After any interleaving every VM's RAM is what its own flat byte array holds. */
  lemma {:induction false} RunRefines(w: World, steps: seq<Step>)
    requires Inv(w) && LegalRun(w, steps)
    ensures Inv(Run(w, steps))
    ensures View(Run(w, steps)) == SpecRun(View(w), steps)
    decreases |steps|
  {
    if steps != [] {
      StepRefines(w, steps[0]);
      RunRefines(Next(w, steps[0]), steps[1..]);
    }
  }

  lemma EmptyInv()
    ensures Inv(World(map[], 1, 1, map[], map[]))
  {
  }

  // ---------------------------------------------------------------------
  // The fork point
  // ---------------------------------------------------------------------

  ghost predicate Paused(w: World, vm: VmId) {
    vm in w.rams && vm in w.forks && w.forks[vm].paused
  }

  ghost predicate FinishesNot(step: Step, vm: VmId) {
    step.DoFinish? ==> step.vm != vm
  }

  lemma PausedStep(w: World, step: Step, vm: VmId)
    requires Inv(w) && Legal(w, step) && Paused(w, vm) && FinishesNot(step, vm)
    ensures Inv(Next(w, step)) && Paused(Next(w, step), vm)
    ensures View(Next(w, step))[vm] == View(w)[vm]
  {
    StepRefines(w, step);
    assert ForkOk(w, vm);
    PausedStays(w, step, vm);
    hide Next, Inv, View;
  }

  lemma PausedStays(w: World, step: Step, vm: VmId)
    requires Inv(w) && Legal(w, step) && Paused(w, vm) && FinishesNot(step, vm)
    ensures Paused(Next(w, step), vm) && vm in View(w)
    ensures Apply(View(w), EffectOf(step)).Keys >= {vm} && Apply(View(w), EffectOf(step))[vm] == View(w)[vm]
  {
    hide Memory, GuestRam.Read;
    assert ForkOk(w, vm);
  }

  /** Between the pause and the finish the source's memory stands still, whatever the other VMs do. */
  lemma {:induction false} PausedRun(w: World, steps: seq<Step>, vm: VmId)
    requires Inv(w) && LegalRun(w, steps) && Paused(w, vm)
    requires forall i {:trigger FinishesNot(steps[i], vm)} :: 0 <= i < |steps| ==> FinishesNot(steps[i], vm)
    ensures Inv(Run(w, steps)) && Paused(Run(w, steps), vm)
    ensures View(Run(w, steps))[vm] == View(w)[vm]
    decreases |steps|
  {
    if steps != [] {
      assert FinishesNot(steps[0], vm);
      PausedStep(w, steps[0], vm);
      var rest := steps[1..];
      forall i {:trigger FinishesNot(rest[i], vm)} | 0 <= i < |rest| ensures FinishesNot(rest[i], vm) {
        assert FinishesNot(steps[i + 1], vm);
      }
      PausedRun(Next(w, steps[0]), rest, vm);
    }
  }

  /**
   The pre-copy fork is exact: whatever was written while pages were being
   copied, source and child come out with the memory the source had at the
   instant it was paused.
   */
  lemma ForkPointIsThePause(w: World, vm: VmId, steps: seq<Step>, child: VmId, extra: seq<nat>)
    requires Inv(w) && Legal(w, DoPause(vm)) && LegalRun(Pause(w, vm), steps)
    requires forall i {:trigger FinishesNot(steps[i], vm)} :: 0 <= i < |steps| ==> FinishesNot(steps[i], vm)
    requires Legal(Run(Pause(w, vm), steps), DoFinish(vm, child, extra))
    ensures var t := Next(Run(Pause(w, vm), steps), DoFinish(vm, child, extra));
      vm in View(t) && child in View(t) && vm in View(w)
      && View(t)[vm] == View(w)[vm] && View(t)[child] == View(w)[vm]
  {
    PausePauses(w, vm);
    PausedRun(Pause(w, vm), steps, vm);
    FinishCopies(Run(Pause(w, vm), steps), vm, child, extra);
  }

  lemma PausePauses(w: World, vm: VmId)
    requires Inv(w) && Legal(w, DoPause(vm))
    ensures Inv(Pause(w, vm)) && Paused(Pause(w, vm), vm) && vm in w.rams && View(Pause(w, vm))[vm] == View(w)[vm]
  {
    assert ForkOk(w, vm);
    StepRefines(w, DoPause(vm));
  }

  lemma FinishCopies(w: World, vm: VmId, child: VmId, extra: seq<nat>)
    requires Inv(w) && Legal(w, DoFinish(vm, child, extra))
    ensures var t := Next(w, DoFinish(vm, child, extra));
      vm in View(t) && child in View(t) && View(t)[vm] == View(w)[vm] && View(t)[child] == View(w)[vm]
  {
    assert ForkOk(w, vm);
    StepRefines(w, DoFinish(vm, child, extra));
  }

  // ---------------------------------------------------------------------
  // Sealed generations
  // ---------------------------------------------------------------------

  ghost predicate Frozen(w: World, g: GenId) {
    g in w.files && forall vm {:trigger Writable(w, vm, g)} :: !Writable(w, vm, g)
  }

  /** Generations of sealed RAM, and generations two VMs refer to, are frozen. */
  lemma SealedIsFrozen(w: World, vm: VmId, i: nat)
    requires Inv(w) && vm in w.rams && i < |w.rams[vm].pages|
    requires w.rams[vm].sealed
          || exists o, j {:trigger w.rams[o].pages[j]} :: o in w.rams && o != vm && 0 <= j < |w.rams[o].pages|
               && w.rams[o].pages[j].generation == w.rams[vm].pages[i].generation
    ensures Frozen(w, w.rams[vm].pages[i].generation)
  {
    var g := w.rams[vm].pages[i].generation;
    assert PageOk(w, vm, i);
    forall v ensures !Writable(w, v, g) {
      assert PrivateOk(w, v, vm, i);
      if !w.rams[vm].sealed {
        var o, j :| o in w.rams && o != vm && 0 <= j < |w.rams[o].pages| && w.rams[o].pages[j].generation == g;
        assert PrivateOk(w, v, o, j);
      }
    }
  }

  /** A frozen generation stays frozen, and its bytes never change again. */
  lemma FrozenStep(w: World, step: Step, g: GenId)
    requires Inv(w) && Legal(w, step) && Frozen(w, g)
    ensures Frozen(Next(w, step), g) && Next(w, step).files[g] == w.files[g]
    ensures w.nextGen <= Next(w, step).nextGen && w.nextPage <= Next(w, step).nextPage
  {
    assert FileOk(w, g);
    match step
    case DoCopy(vm, n) => FrozenCopy(w, vm, n, g);
    case DoFinish(vm, child, extra) => FrozenFinish(w, vm, child, extra, g);
    case _ => FrozenOther(w, step, g);
  }

  lemma FrozenCopy(w: World, vm: VmId, n: nat, g: GenId)
    requires Inv(w) && Legal(w, DoCopy(vm, n)) && Frozen(w, g)
    ensures var t := Next(w, DoCopy(vm, n));
      Frozen(t, g) && t.files[g] == w.files[g] && w.nextGen <= t.nextGen && w.nextPage <= t.nextPage
  {
    var t := Next(w, DoCopy(vm, n));
    ChunkTarget(w, vm, n);
    assert !Writable(w, vm, g);
    forall v ensures !Writable(t, v, g) { assert !Writable(w, v, g); }
  }

  lemma FrozenFinish(w: World, vm: VmId, child: VmId, extra: seq<nat>, g: GenId)
    requires Inv(w) && Legal(w, DoFinish(vm, child, extra)) && Frozen(w, g)
    ensures var t := Next(w, DoFinish(vm, child, extra));
      Frozen(t, g) && t.files[g] == w.files[g] && w.nextGen <= t.nextGen && w.nextPage <= t.nextPage
  {
    hide FinishedFile, FinishedPages;
    var t := Next(w, DoFinish(vm, child, extra));
    assert ForkOk(w, vm) && !Writable(w, vm, g);
    forall v ensures !Writable(t, v, g) { assert !Writable(w, v, g); }
  }

  lemma FrozenOther(w: World, step: Step, g: GenId)
    requires Legal(w, step) && Frozen(w, g) && FileOk(w, g) && !step.DoCopy? && !step.DoFinish?
    ensures var t := Next(w, step);
      Frozen(t, g) && t.files[g] == w.files[g] && w.nextGen <= t.nextGen && w.nextPage <= t.nextPage
  {
    hide WriteOverlay, TouchedPages;
    var t := Next(w, step);
    forall v ensures !Writable(t, v, g) { assert !Writable(w, v, g); }
  }

  lemma {:induction false} FrozenRun(w: World, steps: seq<Step>, g: GenId)
    requires Inv(w) && LegalRun(w, steps) && Frozen(w, g)
    ensures Frozen(Run(w, steps), g) && Run(w, steps).files[g] == w.files[g]
    decreases |steps|
  {
    if steps != [] {
      StepRefines(w, steps[0]);
      FrozenStep(w, steps[0], g);
      FrozenRun(Next(w, steps[0]), steps[1..], g);
    }
  }

  // ---------------------------------------------------------------------
  // Page references
  // ---------------------------------------------------------------------

  /** After any run every reference is in range, and two references are one page or lie apart. */
  lemma ReferencesAreApart(w: World, steps: seq<Step>, vm: VmId, i: nat, other: VmId, j: nat)
    requires Inv(w) && LegalRun(w, steps)
    requires var t := Run(w, steps);
      vm in t.rams && other in t.rams && i < |t.rams[vm].pages| && j < |t.rams[other].pages|
    ensures var t := Run(w, steps);
      var p, q := t.rams[vm].pages[i], t.rams[other].pages[j];
      && p.generation in t.files && (p.slot + 1) * PAGE_SIZE <= |t.files[p.generation]| * PAGE_SIZE
      && (p.id == q.id <==> p.generation == q.generation && p.slot == q.slot)
      && (p.id != q.id && p.generation == q.generation ==>
            p.slot * PAGE_SIZE + PAGE_SIZE <= q.slot * PAGE_SIZE || q.slot * PAGE_SIZE + PAGE_SIZE <= p.slot * PAGE_SIZE)
  {
    RunRefines(w, steps);
    var t := Run(w, steps);
    assert PageOk(t, vm, i) && IdOk(t, vm, i, other, j);
  }
}
