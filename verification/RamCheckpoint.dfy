/**
 Checkpoints of guest RAM, over runs that include crashes and restarts.

 A checkpoint copies every generation not yet on disk under its id, and
 records the page references of every VM. A restart forgets the process and
 rebuilds the VMs of one recorded checkpoint from the generation files.
 */
module RamCheckpoint {
  import opened Basics
  import opened GuestRam
  import opened RamInvariant
  import opened RamForks
  import opened RamRuns

  /** One recorded checkpoint, and the memory it stands for. */
  datatype Saved = Saved(vms: map<VmId, seq<RamPage>>, image: Memories)

  datatype Durable = Durable(world: World, disk: map<GenId, seq<Page>>, log: seq<Saved>)

  /** The bytes a list of page references denotes, read from generation files. */
  function BytesOf(files: map<GenId, seq<Page>>, pages: seq<RamPage>): (m: seq<Byte>)
    ensures |m| == |pages| * PAGE_SIZE
  {
    seq(|pages| * PAGE_SIZE, a requires 0 <= a < |pages| * PAGE_SIZE =>
      var page := PageAt(files, pages[a / PAGE_SIZE]);
      if a % PAGE_SIZE < |page| then page[a % PAGE_SIZE] else 0)
  }

  function Generations(w: World): set<GenId> {
    set vm, i | vm in w.rams && 0 <= i < |w.rams[vm].pages| :: w.rams[vm].pages[i].generation
  }

  /** Every VM sealed with nothing written since, as a checkpoint leaves it under its barrier. */
  ghost predicate Quiescent(w: World) {
    w.forks == map[] && forall vm {:trigger w.rams[vm]} :: vm in w.rams ==> w.rams[vm].sealed && w.rams[vm].overlay == map[]
  }

  function Checkpoint(d: Durable): Durable {
    var w := d.world;
    var missing := map g | g in Generations(w) && g !in d.disk && g in w.files :: w.files[g];
    d.(disk := d.disk + missing, log := d.log + [Saved(map vm | vm in w.rams :: w.rams[vm].pages, View(w))])
  }

  /**
   One generation copied to disk if it is not there yet. A checkpoint that is
   cut short by a crash has done this for some generations and recorded nothing.
   */
  function PersistOne(d: Durable, g: GenId): Durable {
    if g in d.disk || g !in d.world.files then d else d.(disk := d.disk[g := d.world.files[g]])
  }

  /** The VMs of a recorded checkpoint over the generation files, with counters past everything on disk. */
  function Restart(d: Durable, k: nat, nextGen: nat, nextPage: nat): Durable
    requires k < |d.log|
  {
    d.(world := World(d.disk, nextGen, nextPage,
                      map vm | vm in d.log[k].vms :: Ram(d.log[k].vms[vm], map[], {}, {}, true), map[]))
  }

  // ---------------------------------------------------------------------
  // Invariant
  // ---------------------------------------------------------------------

  /** A generation on disk is sealed, and the live one of the same id is the same. */
  ghost predicate DiskOk(d: Durable, g: GenId) {
    g in d.disk ==>
      && g < d.world.nextGen
      && (g in d.world.files ==> Frozen(d.world, g) && d.world.files[g] == d.disk[g])
  }

  ghost predicate SavedPageOk(d: Durable, k: nat, vm: VmId, i: nat) {
    k < |d.log| && vm in d.log[k].vms && i < |d.log[k].vms[vm]| ==>
      var p := d.log[k].vms[vm][i];
      p.generation in d.disk && p.slot < |d.disk[p.generation]| && |d.disk[p.generation][p.slot]| == PAGE_SIZE
  }

  ghost predicate SavedIdOk(d: Durable, k: nat, vm: VmId, i: nat, other: VmId, j: nat) {
    k < |d.log| && vm in d.log[k].vms && other in d.log[k].vms && i < |d.log[k].vms[vm]| && j < |d.log[k].vms[other]| ==>
      var p, q := d.log[k].vms[vm][i], d.log[k].vms[other][j];
      (p.id == q.id <==> p.generation == q.generation && p.slot == q.slot)
  }

  /** The files of a recorded checkpoint still hold the memory of that moment. */
  ghost predicate ImageOk(d: Durable, k: nat, vm: VmId) {
    k < |d.log| ==>
      && d.log[k].image.Keys == d.log[k].vms.Keys
      && (vm in d.log[k].vms ==> 0 < |d.log[k].vms[vm]| && BytesOf(d.disk, d.log[k].vms[vm]) == d.log[k].image[vm])
  }

  ghost predicate DurableInv(d: Durable) {
    && Inv(d.world)
    && (forall g {:trigger DiskOk(d, g)} :: DiskOk(d, g))
    && (forall k, vm, i {:trigger SavedPageOk(d, k, vm, i)} :: SavedPageOk(d, k, vm, i))
    && (forall k, vm, i, other, j {:trigger SavedIdOk(d, k, vm, i, other, j)} :: SavedIdOk(d, k, vm, i, other, j))
    && (forall k, vm {:trigger ImageOk(d, k, vm)} :: ImageOk(d, k, vm))
  }

  // ---------------------------------------------------------------------
  // Steps
  // ---------------------------------------------------------------------

  datatype DurableStep =
    | Live(step: Step)
    | Persist(generation: GenId)
    | TakeCheckpoint
    | CrashAndRestart(checkpoint: nat, nextGen: nat, nextPage: nat)

  ghost predicate DurableLegal(d: Durable, step: DurableStep) {
    match step
    case Live(s) => Legal(d.world, s)
    case Persist(g) => g in d.world.files && Frozen(d.world, g)
    case TakeCheckpoint => Quiescent(d.world)
    case CrashAndRestart(k, nextGen, nextPage) =>
      && k < |d.log|
      && (forall g {:trigger g in d.disk} :: g in d.disk ==> g < nextGen)
      && (forall vm, i {:trigger d.log[k].vms[vm][i]} :: vm in d.log[k].vms && 0 <= i < |d.log[k].vms[vm]| ==>
            d.log[k].vms[vm][i].id < nextPage)
  }

  function DurableNext(d: Durable, step: DurableStep): Durable {
    match step
    case Live(s) => d.(world := Next(d.world, s))
    case Persist(g) => PersistOne(d, g)
    case TakeCheckpoint => Checkpoint(d)
    case CrashAndRestart(k, nextGen, nextPage) => if k < |d.log| then Restart(d, k, nextGen, nextPage) else d
  }

  /** Nothing a VM does reaches a generation on disk. */
  lemma LiveKeepsDisk(d: Durable, step: Step, g: GenId)
    requires DurableInv(d) && Legal(d.world, step)
    ensures DiskOk(DurableNext(d, Live(step)), g)
  {
    var w := d.world;
    assert DiskOk(d, g);
    if g in d.disk {
      if g in w.files {
        FrozenStep(w, step, g);
      } else {
        AbsentStaysAbsent(w, step, g);
      }
    }
  }

  /** Generation ids below the counter are not created anew. */
  lemma AbsentStaysAbsent(w: World, step: Step, g: GenId)
    requires Inv(w) && Legal(w, step) && g !in w.files && g < w.nextGen
    ensures g !in Next(w, step).files && g < Next(w, step).nextGen
  {
    match step
    case DoFinish(vm, child, extra) => assert ForkOk(w, vm);
    case DoCopy(vm, n) => ChunkTarget(w, vm, n);
    case _ =>
  }

  lemma LiveKeepsInv(d: Durable, step: Step)
    requires DurableInv(d) && Legal(d.world, step)
    ensures DurableInv(DurableNext(d, Live(step)))
  {
    var t := DurableNext(d, Live(step));
    StepRefines(d.world, step);
    forall g ensures DiskOk(t, g) { LiveKeepsDisk(d, step, g); }
    forall k, vm, i ensures SavedPageOk(t, k, vm, i) { assert SavedPageOk(d, k, vm, i); }
    forall k, vm, i, o, j ensures SavedIdOk(t, k, vm, i, o, j) { assert SavedIdOk(d, k, vm, i, o, j); }
    forall k, vm ensures ImageOk(t, k, vm) { assert ImageOk(d, k, vm); }
  }

  /** A page list reads the same from files that agree on it. */
  lemma SameBytesOf(files: map<GenId, seq<Page>>, files': map<GenId, seq<Page>>, pages: seq<RamPage>)
    requires forall i {:trigger pages[i]} :: 0 <= i < |pages| ==> PageAt(files, pages[i]) == PageAt(files', pages[i])
    ensures BytesOf(files, pages) == BytesOf(files', pages)
  {
    forall a | 0 <= a < |pages| * PAGE_SIZE ensures BytesOf(files, pages)[a] == BytesOf(files', pages)[a] {
      assert PageAt(files, pages[a / PAGE_SIZE]) == PageAt(files', pages[a / PAGE_SIZE]);
    }
  }

  /** After a checkpoint the disk holds every generation of every VM, as the VM has it. */
  lemma CheckpointDisk(d: Durable, g: GenId)
    requires DurableInv(d) && Quiescent(d.world)
    ensures DiskOk(Checkpoint(d), g)
    ensures g in d.disk ==> g in Checkpoint(d).disk && Checkpoint(d).disk[g] == d.disk[g]
    ensures g in Generations(d.world) ==>
      g in Checkpoint(d).disk && g in d.world.files && Checkpoint(d).disk[g] == d.world.files[g]
  {
    assert DiskOk(d, g) && FileOk(d.world, g);
    if g in Generations(d.world) {
      var vm, i :| vm in d.world.rams && 0 <= i < |d.world.rams[vm].pages| && d.world.rams[vm].pages[i].generation == g;
      assert PageOk(d.world, vm, i);
      SealedIsFrozen(d.world, vm, i);
    }
  }

  lemma CheckpointPage(d: Durable, vm: VmId, i: nat)
    requires DurableInv(d) && Quiescent(d.world) && vm in d.world.rams && i < |d.world.rams[vm].pages|
    ensures var p := d.world.rams[vm].pages[i];
      var disk := Checkpoint(d).disk;
      && p.generation in disk && p.slot < |disk[p.generation]| && |disk[p.generation][p.slot]| == PAGE_SIZE
      && PageAt(disk, p) == Read(d.world, vm, i)
  {
    var p := d.world.rams[vm].pages[i];
    assert PageOk(d.world, vm, i);
    assert p.generation in Generations(d.world);
    CheckpointDisk(d, p.generation);
  }

  lemma CheckpointImage(d: Durable, vm: VmId)
    requires DurableInv(d) && Quiescent(d.world) && vm in d.world.rams
    ensures BytesOf(Checkpoint(d).disk, d.world.rams[vm].pages) == Memory(d.world, vm)
  {
    var pages := d.world.rams[vm].pages;
    forall a | 0 <= a < |pages| * PAGE_SIZE
      ensures BytesOf(Checkpoint(d).disk, pages)[a] == Memory(d.world, vm)[a]
    {
      CheckpointPage(d, vm, a / PAGE_SIZE);
    }
  }

  /** Earlier checkpoints keep their files. */
  lemma OlderCheckpoint(d: Durable, k: nat, vm: VmId, i: nat)
    requires DurableInv(d) && Quiescent(d.world) && k < |d.log|
    ensures SavedPageOk(Checkpoint(d), k, vm, i)
    ensures vm in d.log[k].vms && i < |d.log[k].vms[vm]| ==>
      PageAt(Checkpoint(d).disk, d.log[k].vms[vm][i]) == PageAt(d.disk, d.log[k].vms[vm][i])
  {
    assert SavedPageOk(d, k, vm, i);
    if vm in d.log[k].vms && i < |d.log[k].vms[vm]| {
      CheckpointDisk(d, d.log[k].vms[vm][i].generation);
    }
  }

  lemma OlderImage(d: Durable, k: nat, vm: VmId)
    requires DurableInv(d) && Quiescent(d.world) && k < |d.log|
    ensures ImageOk(Checkpoint(d), k, vm)
  {
    assert ImageOk(d, k, vm);
    if vm in d.log[k].vms {
      var pages := d.log[k].vms[vm];
      forall i | 0 <= i < |pages| ensures PageAt(d.disk, pages[i]) == PageAt(Checkpoint(d).disk, pages[i]) {
        OlderCheckpoint(d, k, vm, i);
      }
      SameBytesOf(d.disk, Checkpoint(d).disk, pages);
    }
  }

  lemma CheckpointKeepsInv(d: Durable)
    requires DurableInv(d) && Quiescent(d.world)
    ensures DurableInv(Checkpoint(d))
  {
    var t := Checkpoint(d);
    forall g ensures DiskOk(t, g) { CheckpointDisk(d, g); }
    forall k: nat, vm, i: nat ensures SavedPageOk(t, k, vm, i) {
      if k < |d.log| {
        OlderCheckpoint(d, k, vm, i);
      } else if k == |d.log| && vm in d.world.rams && i < |d.world.rams[vm].pages| {
        CheckpointPage(d, vm, i);
      }
    }
    forall k, vm, i, o, j ensures SavedIdOk(t, k, vm, i, o, j) {
      assert SavedIdOk(d, k, vm, i, o, j);
      assert IdOk(d.world, vm, i, o, j);
    }
    forall k: nat, vm ensures ImageOk(t, k, vm) {
      if k < |d.log| {
        OlderImage(d, k, vm);
      } else if k == |d.log| && vm in d.world.rams {
        assert RamOk(d.world, vm);
        CheckpointImage(d, vm);
      }
    }
  }

  /** A generation on disk without a record of it disturbs no checkpoint. */
  lemma PersistKeepsInv(d: Durable, g: GenId)
    requires DurableInv(d) && g in d.world.files && Frozen(d.world, g)
    ensures DurableInv(PersistOne(d, g))
  {
    var t := PersistOne(d, g);
    assert FileOk(d.world, g);
    forall h ensures DiskOk(t, h) { assert DiskOk(d, h); }
    forall k, vm, i ensures SavedPageOk(t, k, vm, i) { assert SavedPageOk(d, k, vm, i); }
    forall k, vm, i, o, j ensures SavedIdOk(t, k, vm, i, o, j) { assert SavedIdOk(d, k, vm, i, o, j); }
    forall k: nat, vm ensures ImageOk(t, k, vm) {
      assert ImageOk(d, k, vm);
      if k < |d.log| && vm in d.log[k].vms {
        var pages := d.log[k].vms[vm];
        forall i | 0 <= i < |pages| ensures PageAt(d.disk, pages[i]) == PageAt(t.disk, pages[i]) {
          assert SavedPageOk(d, k, vm, i);
        }
        SameBytesOf(d.disk, t.disk, pages);
      }
    }
  }

  // ---------------------------------------------------------------------
  // Restarting
  // ---------------------------------------------------------------------

  lemma RestartWorld(d: Durable, k: nat, nextGen: nat, nextPage: nat)
    requires DurableInv(d) && DurableLegal(d, CrashAndRestart(k, nextGen, nextPage))
    ensures Inv(Restart(d, k, nextGen, nextPage).world)
  {
    var w := Restart(d, k, nextGen, nextPage).world;
    forall vm ensures RamOk(w, vm) { assert ImageOk(d, k, vm); }
    forall vm, i: nat ensures PageOk(w, vm, i) {
      assert SavedPageOk(d, k, vm, i);
      assert vm in w.rams && i < |w.rams[vm].pages| ==> d.log[k].vms[vm][i].id < nextPage;
    }
    forall vm, i, o, j ensures IdOk(w, vm, i, o, j) { assert SavedIdOk(d, k, vm, i, o, j); }
  }

  /** A restart gives every VM back its memory and its page references, hence all sharing. */
  lemma RestartRoundTrip(d: Durable, k: nat, nextGen: nat, nextPage: nat)
    requires DurableInv(d) && DurableLegal(d, CrashAndRestart(k, nextGen, nextPage))
    ensures var t := Restart(d, k, nextGen, nextPage);
      && DurableInv(t)
      && View(t.world) == d.log[k].image
      && (map vm | vm in t.world.rams :: t.world.rams[vm].pages) == d.log[k].vms
  {
    var t := Restart(d, k, nextGen, nextPage);
    RestartKeepsInv(d, k, nextGen, nextPage);
    hide Inv;
    assert ImageOk(d, k, 0);
    forall vm | vm in t.world.rams ensures Memory(t.world, vm) == d.log[k].image[vm] {
      assert ImageOk(d, k, vm);
      assert Memory(t.world, vm) == BytesOf(d.disk, d.log[k].vms[vm]);
    }
  }

  lemma RestartKeepsInv(d: Durable, k: nat, nextGen: nat, nextPage: nat)
    requires DurableInv(d) && DurableLegal(d, CrashAndRestart(k, nextGen, nextPage))
    ensures DurableInv(Restart(d, k, nextGen, nextPage))
  {
    var t := Restart(d, k, nextGen, nextPage);
    RestartWorld(d, k, nextGen, nextPage);
    hide Inv;
    forall g ensures DiskOk(t, g) {
      forall vm ensures !Writable(t.world, vm, g) {}
    }
    forall l, vm, i ensures SavedPageOk(t, l, vm, i) { assert SavedPageOk(d, l, vm, i); }
    forall l, vm, i, o, j ensures SavedIdOk(t, l, vm, i, o, j) { assert SavedIdOk(d, l, vm, i, o, j); }
    forall l, vm ensures ImageOk(t, l, vm) { assert ImageOk(d, l, vm); }
  }

  // ---------------------------------------------------------------------
  // Runs with crashes
  // ---------------------------------------------------------------------

  ghost predicate DurableRunLegal(d: Durable, steps: seq<DurableStep>)
    decreases |steps|
  {
    steps == [] || (DurableLegal(d, steps[0]) && DurableRunLegal(DurableNext(d, steps[0]), steps[1..]))
  }

  function DurableRun(d: Durable, steps: seq<DurableStep>): Durable
    decreases |steps|
  {
    if steps == [] then d else DurableRun(DurableNext(d, steps[0]), steps[1..])
  }

  lemma DurableStepKeepsInv(d: Durable, step: DurableStep)
    requires DurableInv(d) && DurableLegal(d, step)
    ensures DurableInv(DurableNext(d, step)) && d.log <= DurableNext(d, step).log
  {
    match step
    case Live(s) => LiveKeepsInv(d, s);
    case Persist(g) => PersistKeepsInv(d, g);
    case TakeCheckpoint => CheckpointKeepsInv(d);
    case CrashAndRestart(k, nextGen, nextPage) => RestartRoundTrip(d, k, nextGen, nextPage);
  }

  lemma {:induction false} DurableRunKeepsInv(d: Durable, steps: seq<DurableStep>)
    requires DurableInv(d) && DurableRunLegal(d, steps)
    ensures DurableInv(DurableRun(d, steps)) && d.log <= DurableRun(d, steps).log
    decreases |steps|
  {
    if steps != [] {
      DurableStepKeepsInv(d, steps[0]);
      DurableRunKeepsInv(DurableNext(d, steps[0]), steps[1..]);
    }
  }

  /**
   A checkpoint can be restored after any later run, with any number of
   further checkpoints, crashes and restarts: every VM comes back with the
   memory it had when the checkpoint was taken.
   */
  lemma CheckpointsSurvive(d: Durable, steps: seq<DurableStep>, nextGen: nat, nextPage: nat)
    requires DurableInv(d) && Quiescent(d.world) && DurableRunLegal(Checkpoint(d), steps)
    requires DurableLegal(DurableRun(Checkpoint(d), steps), CrashAndRestart(|d.log|, nextGen, nextPage))
    ensures View(Restart(DurableRun(Checkpoint(d), steps), |d.log|, nextGen, nextPage).world) == View(d.world)
  {
    CheckpointKeepsInv(d);
    DurableRunKeepsInv(Checkpoint(d), steps);
    RestartRoundTrip(DurableRun(Checkpoint(d), steps), |d.log|, nextGen, nextPage);
    assert Checkpoint(d).log[|d.log|].image == View(d.world);
  }
}
