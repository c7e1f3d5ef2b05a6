/**
 Whole runs of a lineage of durable disks, across crashes: the disks behave as
 plain arrays of blocks that a fork copies, and a checkpoint reopens as the
 array it was taken of.
 */
module DiskRuns {
  import opened Basics
  import opened DiskLog
  import opened DiskInvariant
  import opened DiskSteps
  import opened DiskRecovery
  import G = Generations

  /** A disk as its users see it: its size and the bytes of the blocks ever written. */
  datatype Image = Image(size: nat, blocks: map<nat, seq<Byte>>)

  datatype Forest = Forest(disks: map<DiskId, Image>, checkpoints: seq<Image>)

  datatype Step =
    | DoCreate(d: DiskId, size: nat)
    | DoWrite(d: DiskId, address: nat, bytes: seq<Byte>)
    | DoFork(d: DiskId, child: DiskId)
    | DoCheckpoint(d: DiskId)
    | DoDrop(d: DiskId)
    | DoCrash(names: map<Name, Inode>, files: map<Inode, File>, nextInode: nat)
    | DoRestore(d: DiskId, checkpoint: nat)

  function Bytes(blocks: map<nat, Block>): map<nat, seq<Byte>> {
    map a | a in blocks :: blocks[a].bytes
  }

  function ImageOf(disk: Disk): Image {
    Image(disk.size, Bytes(G.Visible(disk.blocks)))
  }

  function StateImage(state: Published): Image {
    Image(state.size, Bytes(state.visible))
  }

  function View(w: World): Forest {
    Forest(map d | d in w.disks :: ImageOf(w.disks[d]),
           seq(|w.published|, i requires 0 <= i < |w.published| => StateImage(w.published[i])))
  }

  /** What each step means for arrays of blocks. */
  function Apply(f: Forest, step: Step): Forest {
    match step
    case DoCreate(d, size) => f.(disks := f.disks[d := Image(size, map[])])
    case DoWrite(d, address, bytes) =>
      if d in f.disks
      then f.(disks := f.disks[d := f.disks[d].(blocks := f.disks[d].blocks[address := bytes])])
      else f
    case DoFork(d, child) => if d in f.disks then f.(disks := f.disks[child := f.disks[d]]) else f
    case DoCheckpoint(d) => if d in f.disks then f.(checkpoints := f.checkpoints + [f.disks[d]]) else f
    case DoDrop(d) => f.(disks := f.disks - {d})
    case DoCrash(_, _, _) => f.(disks := map[])
    case DoRestore(d, p) => if p < |f.checkpoints| then f.(disks := f.disks[d := f.checkpoints[p]]) else f
  }

  ghost predicate Legal(w: World, step: Step) {
    match step
    case DoCreate(d, size) => d !in w.disks
    case DoWrite(d, address, bytes) => d in w.disks && w.disks[d].durable.handle in w.files
    case DoFork(d, child) => d in w.disks && child !in w.disks
    case DoCheckpoint(d) => d in w.disks
    case DoDrop(d) => true
    case DoCrash(names, files, nextInode) => Survives(w, names, files, nextInode)
    case DoRestore(d, p) => d !in w.disks && p < |w.published|
  }

  function Drop(w: World, d: DiskId): World {
    w.(disks := w.disks - {d})
  }

  ghost function Next(w: World, step: Step): World
    requires Legal(w, step)
  {
    match step
    case DoCreate(d, size) => Create(w, d, size)
    case DoWrite(d, address, bytes) => WriteBlock(w, d, address, bytes)
    case DoFork(d, child) => Fork(w, d, child)
    case DoCheckpoint(d) => Checkpoint(w, d)
    case DoDrop(d) => Drop(w, d)
    case DoCrash(names, files, nextInode) => Crash(w, names, files, nextInode)
    case DoRestore(d, p) => Restore(w, d, p)
  }

  ghost predicate LegalRun(w: World, steps: seq<Step>)
    decreases |steps|
  {
    steps == [] || (Legal(w, steps[0]) && LegalRun(Next(w, steps[0]), steps[1..]))
  }

  ghost function Run(w: World, steps: seq<Step>): World
    requires LegalRun(w, steps)
    decreases |steps|
  {
    if steps == [] then w else Run(Next(w, steps[0]), steps[1..])
  }

  function ApplyAll(f: Forest, steps: seq<Step>): Forest
    decreases |steps|
  {
    if steps == [] then f else ApplyAll(Apply(f, steps[0]), steps[1..])
  }

  const EMPTY: World := World(map[], map[], 0, 1, 1, map[], [], 0)

  // ---------------------------------------------------------------------
  // Every step
  // ---------------------------------------------------------------------

  lemma CreateKeepsInv(w: World, d: DiskId, size: nat)
    requires Inv(w) && d !in w.disks
    ensures var t := Create(w, d, size);
      Inv(t) && SameRest(w, t, d) && LogOf(t, d) == [] && OtherLogs(w, t, d)
  {
    OpenKeepsInv(w, d, size, G.EmptyBranch(), []);
  }

  lemma DropKeepsInv(w: World, d: DiskId)
    requires Inv(w)
    ensures Inv(Drop(w, d)) && OtherLogs(w, Drop(w, d), d)
  {
    var t := Drop(w, d);
    forall name ensures NameOk(t, name) && Kept(w, t, name) { assert NameOk(w, name); }
    DisksGrow(w, t);
    StatesGrow(w, t);
    forall a ensures DiskOk(t, a) { assert a in t.disks ==> LogOf(t, a) == LogOf(w, a); }
    forall a, b ensures HandlesApart(t, a, b) { assert HandlesApart(w, a, b); }
    forall a, b, l ensures LayerApart(t, a, b, l) { assert LayerApart(w, a, b, l); }
    forall a, p, name ensures StateApart(t, a, p, name) { assert StateApart(w, a, p, name); }
  }

  lemma StepKeepsInv(w: World, step: Step)
    requires Inv(w) && Legal(w, step)
    ensures Inv(Next(w, step))
  {
    hide Inv;
    match step
    case DoCreate(d, size) => CreateKeepsInv(w, d, size);
    case DoWrite(d, address, bytes) => WriteKeepsInv(w, d, address, bytes);
    case DoFork(d, child) => ForkKeepsInv(w, d, child);
    case DoCheckpoint(d) => CheckpointKeepsInv(w, d);
    case DoDrop(d) => DropKeepsInv(w, d);
    case DoCrash(names, files, nextInode) => CrashKeepsInv(w, names, files, nextInode);
    case DoRestore(d, p) => RestoreKeepsInv(w, d, p);
  }

  /** One step of the disks is the same step of the arrays. */
  lemma StepRefines(w: World, step: Step)
    requires Inv(w) && Legal(w, step)
    ensures View(Next(w, step)) == Apply(View(w), step)
  {
    hide Inv, View, Apply;
    match step
    case DoCreate(d, size) => CreateRefines(w, d, size);
    case DoWrite(d, address, bytes) => WriteRefines(w, d, address, bytes);
    case DoFork(d, child) => ForkRefines(w, d, child);
    case DoCheckpoint(d) => CheckpointRefines(w, d);
    case DoDrop(d) => DropRefines(w, d);
    case DoCrash(names, files, nextInode) => CrashRefines(w, names, files, nextInode);
    case DoRestore(d, p) => RestoreRefines(w, d, p);
  }

  lemma CreateRefines(w: World, d: DiskId, size: nat)
    ensures View(Create(w, d, size)) == Apply(View(w), DoCreate(d, size))
  {
    assert View(Create(w, d, size)).disks == Apply(View(w), DoCreate(d, size)).disks;
  }

  lemma DropRefines(w: World, d: DiskId)
    ensures View(Drop(w, d)) == Apply(View(w), DoDrop(d))
  {
    assert View(Drop(w, d)).disks == Apply(View(w), DoDrop(d)).disks;
  }

  lemma CrashRefines(w: World, names: map<Name, Inode>, files: map<Inode, File>, nextInode: nat)
    ensures View(Crash(w, names, files, nextInode))
         == Apply(View(w), DoCrash(names, files, nextInode))
  {
    assert View(Crash(w, names, files, nextInode)).disks == map[];
  }

  lemma ForkRefines(w: World, d: DiskId, child: DiskId)
    requires Inv(w) && d in w.disks && child !in w.disks
    ensures View(Fork(w, d, child)) == Apply(View(w), DoFork(d, child))
  {
    hide Inv, Fork;
    ForkKeepsInv(w, d, child);
    assert View(Fork(w, d, child)).disks == Apply(View(w), DoFork(d, child)).disks;
  }

  lemma CheckpointRefines(w: World, d: DiskId)
    requires Inv(w) && d in w.disks
    ensures View(Checkpoint(w, d)) == Apply(View(w), DoCheckpoint(d))
  {
    hide Inv, Continue;
    CheckpointKeepsInv(w, d);
    assert View(Checkpoint(w, d)).disks == View(w).disks;
  }

  lemma RestoreRefines(w: World, d: DiskId, p: nat)
    requires Inv(w) && Legal(w, DoRestore(d, p))
    ensures View(Restore(w, d, p)) == Apply(View(w), DoRestore(d, p))
  {
    hide Inv, Restore;
    RestoreKeepsInv(w, d, p);
    assert View(Restore(w, d, p)).disks == Apply(View(w), DoRestore(d, p)).disks;
  }

  lemma WriteRefines(w: World, d: DiskId, address: nat, bytes: seq<Byte>)
    requires Inv(w) && d in w.disks && w.disks[d].durable.handle in w.files
    ensures View(WriteBlock(w, d, address, bytes)) == Apply(View(w), DoWrite(d, address, bytes))
  {
    var t := WriteBlock(w, d, address, bytes);
    WriteKeepsInv(w, d, address, bytes);
    hide Inv;
    assert ImageOf(t.disks[d]).blocks == ImageOf(w.disks[d]).blocks[address := bytes];
    assert View(t).disks == Apply(View(w), DoWrite(d, address, bytes)).disks;
  }

  // ---------------------------------------------------------------------
  // Every run
  // ---------------------------------------------------------------------

  /** Every run of the disks, with crashes anywhere, is the same run of the arrays. */
  lemma {:induction false} RunRefines(w: World, steps: seq<Step>)
    requires Inv(w) && LegalRun(w, steps)
    ensures Inv(Run(w, steps)) && View(Run(w, steps)) == ApplyAll(View(w), steps)
    decreases |steps|
  {
    hide Inv, Legal, Next, View, Apply;
    if steps != [] {
      StepKeepsInv(w, steps[0]);
      StepRefines(w, steps[0]);
      RunRefines(Next(w, steps[0]), steps[1..]);
    }
  }

  lemma EmptyInv()
    ensures Inv(EMPTY)
  {
    assert forall name {:trigger NameOk(EMPTY, name)} :: NameOk(EMPTY, name);
  }

  /** Checkpoints of a run are never lost or changed by what follows. */
  lemma {:induction false} CheckpointsStay(f: Forest, steps: seq<Step>, p: nat)
    requires p < |f.checkpoints|
    ensures p < |ApplyAll(f, steps).checkpoints| && ApplyAll(f, steps).checkpoints[p] == f.checkpoints[p]
    decreases |steps|
  {
    if steps != [] {
      CheckpointsStay(Apply(f, steps[0]), steps[1..], p);
    }
  }

  /** Take a checkpoint, let anything happen, crash, reopen it: the disk is as it was. */
  lemma CheckpointRoundTrip(w: World, d: DiskId, between: seq<Step>, e: DiskId)
    requires Inv(w) && d in w.disks && LegalRun(Checkpoint(w, d), between)
    requires e !in Run(Checkpoint(w, d), between).disks
    ensures var v, p := Run(Checkpoint(w, d), between), |w.published|;
      && p < |v.published| && e in Restore(v, e, p).disks
      && ImageOf(Restore(v, e, p).disks[e]) == ImageOf(w.disks[d])
  {
    hide Inv, Continue, Restore;
    var c, p := Checkpoint(w, d), |w.published|;
    var v := Run(c, between);
    CheckpointKeepsInv(w, d);
    StepRefines(w, DoCheckpoint(d));
    RunRefines(c, between);
    CheckpointsStay(View(c), between, p);
    RestoreKeepsInv(v, e, p);
    assert View(c).checkpoints[p] == StateImage(StateOf(w, d));
    assert View(v).checkpoints[p] == StateImage(v.published[p]);
  }
}
