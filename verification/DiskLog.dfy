/**
 Copy-on-write disks mirrored by append-only files, as a state machine.

 A branch's private blocks are also records in its overlay file. Forking and
 checkpointing seal the overlay by linking it under a layer name and starting
 a new one. A checkpoint is the list of layer names and the overlay name.
 After a crash only the files named by checkpoints are known to be intact.

 The state is one lineage's directory and the disks open in it. File names are
 a kind and a number; two names may be the same file.
 */
module DiskLog {
  import opened Basics
  import G = Generations

  const BLOCK_SIZE: nat := 4096

  type DiskId = nat
  type Inode = nat

  datatype Block = Block(id: nat, bytes: seq<Byte>)

  datatype Record = Record(address: nat, id: nat, bytes: seq<Byte>)

  /** A file of records; a torn one ends in the middle of a record. */
  datatype File = File(records: seq<Record>, torn: bool)

  datatype Name = Layer(number: nat) | Overlay(number: nat)

  datatype Durable = Durable(layers: seq<nat>, overlay: nat, handle: Inode)

  datatype Disk = Disk(size: nat, blocks: G.Branch<nat, Block>, durable: Durable)

  /** A returned checkpoint, with the process it was taken in and the blocks it stands for. */
  datatype Published = Published(size: nat, layers: seq<nat>, overlay: nat, epoch: nat, visible: map<nat, Block>)

  datatype World = World(
    names: map<Name, Inode>,
    files: map<Inode, File>,
    nextInode: nat,
    nextName: nat,
    nextBlock: nat,
    disks: map<DiskId, Disk>,
    published: seq<Published>,
    /** The current process. */
    epoch: nat)

  // ---------------------------------------------------------------------
  // Reading files
  // ---------------------------------------------------------------------

  function RecordsOf(w: World, name: Name): seq<Record> {
    if name in w.names && w.names[name] in w.files then w.files[w.names[name]].records else []
  }

  function LayerRecords(w: World, layers: seq<nat>): seq<Record>
    decreases |layers|
  {
    if layers == [] then []
    else LayerRecords(w, layers[..|layers| - 1]) + RecordsOf(w, Layer(layers[|layers| - 1]))
  }

  /** Inserting the records' blocks one after the other. */
  function Replay(records: seq<Record>): map<nat, Block>
    decreases |records|
  {
    if records == [] then map[]
    else
      var last := records[|records| - 1];
      Replay(records[..|records| - 1])[last.address := Block(last.id, last.bytes)]
  }

  /** Everything a disk has logged, oldest first. */
  function DiskRecords(w: World, layers: seq<nat>, overlay: nat): seq<Record> {
    LayerRecords(w, layers) + RecordsOf(w, Overlay(overlay))
  }

  lemma {:induction false} ReplayConcat(a: seq<Record>, b: seq<Record>)
    ensures Replay(a + b) == Replay(a) + Replay(b)
    decreases |b|
  {
    if b == [] {
      assert a + b == a;
      assert Replay(a) + map[] == Replay(a);
    } else {
      var c := b[..|b| - 1];
      assert (a + b)[..|a + b| - 1] == a + c;
      ReplayConcat(a, c);
    }
  }

  lemma LayerRecordsPush(w: World, layers: seq<nat>, layer: nat)
    ensures LayerRecords(w, layers + [layer]) == LayerRecords(w, layers) + RecordsOf(w, Layer(layer))
  {
    assert (layers + [layer])[..|layers|] == layers;
  }

  /** Layers read the same from two directories that agree on their names and files. */
  lemma {:induction false} SameLayerRecords(w: World, t: World, layers: seq<nat>)
    requires forall l {:trigger Layer(l)} :: l in layers ==> RecordsOf(w, Layer(l)) == RecordsOf(t, Layer(l))
    ensures LayerRecords(w, layers) == LayerRecords(t, layers)
    decreases |layers|
  {
    if layers != [] {
      var rest := layers[..|layers| - 1];
      assert layers[|layers| - 1] in layers;
      forall l | l in rest ensures RecordsOf(w, Layer(l)) == RecordsOf(t, Layer(l)) { assert l in layers; }
      SameLayerRecords(w, t, rest);
    }
  }

  // ---------------------------------------------------------------------
  // Numbered files
  // ---------------------------------------------------------------------

  function NameOf(layer: bool, number: nat): Name {
    if layer then Layer(number) else Overlay(number)
  }

  /** The first number at or past `number` under which no file of the kind exists. */
  function FreeNumber(names: set<Name>, layer: bool, number: nat): (r: nat)
    ensures number <= r && NameOf(layer, r) !in names
    decreases set n | n in names && number <= n.number
  {
    if NameOf(layer, number) !in names then number
    else
      var here, past := set n | n in names && number <= n.number, set n | n in names && number + 1 <= n.number;
      assert past < here by {
        assert NameOf(layer, number) in here && NameOf(layer, number) !in past;
      }
      FreeNumber(names, layer, number + 1)
  }

  /** It is the first such number. */
  lemma {:induction false} FreeNumberIsFirst(names: set<Name>, layer: bool, number: nat, n: nat)
    requires number <= n < FreeNumber(names, layer, number)
    ensures NameOf(layer, n) in names
    decreases n - number
  {
    if number < n {
      FreeNumberIsFirst(names, layer, number + 1, n);
    }
  }

  /** A new empty overlay. */
  function CreateOverlay(w: World): (World, nat) {
    var number := FreeNumber(w.names.Keys, false, w.nextName);
    (w.(names := w.names[Overlay(number) := w.nextInode],
        files := w.files[w.nextInode := File([], false)],
        nextInode := w.nextInode + 1,
        nextName := number + 1), number)
  }

  /** A layer name for an existing file. */
  function LinkLayer(w: World, file: Inode): (World, nat) {
    var number := FreeNumber(w.names.Keys, true, w.nextName);
    (w.(names := w.names[Layer(number) := file], nextName := number + 1), number)
  }

  // ---------------------------------------------------------------------
  // Steps
  // ---------------------------------------------------------------------

  /** One block written and logged. */
  function WriteBlock(w: World, d: DiskId, address: nat, bytes: seq<Byte>): World
    requires d in w.disks && w.disks[d].durable.handle in w.files
  {
    var disk := w.disks[d];
    var block := Block(w.nextBlock, bytes);
    var handle := disk.durable.handle;
    var file := w.files[handle];
    w.(disks := w.disks[d := disk.(blocks := G.Put(disk.blocks, address, block))],
       files := w.files[handle := file.(records := file.records + [Record(address, block.id, bytes)])],
       nextBlock := w.nextBlock + 1)
  }

  /** Open a disk over the given layers, logging to a new overlay. */
  function OpenDisk(w: World, d: DiskId, size: nat, blocks: G.Branch<nat, Block>, layers: seq<nat>): World {
    var (w1, overlay) := CreateOverlay(w);
    w1.(disks := w1.disks[d := Disk(size, blocks, Durable(layers, overlay, w.nextInode))])
  }

  function Create(w: World, d: DiskId, size: nat): World {
    OpenDisk(w, d, size, G.EmptyBranch(), [])
  }

  /** The directory and layers over which a sealed disk continues. */
  function Sealed(w: World, d: DiskId): (World, seq<nat>)
    requires d in w.disks
  {
    var disk := w.disks[d];
    if disk.blocks.changes != map[]
    then var (v, layer) := LinkLayer(w, disk.durable.handle); (v, disk.durable.layers + [layer])
    else (w, disk.durable.layers)
  }

  /** Continue a disk on a new overlay, its private blocks sealed and the old overlay its newest layer. */
  function Continue(w: World, d: DiskId): World
    requires d in w.disks
  {
    var (v, layers) := Sealed(w, d);
    OpenDisk(v, d, w.disks[d].size, G.Seal(w.disks[d].blocks), layers)
  }

  function Fork(w: World, d: DiskId, child: DiskId): World
    requires d in w.disks
  {
    var w1 := if w.disks[d].blocks.changes != map[] then Continue(w, d) else w;
    var disk := w1.disks[d];
    OpenDisk(w1, child, disk.size, disk.blocks, disk.durable.layers)
  }

  /** The checkpoint of a disk as it stands. */
  function StateOf(w: World, d: DiskId): Published
    requires d in w.disks
  {
    var disk := w.disks[d];
    Published(disk.size, disk.durable.layers, disk.durable.overlay, w.epoch, G.Visible(disk.blocks))
  }

  function Checkpoint(w: World, d: DiskId): World
    requires d in w.disks
  {
    var w1 := Continue(w, d);
    w1.(published := w1.published + [StateOf(w, d)])
  }

  /** What a crash may leave: anything, as long as the files of checkpoints are intact. */
  function Crash(w: World, names: map<Name, Inode>, files: map<Inode, File>, nextInode: nat): World {
    w.(names := names, files := files, nextInode := nextInode, nextName := 1, nextBlock := 1, disks := map[],
       epoch := w.epoch + 1)
  }

  function MaxId(records: seq<Record>, floor: nat): (m: nat)
    ensures floor <= m && forall i :: 0 <= i < |records| ==> records[i].id < m
    decreases |records|
  {
    if records == [] then floor
    else
      var rest := MaxId(records[..|records| - 1], floor);
      var id := records[|records| - 1].id;
      if rest < id + 1 then id + 1 else rest
  }

  function MaxName(numbers: seq<nat>, floor: nat): (m: nat)
    ensures floor <= m && forall i :: 0 <= i < |numbers| ==> numbers[i] < m
    decreases |numbers|
  {
    if numbers == [] then floor
    else
      var rest := MaxName(numbers[..|numbers| - 1], floor);
      var n := numbers[|numbers| - 1];
      if rest < n + 1 then n + 1 else rest
  }

  /** The counters move no further than they must. */
  lemma {:induction false} MaxIdIsLeast(records: seq<Record>, floor: nat)
    ensures MaxId(records, floor) == floor || exists i :: 0 <= i < |records| && records[i].id + 1 == MaxId(records, floor)
    decreases |records|
  {
    if records != [] {
      var before := records[..|records| - 1];
      MaxIdIsLeast(before, floor);
      if i :| 0 <= i < |before| && before[i].id + 1 == MaxId(before, floor) {
        assert records[i].id + 1 == MaxId(before, floor);
      }
      assert records[|records| - 1].id + 1 == MaxId(records, floor) || MaxId(records, floor) == MaxId(before, floor);
    }
  }

  lemma {:induction false} MaxNameIsLeast(numbers: seq<nat>, floor: nat)
    ensures MaxName(numbers, floor) == floor || exists i :: 0 <= i < |numbers| && numbers[i] + 1 == MaxName(numbers, floor)
    decreases |numbers|
  {
    if numbers != [] {
      var before := numbers[..|numbers| - 1];
      MaxNameIsLeast(before, floor);
      if i :| 0 <= i < |before| && before[i] + 1 == MaxName(before, floor) {
        assert numbers[i] + 1 == MaxName(before, floor);
      }
      assert numbers[|numbers| - 1] + 1 == MaxName(numbers, floor) || MaxName(numbers, floor) == MaxName(before, floor);
    }
  }

  /** Counters past every number the checkpoint uses. */
  function Counted(w: World, p: nat): World
    requires p < |w.published|
  {
    var state := w.published[p];
    w.(nextBlock := MaxId(DiskRecords(w, state.layers, state.overlay), w.nextBlock),
       nextName := MaxName(state.layers + [state.overlay], w.nextName))
  }

  /** The directory and layers over which a checkpoint is reopened. */
  function Reopened(w: World, p: nat): (World, seq<nat>)
    requires p < |w.published|
  {
    var state := w.published[p];
    var overlay := Overlay(state.overlay);
    if RecordsOf(w, overlay) != [] && overlay in w.names
    then var (v, layer) := LinkLayer(Counted(w, p), w.names[overlay]); (v, state.layers + [layer])
    else (Counted(w, p), state.layers)
  }

  /** Open the disk of a checkpoint: replay its files, keep them as layers, log to a new overlay. */
  function Restore(w: World, d: DiskId, p: nat): World
    requires p < |w.published|
  {
    var state := w.published[p];
    var (v, layers) := Reopened(w, p);
    var blocks := G.Branch(G.Generation(None, Replay(DiskRecords(w, state.layers, state.overlay))), map[]);
    OpenDisk(v, d, state.size, blocks, layers)
  }
}
