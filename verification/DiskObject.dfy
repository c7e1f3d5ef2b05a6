/**
 The copy-on-write disk of a filesystem branch: a flat array of bytes kept as
 sparse blocks over shared generations, mirrored block by block in files.
 */
module DiskObject {
  import opened Basics
  import opened DiskLog
  import opened LayerCodec
  import G = Generations

  // ---------------------------------------------------------------------
  // The disk as an array of bytes
  // ---------------------------------------------------------------------

  predicate Sized(visible: map<nat, Block>) {
    forall a :: a in visible ==> |visible[a].bytes| == BLOCK_SIZE
  }

  function BlockBytes(visible: map<nat, Block>, address: nat): seq<Byte> {
    if address in visible then visible[address].bytes else Zeros(BLOCK_SIZE)
  }

  function Contents(disk: Disk): (bytes: seq<Byte>)
    requires Sized(G.Visible(disk.blocks))
    ensures |bytes| == disk.size
  {
    seq(disk.size, i requires 0 <= i => BlockBytes(G.Visible(disk.blocks), i / BLOCK_SIZE)[i % BLOCK_SIZE])
  }

  /** What was never written reads as zero, and what was reads as its block. */
  lemma ContentsAt(disk: Disk, i: nat)
    requires Sized(G.Visible(disk.blocks)) && i < disk.size
    ensures var visible, address: nat := G.Visible(disk.blocks), i / BLOCK_SIZE;
      Contents(disk)[i] == if address in visible then visible[address].bytes[i % BLOCK_SIZE] else 0
  {
  }

  predicate InRange(size: nat, block: nat, len: nat) {
    block * BLOCK_SIZE <= U64_MAX && block * BLOCK_SIZE + len <= U64_MAX && block * BLOCK_SIZE + len <= size
  }

  /** The start of a block is a slice of the array. */
  lemma BlockSlice(disk: Disk, address: nat, n: nat)
    requires Sized(G.Visible(disk.blocks)) && n <= BLOCK_SIZE && address * BLOCK_SIZE + n <= disk.size
    ensures var from, stored := address * BLOCK_SIZE, G.Lookup(disk.blocks, address);
      && (stored.Some? ==> |stored.value.bytes| == BLOCK_SIZE)
      && Contents(disk)[from..from + n] == (if stored.Some? then stored.value.bytes[..n] else Zeros(n))
  {
    var from, stored := address * BLOCK_SIZE, G.Lookup(disk.blocks, address);
    G.LookupIsVisible(disk.blocks, address);
    var slice, chunk := Contents(disk)[from..from + n], if stored.Some? then stored.value.bytes[..n] else Zeros(n);
    forall j | 0 <= j < n ensures slice[j] == chunk[j] {
      assert slice[j] == Contents(disk)[from + j];
      assert (from + j) / BLOCK_SIZE == address && (from + j) % BLOCK_SIZE == j;
    }
  }

  /** A slice that ends where a block starts, and the start of that block. */
  lemma NextSlice(disk: Disk, address: nat, n: nat, offset: nat, done: nat)
    requires Sized(G.Visible(disk.blocks)) && n <= BLOCK_SIZE && address * BLOCK_SIZE + n <= disk.size
    requires offset + done == address * BLOCK_SIZE
    ensures var from, stored := offset + done, G.Lookup(disk.blocks, address);
      && (stored.Some? ==> |stored.value.bytes| == BLOCK_SIZE)
      && Contents(disk)[offset..from] + (if stored.Some? then stored.value.bytes[..n] else Zeros(n)) == Contents(disk)[offset..from + n]
  {
    BlockSlice(disk, address, n);
    hide Contents, Sized, G.Lookup;
    SliceConcat(Contents(disk), offset, offset + done, offset + done + n);
  }

  // ---------------------------------------------------------------------
  // A write as a run of block writes
  // ---------------------------------------------------------------------

  /** The block at `address` with the chunk at its start. */
  function Overwritten(disk: Disk, address: nat, chunk: seq<Byte>): (bytes: seq<Byte>)
    requires Sized(G.Visible(disk.blocks)) && |chunk| <= BLOCK_SIZE
    ensures |bytes| == BLOCK_SIZE
  {
    Splice(BlockBytes(G.Visible(disk.blocks), address), 0, chunk)
  }

  predicate Writable(w: World, d: DiskId) {
    d in w.disks && w.disks[d].durable.handle in w.files && Sized(G.Visible(w.disks[d].blocks))
  }

  function WriteChunk(w: World, d: DiskId, address: nat, chunk: seq<Byte>): (t: World)
    requires Writable(w, d) && |chunk| <= BLOCK_SIZE
    ensures Writable(t, d)
  {
    WriteBlock(w, d, address, Overwritten(w.disks[d], address, chunk))
  }

  function WriteChunks(w: World, d: DiskId, address: nat, buffer: seq<Byte>): (t: World)
    requires Writable(w, d)
    ensures Writable(t, d)
    decreases |buffer|
  {
    if buffer == [] then w
    else
      var n := Min(BLOCK_SIZE, |buffer|);
      WriteChunks(WriteChunk(w, d, address, buffer[..n]), d, address + 1, buffer[n..])
  }

  lemma WriteChunksStep(w: World, d: DiskId, address: nat, buffer: seq<Byte>)
    requires Writable(w, d)
    ensures WriteChunks(w, d, address, []) == w
    ensures buffer != [] ==>
      var n := Min(BLOCK_SIZE, |buffer|);
      WriteChunks(w, d, address, buffer) == WriteChunks(WriteChunk(w, d, address, buffer[..n]), d, address + 1, buffer[n..])
  {
  }

  /** A chunk changes its own bytes of the array. */
  lemma WriteChunkSplices(w: World, d: DiskId, address: nat, chunk: seq<Byte>)
    requires Writable(w, d) && |chunk| <= BLOCK_SIZE && address * BLOCK_SIZE + |chunk| <= w.disks[d].size
    ensures var t := WriteChunk(w, d, address, chunk);
      t.disks[d].size == w.disks[d].size
      && Contents(t.disks[d]) == Splice(Contents(w.disks[d]), address * BLOCK_SIZE, chunk)
  {
    var t := WriteChunk(w, d, address, chunk);
    var spliced := Splice(Contents(w.disks[d]), address * BLOCK_SIZE, chunk);
    forall i | 0 <= i < w.disks[d].size ensures Contents(t.disks[d])[i] == spliced[i] {
      if i / BLOCK_SIZE == address {
        assert i == address * BLOCK_SIZE + i % BLOCK_SIZE;
      }
    }
  }

  /** A write of any length replaces exactly its bytes of the array. */
  lemma {:induction false} WriteChunksSplice(w: World, d: DiskId, address: nat, buffer: seq<Byte>)
    requires Writable(w, d) && address * BLOCK_SIZE + |buffer| <= w.disks[d].size
    ensures var t := WriteChunks(w, d, address, buffer);
      t.disks[d].size == w.disks[d].size
      && Contents(t.disks[d]) == Splice(Contents(w.disks[d]), address * BLOCK_SIZE, buffer)
    decreases |buffer|
  {
    hide WriteChunk, Contents;
    if buffer == [] {
      assert Splice(Contents(w.disks[d]), address * BLOCK_SIZE, buffer) == Contents(w.disks[d]);
    } else {
      var n := Min(BLOCK_SIZE, |buffer|);
      var v := WriteChunk(w, d, address, buffer[..n]);
      WriteChunkSplices(w, d, address, buffer[..n]);
      if n < |buffer| {
        WriteChunksSplice(v, d, address + 1, buffer[n..]);
        SpliceTwice(Contents(w.disks[d]), address * BLOCK_SIZE, buffer[..n], buffer[n..]);
        assert buffer[..n] + buffer[n..] == buffer;
      } else {
        assert buffer[..n] == buffer && buffer[n..] == [];
      }
    }
  }

  lemma SpliceTwice(target: seq<Byte>, offset: nat, a: seq<Byte>, b: seq<Byte>)
    requires offset + |a| + |b| <= |target|
    ensures Splice(Splice(target, offset, a), offset + |a|, b) == Splice(target, offset, a + b)
  {
  }

  // ---------------------------------------------------------------------
  // The objects
  // ---------------------------------------------------------------------

  type U64 = n: nat | n <= U64_MAX

  /** The next value of a counter that wraps around. */
  function Wrapped(n: U64): (r: U64)
    ensures r == (n + 1) % (U64_MAX + 1)
  {
    if n == U64_MAX then 0 else n + 1
  }

  /** How many blocks a buffer covers. */
  function Chunks(len: nat): nat {
    (len + BLOCK_SIZE - 1) / BLOCK_SIZE
  }

  /** A lineage's directory and the counters of the process. */
  class Lineage {
    var names: map<Name, Inode>
    var bytes: map<Inode, seq<Byte>>
    var nextInode: nat
    var nextName: nat
    var nextBlock: U64

    constructor ()
      ensures With(map[]) == World(map[], map[], 0, 1, 1, map[], [], 0)
    {
      names, bytes, nextInode, nextName, nextBlock := map[], map[], 0, 1, 1;
    }

    function Files(): map<Inode, File>
      reads `bytes
    {
      map i | i in bytes :: Parse(bytes[i])
    }

    /** The lineage with the given disks open. */
    function With(disks: map<DiskId, Disk>): World
      reads this
    {
      World(names, Files(), nextInode, nextName, nextBlock, disks, [], 0)
    }

    /** A new empty overlay under the first free number. */
    method CreateNumbered() returns (number: nat, file: Inode)
      modifies this
      ensures number == FreeNumber(old(names).Keys, false, old(nextName)) && file == old(nextInode)
      ensures names == old(names)[Overlay(number) := file] && bytes == old(bytes)[file := []]
      ensures nextInode == file + 1 && nextName == number + 1 && nextBlock == old(nextBlock)
      ensures Files() == old(Files())[file := File([], false)]
    {
      number := nextName;
      while Overlay(number) in names
        invariant FreeNumber(names.Keys, false, number) == FreeNumber(names.Keys, false, old(nextName))
        decreases FreeNumber(names.Keys, false, old(nextName)) - number
      {
        number := number + 1;
      }
      file := nextInode;
      names, bytes := names[Overlay(number) := file], bytes[file := []];
      nextInode, nextName := nextInode + 1, number + 1;
    }

    /** A layer name for a file under the first free number. */
    method LinkNumbered(file: Inode) returns (number: nat)
      modifies `names, `nextName
      ensures number == FreeNumber(old(names).Keys, true, old(nextName))
      ensures names == old(names)[Layer(number) := file] && nextName == number + 1
    {
      number := nextName;
      while Layer(number) in names
        invariant FreeNumber(names.Keys, true, number) == FreeNumber(names.Keys, true, old(nextName))
        decreases FreeNumber(names.Keys, true, old(nextName)) - number
      {
        number := number + 1;
      }
      names, nextName := names[Layer(number) := file], number + 1;
    }
  }

  datatype DiskError = EIO

  class CowDisk {
    const lineage: Lineage
    var size: nat
    var blocks: G.Branch<nat, Block>
    var layers: seq<nat>
    var overlay: nat
    var handle: Inode

    function Value(): Disk
      reads this
    {
      Disk(size, blocks, Durable(layers, overlay, handle))
    }

    /** The lineage with this disk open. */
    function Alone(): World
      reads this, lineage
    {
      lineage.With(map[0 := Value()])
    }

    lemma AloneIsWritable()
      requires Valid()
      ensures Writable(Alone(), 0)
    {
    }

    lemma OnlyDisk()
      ensures Alone().disks == map[0 := Value()]
    {
    }

    /** The overlay names a file of whole records, and blocks have their size. */
    predicate Valid()
      reads this, lineage
    {
      && Overlay(overlay) in lineage.names && lineage.names[Overlay(overlay)] == handle
      && handle in lineage.bytes && handle < lineage.nextInode && |lineage.bytes[handle]| % RECORD_SIZE == 0
      && Sized(G.Visible(blocks))
    }

    /** A blank disk. */
    constructor (lineage: Lineage, size: nat)
      modifies lineage
      ensures this.lineage == lineage && Valid()
      ensures Alone() == Create(old(lineage.With(map[])), 0, size)
    {
      this.lineage, this.size, blocks, layers := lineage, size, G.EmptyBranch(), [];
      new;
      overlay, handle := lineage.CreateNumbered();
      assert map[][0 := Value()] == map[0 := Value()];
    }

    /** Reading copies the bytes of the array; past its end is an error. */
    method ReadAt(block: nat, len: nat) returns (r: Result<seq<Byte>, DiskError>)
      requires Valid()
      ensures r == if InRange(size, block, len)
                   then Ok(Contents(Value())[block * BLOCK_SIZE..block * BLOCK_SIZE + len])
                   else Err(EIO)
      ensures r.Ok? <==> block * BLOCK_SIZE + len <= Min(size, U64_MAX)
    {
      if block * BLOCK_SIZE > U64_MAX || block * BLOCK_SIZE + len > U64_MAX || block * BLOCK_SIZE + len > size {
        return Err(EIO);
      }
      hide Contents, Sized, G.Lookup, G.Visible;
      ghost var disk := Value();
      var buffer, address: nat := [], block;
      ghost var offset := block * BLOCK_SIZE;
      while |buffer| < len
        invariant |buffer| <= len && (|buffer| == len || offset + |buffer| == address * BLOCK_SIZE)
        invariant buffer == Contents(disk)[offset..offset + |buffer|]
        decreases len - |buffer|
      {
        var n := Min(BLOCK_SIZE, len - |buffer|);
        var stored := G.Lookup(blocks, address);
        NextSlice(disk, address, n, offset, |buffer|);
        buffer := buffer + if stored.Some? then stored.value.bytes[..n] else Zeros(n);
        address := address + 1;
      }
      return Ok(buffer);
    }

    /** Log one block: address, id, bytes. */
    method Append(address: nat, block: Block)
      requires Valid() && Fits(Record(address, block.id, block.bytes))
      modifies lineage`bytes
      ensures Valid()
      ensures lineage.Files() == old(lineage.Files())[handle := old(lineage.Files()[handle]).(
        records := old(lineage.Files()[handle]).records + [Record(address, block.id, block.bytes)])]
    {
      ghost var r := Record(address, block.id, block.bytes);
      var file := lineage.bytes[handle];
      file := file + Word(address, 8);
      file := file + Word(block.id, 8);
      file := file + block.bytes;
      assert file == lineage.bytes[handle] + Encode(r);
      AppendRecord(lineage.bytes[handle], r);
      lineage.bytes := lineage.bytes[handle := file];
    }

    /** Write one chunk at the start of a block. */
    method WriteBlockChunk(address: nat, chunk: seq<Byte>)
      requires Valid() && |chunk| <= BLOCK_SIZE && address <= U64_MAX
      modifies `blocks, lineage`bytes, lineage`nextBlock
      ensures Valid() && lineage.nextBlock == Wrapped(old(lineage.nextBlock))
      ensures Writable(old(Alone()), 0)
      ensures Alone() == WriteChunk(old(Alone()), 0, address, chunk).(nextBlock := lineage.nextBlock)
    {
      hide Parse, Decoded, G.VisibleIn, G.LookupIn;
      var stored := G.Lookup(blocks, address);
      G.LookupIsVisible(blocks, address);
      var bytes := if stored.Some? then stored.value.bytes else Zeros(BLOCK_SIZE);
      bytes := Splice(bytes, 0, chunk);
      var block := Block(lineage.nextBlock, bytes);
      lineage.nextBlock := Wrapped(lineage.nextBlock);
      blocks := G.Put(blocks, address, block);
      Append(address, block);
    }

    /** The same, as a change of the array, and as the machine's write if an id is left after it. */
    method WriteOne(address: nat, chunk: seq<Byte>)
      requires Valid() && |chunk| <= BLOCK_SIZE && InRange(size, address, |chunk|)
      modifies `blocks, lineage`bytes, lineage`nextBlock
      ensures Valid() && Contents(Value()) == Splice(old(Contents(Value())), address * BLOCK_SIZE, chunk)
      ensures Writable(old(Alone()), 0)
      ensures old(lineage.nextBlock) < U64_MAX ==>
        Alone() == WriteChunk(old(Alone()), 0, address, chunk) && lineage.nextBlock == old(lineage.nextBlock) + 1
    {
      hide Sized, Parse, Contents, WriteChunk;
      AloneIsWritable();
      OnlyDisk();
      WriteChunkSplices(Alone(), 0, address, chunk);
      ghost var t := WriteChunk(Alone(), 0, address, chunk);
      assert lineage.nextBlock < U64_MAX ==> t.nextBlock == lineage.nextBlock + 1 by { NextAfter(Alone(), 0, address, chunk); }
      WriteBlockChunk(address, chunk);
      OnlyDisk();
      assert t.(nextBlock := t.nextBlock) == t;
    }

    static lemma NextAfter(w: World, d: DiskId, address: nat, chunk: seq<Byte>)
      requires Writable(w, d) && |chunk| <= BLOCK_SIZE
      ensures WriteChunk(w, d, address, chunk).nextBlock == w.nextBlock + 1
    {
    }

    /** Write a buffer that is known to fit. */
    method WriteBlocks(block: nat, buffer: seq<Byte>)
      requires Valid() && InRange(size, block, |buffer|)
      modifies `blocks, lineage`bytes, lineage`nextBlock
      ensures Valid() && Contents(Value()) == Splice(old(Contents(Value())), block * BLOCK_SIZE, buffer)
      ensures Writable(old(Alone()), 0)
      ensures old(lineage.nextBlock) + Chunks(|buffer|) <= U64_MAX ==> Alone() == WriteChunks(old(Alone()), 0, block, buffer)
    {
      hide WriteChunk, WriteChunks, Contents, Sized, Parse, Alone, G.Visible, Chunks, Splice;
      ghost var w, was, first := Alone(), Contents(Value()), lineage.nextBlock;
      AloneIsWritable();
      var address: nat, done := block, 0;
      SpliceStart(was, block * BLOCK_SIZE, buffer);
      while done < |buffer|
        invariant Valid() && Writable(Alone(), 0) && done <= |buffer|
        invariant done < |buffer| ==> address * BLOCK_SIZE == block * BLOCK_SIZE + done
        invariant Contents(Value()) == Splice(was, block * BLOCK_SIZE, buffer[..done])
        invariant first + Chunks(|buffer|) <= U64_MAX ==>
          && lineage.nextBlock + Chunks(|buffer| - done) <= U64_MAX
          && WriteChunks(Alone(), 0, address, buffer[done..]) == WriteChunks(w, 0, block, buffer)
        decreases |buffer| - done
      {
        var n := Min(BLOCK_SIZE, |buffer| - done);
        WriteChunksAt(Alone(), 0, address, buffer, done);
        ChunksStep(|buffer| - done);
        SpliceNext(was, block * BLOCK_SIZE, buffer, done, n);
        WriteOne(address, buffer[done..done + n]);
        AloneIsWritable();
        address, done := address + 1, done + n;
      }
      WriteChunksStep(Alone(), 0, address, []);
      assert buffer[..done] == buffer && buffer[done..] == [];
    }

    static lemma ChunksStep(len: nat)
      requires len > 0
      ensures Chunks(len) == 1 + Chunks(len - Min(BLOCK_SIZE, len))
    {
    }

    static lemma WriteChunksAt(w: World, d: DiskId, address: nat, buffer: seq<Byte>, from: nat)
      requires Writable(w, d) && from < |buffer|
      ensures var n := Min(BLOCK_SIZE, |buffer| - from);
        WriteChunks(w, d, address, buffer[from..])
        == WriteChunks(WriteChunk(w, d, address, buffer[from..from + n]), d, address + 1, buffer[from + n..])
    {
      hide WriteChunk, Writable;
      var n, rest := Min(BLOCK_SIZE, |buffer| - from), buffer[from..];
      assert rest[..n] == buffer[from..from + n] && rest[n..] == buffer[from + n..];
      WriteChunksStep(w, d, address, rest);
    }

    static lemma SpliceStart(was: seq<Byte>, offset: nat, buffer: seq<Byte>)
      requires offset + |buffer| <= |was|
      ensures Splice(was, offset, buffer[..0]) == was && buffer[0..] == buffer
    {
    }

    static lemma SpliceNext(was: seq<Byte>, offset: nat, buffer: seq<Byte>, from: nat, n: nat)
      requires from + n <= |buffer| && offset + |buffer| <= |was|
      ensures Splice(Splice(was, offset, buffer[..from]), offset + from, buffer[from..from + n])
           == Splice(was, offset, buffer[..from + n])
    {
      SpliceTwice(was, offset, buffer[..from], buffer[from..from + n]);
      assert buffer[..from] + buffer[from..from + n] == buffer[..from + n];
    }

    /**
     Writing replaces exactly the bytes of the array; past its end is an error
     and changes nothing. It is the machine's write while block ids last.
     */
    method WriteAt(block: nat, buffer: seq<Byte>) returns (r: Result<nat, DiskError>)
      requires Valid()
      modifies `blocks, lineage`bytes, lineage`nextBlock
      ensures Valid()
      ensures r == if block * BLOCK_SIZE + |buffer| <= Min(size, U64_MAX) then Ok(|buffer|) else Err(EIO)
      ensures r.Err? ==> unchanged(this) && unchanged(lineage)
      ensures r.Ok? ==> Contents(Value()) == Splice(old(Contents(Value())), block * BLOCK_SIZE, buffer)
      ensures Writable(old(Alone()), 0)
      ensures r.Ok? && old(lineage.nextBlock) + Chunks(|buffer|) <= U64_MAX ==>
        Alone() == WriteChunks(old(Alone()), 0, block, buffer)
    {
      AloneIsWritable();
      if block * BLOCK_SIZE > U64_MAX || block * BLOCK_SIZE + |buffer| > U64_MAX || block * BLOCK_SIZE + |buffer| > size {
        return Err(EIO);
      }
      hide WriteChunk, WriteChunks, Contents, Sized, Parse, Alone;
      WriteBlocks(block, buffer);
      return Ok(|buffer|);
    }

    /** Continue on a new overlay, the old one a layer if it holds anything. */
    method ContinueOnNewOverlay(seal: bool)
      requires Valid() && seal == (blocks.changes != map[])
      modifies this, lineage
      ensures Valid()
      ensures Alone() == Continue(old(Alone()), 0)
    {
      hide Lineage.Files, G.VisibleIn, FreeNumber;
      ghost var w := Alone();
      if seal {
        var layer := lineage.LinkNumbered(handle);
        layers := layers + [layer];
        blocks := G.Branch(G.Generation(Some(blocks.base), blocks.changes), map[]);
      }
      assert (lineage.With(w.disks), layers) == Sealed(w, 0) && blocks == G.Seal(w.disks[0].blocks);
      overlay, handle := lineage.CreateNumbered();
      SameKey(0, w.disks[0], Value());
    }

    /** The disk and its child are what a fork makes of the disk. */
    method Fork() returns (child: CowDisk)
      requires Valid()
      modifies this, lineage
      ensures Valid() && child.Valid() && child.lineage == lineage && fresh(child)
      ensures lineage.With(map[0 := Value(), 1 := child.Value()]) == DiskLog.Fork(old(Alone()), 0, 1)
    {
      hide Continue;
      if blocks.changes != map[] {
        ContinueOnNewOverlay(true);
      }
      child := new CowDisk.Over(lineage, size, blocks, layers);
      assert map[0 := Value()][1 := child.Value()] == map[0 := Value(), 1 := child.Value()];
    }

    /** A disk over given layers, logging to a new overlay. */
    constructor Over(lineage: Lineage, size: nat, blocks: G.Branch<nat, Block>, layers: seq<nat>)
      requires Sized(G.Visible(blocks))
      modifies lineage
      ensures this.lineage == lineage && Valid()
      ensures lineage.nextBlock == old(lineage.nextBlock) && lineage.nextInode == handle + 1 && lineage.nextName == overlay + 1
      ensures lineage.bytes == old(lineage.bytes)[handle := []]
      ensures lineage.names == old(lineage.names)[Overlay(overlay) := handle]
      ensures lineage.Files() == old(lineage.Files())[handle := File([], false)]
      ensures Value() == Disk(size, blocks, Durable(layers, FreeNumber(old(lineage.names).Keys, false, old(lineage.nextName)),
                                                    old(lineage.nextInode)))
    {
      this.lineage, this.size, this.blocks, this.layers := lineage, size, blocks, layers;
      new;
      overlay, handle := lineage.CreateNumbered();
    }

    /** The checkpoint names the disk as it was; the disk continues on another overlay. */
    method Checkpoint() returns (state: Published)
      requires Valid()
      modifies this, lineage
      ensures Valid()
      ensures state == StateOf(old(Alone()), 0)
      ensures Alone().(published := [state]) == DiskLog.Checkpoint(old(Alone()), 0)
    {
      state := Published(size, layers, overlay, 0, G.Visible(blocks));
      ContinueOnNewOverlay(blocks.changes != map[]);
    }
  }

  lemma SameKey(d: DiskId, a: Disk, b: Disk)
    ensures map[d := a][d := b] == map[d := b]
  {
  }
}
