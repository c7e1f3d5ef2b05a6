/** Every step of the durable disks keeps the invariant and the blocks it should. */
module DiskSteps {
  import opened Basics
  import opened DiskLog
  import opened DiskInvariant
  import G = Generations

  // ---------------------------------------------------------------------
  // Opening a disk over sealed layers
  // ---------------------------------------------------------------------

  /** No disk but `d` appends to layer `l`. */
  predicate LayerFree(w: World, d: DiskId, e: DiskId, l: nat) {
    e in w.disks && e != d && Layer(l) in w.names ==> w.names[Layer(l)] != w.disks[e].durable.handle
  }

  /** A disk may be opened over these layers, in place of disk `d` if that is open. */
  ghost predicate CanOpen(w: World, d: DiskId, layers: seq<nat>) {
    && LayersOk(w, layers)
    && (forall e, l {:trigger LayerFree(w, d, e, l)} :: l in layers ==> LayerFree(w, d, e, l))
  }

  /** The disks other than `d`, and the checkpoints, have the logs they had. */
  ghost predicate OtherLogs(w: World, t: World, d: DiskId) {
    && (forall e {:trigger LogOf(t, e)} :: e in w.disks && e in t.disks && e != d ==> LogOf(t, e) == LogOf(w, e))
    && |w.published| <= |t.published|
    && (forall p: nat {:trigger StateLog(t, p)} :: p < |w.published| ==> StateLog(t, p) == StateLog(w, p))
  }

  /** What stays apart from one disk and the directory. */
  predicate SameRest(w: World, t: World, d: DiskId) {
    && d in t.disks && t.disks == w.disks[d := t.disks[d]]
    && t.published == w.published && t.epoch == w.epoch && t.nextBlock == w.nextBlock
  }

  lemma OpenKeepsInv(w: World, d: DiskId, size: nat, blocks: G.Branch<nat, Block>, layers: seq<nat>)
    requires Inv(w) && CanOpen(w, d, layers)
    requires blocks.changes == map[] && Replay(LayerRecords(w, layers)) == G.VisibleIn(blocks.base)
    ensures var t := OpenDisk(w, d, size, blocks, layers);
      && Inv(t) && Grows(w, t) && SameRest(w, t, d)
      && LogOf(t, d) == LayerRecords(w, layers) && OtherLogs(w, t, d)
  {
    var t := OpenDisk(w, d, size, blocks, layers);
    OpenGrows(w, d, size, blocks, layers);
    DisksGrow(w, t);
    StatesGrow(w, t);
    OpenedDisk(w, d, size, blocks, layers);
    OpenApart(w, d, size, blocks, layers);
    assert SameRest(w, t, d);
    hide OpenDisk, Grows, ApartInv, CanOpen;
    forall e ensures DiskOk(t, e) {
      assert e in w.disks && e != d ==> LogOf(t, e) == LogOf(w, e);
    }
  }

  lemma OpenedDisk(w: World, d: DiskId, size: nat, blocks: G.Branch<nat, Block>, layers: seq<nat>)
    requires Inv(w) && CanOpen(w, d, layers)
    requires blocks.changes == map[] && Replay(LayerRecords(w, layers)) == G.VisibleIn(blocks.base)
    ensures var t := OpenDisk(w, d, size, blocks, layers);
      DiskOk(t, d) && d in t.disks && LogOf(t, d) == LayerRecords(w, layers)
  {
    var t := OpenDisk(w, d, size, blocks, layers);
    OpenGrows(w, d, size, blocks, layers);
    GrownRecords(w, t, layers, 0);
  }

  lemma OpenGrows(w: World, d: DiskId, size: nat, blocks: G.Branch<nat, Block>, layers: seq<nat>)
    requires FilesInv(w)
    ensures var t := OpenDisk(w, d, size, blocks, layers);
      Grows(w, t) && (forall name {:trigger NameOk(t, name)} :: NameOk(t, name))
  {
    var t := OpenDisk(w, d, size, blocks, layers);
    forall name ensures NameOk(t, name) && Kept(w, t, name) { assert NameOk(w, name); }
  }

  lemma OpenApart(w: World, d: DiskId, size: nat, blocks: G.Branch<nat, Block>, layers: seq<nat>)
    requires Inv(w) && CanOpen(w, d, layers)
    ensures ApartInv(OpenDisk(w, d, size, blocks, layers))
  {
    var t := OpenDisk(w, d, size, blocks, layers);
    forall a, b ensures HandlesApart(t, a, b) {
      assert HandlesApart(w, a, b) && DiskOk(w, a) && DiskOk(w, b);
      HandleIsOld(w, a);
      HandleIsOld(w, b);
    }
    forall a, b, l ensures LayerApart(t, a, b, l) {
      assert LayerApart(w, a, b, l) && (l in layers ==> LayerFree(w, d, a, l)) && NameOk(w, Layer(l));
      assert DiskOk(w, b) && (FileOk(w, Layer(l)) || !FileOk(w, Layer(l)));
    }
    forall a, p, name ensures StateApart(t, a, p, name) {
      assert StateApart(w, a, p, name) && NameOk(w, name) && StateOk(w, p);
      assert FileOk(w, Layer(name.number)) || !FileOk(w, Layer(name.number));
    }
  }

  lemma HandleIsOld(w: World, d: DiskId)
    requires FilesInv(w)
    ensures d in w.disks ==> w.disks[d].durable.handle < w.nextInode
  {
    assert DiskOk(w, d);
    if d in w.disks {
      assert NameOk(w, Overlay(w.disks[d].durable.overlay));
    }
  }

  // ---------------------------------------------------------------------
  // Sealing, forking and checkpointing
  // ---------------------------------------------------------------------

  /** A disk's log replays to everything it shows. */
  lemma LogReplays(w: World, d: DiskId)
    requires Inv(w) && d in w.disks
    ensures Replay(LogOf(w, d)) == G.Visible(w.disks[d].blocks)
  {
    assert DiskOk(w, d);
    var durable := w.disks[d].durable;
    ReplayConcat(LayerRecords(w, durable.layers), RecordsOf(w, Overlay(durable.overlay)));
  }

  lemma SealedKeepsInv(w: World, d: DiskId)
    requires Inv(w) && d in w.disks
    ensures var (v, layers) := Sealed(w, d);
      && Inv(v) && Grows(w, v) && v.disks == w.disks
      && v.published == w.published && v.epoch == w.epoch && v.nextBlock == w.nextBlock
      && LayerRecords(v, layers) == LogOf(w, d) && LogOf(v, d) == LogOf(w, d)
      && LayersOk(v, layers)
      && (forall e, l {:trigger LayerFree(v, d, e, l)} :: l in layers ==> LayerFree(v, d, e, l))
  {
    var durable := w.disks[d].durable;
    var (v, layers) := Sealed(w, d);
    assert DiskOk(w, d);
    HandleIsOld(w, d);
    if w.disks[d].blocks.changes != map[] {
      LinkKeepsInv(w, durable.handle);
      GrownRecords(w, v, durable.layers, durable.overlay);
      LayerRecordsPush(v, durable.layers, layers[|durable.layers|]);
    }
    forall e, l | l in layers ensures LayerFree(v, d, e, l) {
      assert LayerApart(v, e, d, l) && HandlesApart(v, e, d);
    }
    forall l | l in layers ensures FileOk(v, Layer(l)) {
      assert l in durable.layers ==> FileOk(w, Layer(l)) && Kept(w, v, Layer(l));
    }
  }

  /** A sealed disk gains one layer exactly when its overlay holds a record, and the layer holds what the overlay did. */
  lemma SealedWhenWritten(w: World, d: DiskId)
    requires Inv(w) && d in w.disks
    ensures var disk := w.disks[d].durable;
      var records := RecordsOf(w, Overlay(disk.overlay));
      var (v, layers) := Sealed(w, d);
      if records == [] then v == w && layers == disk.layers
      else && |layers| == |disk.layers| + 1 && layers[..|disk.layers|] == disk.layers
           && RecordsOf(v, Layer(layers[|disk.layers|])) == records
  {
    var disk := w.disks[d];
    assert DiskOk(w, d) && NameOk(w, Overlay(disk.durable.overlay));
    if disk.blocks.changes != map[] {
      LinkKeepsInv(w, disk.durable.handle);
    }
  }

  lemma ContinueKeepsInv(w: World, d: DiskId)
    requires Inv(w) && d in w.disks
    ensures var t := Continue(w, d);
      && Inv(t) && Grows(w, t) && SameRest(w, t, d)
      && LogOf(t, d) == LogOf(w, d) && OtherLogs(w, t, d)
      && G.Visible(t.disks[d].blocks) == G.Visible(w.disks[d].blocks)
      && t.disks[d].blocks.changes == map[] && t.disks[d].size == w.disks[d].size
      && t.disks[d].durable.handle == w.nextInode
  {
    var (v, layers) := Sealed(w, d);
    SealedKeepsInv(w, d);
    LogReplays(w, d);
    var blocks := G.Seal(w.disks[d].blocks);
    assert G.Visible(blocks) == G.VisibleIn(blocks.base);
    OpenKeepsInv(v, d, w.disks[d].size, blocks, layers);
    GrowsTwice(w, v, Continue(w, d));
    GrownLogs(w, Continue(w, d), d);
  }

  /** Over a grown directory the other disks and the checkpoints have the logs they had. */
  lemma GrownLogs(w: World, t: World, d: DiskId)
    requires Inv(w) && Grows(w, t) && SameRest(w, t, d)
    ensures OtherLogs(w, t, d)
  {
    DisksGrow(w, t);
    StatesGrow(w, t);
  }

  lemma GrowsTwice(a: World, b: World, c: World)
    requires Grows(a, b) && Grows(b, c)
    ensures Grows(a, c)
  {
    forall name ensures Kept(a, c, name) { assert Kept(a, b, name) && Kept(b, c, name); }
  }

  /** A child over the layers of a disk without private blocks. */
  lemma ChildKeepsInv(w: World, d: DiskId, child: DiskId)
    requires Inv(w) && d in w.disks && child !in w.disks && w.disks[d].blocks.changes == map[]
    ensures var t := OpenDisk(w, child, w.disks[d].size, w.disks[d].blocks, w.disks[d].durable.layers);
      Inv(t) && Grows(w, t) && SameRest(w, t, child) && LogOf(t, child) == LogOf(w, d) && OtherLogs(w, t, child)
  {
    var layers := w.disks[d].durable.layers;
    assert DiskOk(w, d);
    assert LogOf(w, d) == LayerRecords(w, layers);
    forall e, l | l in layers ensures LayerFree(w, child, e, l) { assert LayerApart(w, e, d, l); }
    OpenKeepsInv(w, child, w.disks[d].size, w.disks[d].blocks, layers);
  }

  /** After a fork both disks show, and have recorded, what the source had. */
  lemma ForkKeepsInv(w: World, d: DiskId, child: DiskId)
    requires Inv(w) && d in w.disks && child !in w.disks
    ensures var t := Fork(w, d, child);
      && Inv(t) && Grows(w, t) && d in t.disks && child in t.disks
      && t.disks == w.disks[d := t.disks[d]][child := t.disks[child]]
      && t.published == w.published && t.epoch == w.epoch && t.nextBlock == w.nextBlock
      && G.Visible(t.disks[d].blocks) == G.Visible(t.disks[child].blocks) == G.Visible(w.disks[d].blocks)
      && t.disks[d].size == t.disks[child].size == w.disks[d].size
      && LogOf(t, d) == LogOf(t, child) == LogOf(w, d) && OtherLogs(w, t, d)
  {
    hide Inv, Continue, LogOf, StateLog;
    if w.disks[d].blocks.changes != map[] {
      var v := Continue(w, d);
      ContinueKeepsInv(w, d);
      ChildKeepsInv(v, d, child);
      GrowsTwice(w, v, Fork(w, d, child));
    } else {
      ChildKeepsInv(w, d, child);
    }
  }

  /** The checkpoint's files are whole, replay to the disk's blocks, and are no longer appended to. */
  lemma CheckpointKeepsInv(w: World, d: DiskId)
    requires Inv(w) && d in w.disks
    ensures var t := Checkpoint(w, d);
      && Inv(t) && Grows(w, t) && d in t.disks && t.disks == w.disks[d := t.disks[d]]
      && t.published == w.published + [StateOf(w, d)] && t.epoch == w.epoch && t.nextBlock == w.nextBlock
      && G.Visible(t.disks[d].blocks) == G.Visible(w.disks[d].blocks)
      && t.disks[d].size == w.disks[d].size
      && LogOf(t, d) == StateLog(t, |w.published|) == LogOf(w, d) && OtherLogs(w, t, d)
  {
    hide Continue, Replay;
    var v, t := Continue(w, d), Checkpoint(w, d);
    ContinueKeepsInv(w, d);
    forall name ensures NameOk(t, name) && Kept(v, t, name) { assert NameOk(v, name); }
    GrowsTwice(w, v, t);
    CheckpointFiles(w, d);
    CheckpointApart(w, d);
    DisksGrow(v, t);
    StatesGrow(v, t);
    forall e ensures DiskOk(t, e) { assert e in v.disks ==> LogOf(t, e) == LogOf(v, e); }
    forall p: nat ensures StateOk(t, p) { assert p < |w.published| || p == |w.published| || p > |w.published|; }
    forall a, b ensures HandlesApart(t, a, b) { assert HandlesApart(v, a, b); }
    forall a, b, l ensures LayerApart(t, a, b, l) { assert LayerApart(v, a, b, l); }
  }

  lemma CheckpointFiles(w: World, d: DiskId)
    requires Inv(w) && d in w.disks
    ensures var t, last := Checkpoint(w, d), |w.published|;
      last < |t.published| && StateOk(t, last) && StateLog(t, last) == LogOf(w, d)
  {
    var v, t := Continue(w, d), Checkpoint(w, d);
    var durable := w.disks[d].durable;
    ContinueKeepsInv(w, d);
    assert DiskOk(w, d);
    GrownRecords(w, v, durable.layers, durable.overlay);
    assert Grows(v, t) by { forall name ensures Kept(v, t, name) { } }
    GrownRecords(v, t, durable.layers, durable.overlay);
    LogReplays(w, d);
  }

  lemma CheckpointApart(w: World, d: DiskId)
    requires Inv(w) && d in w.disks
    ensures var t := Checkpoint(w, d); forall a, p, name {:trigger StateApart(t, a, p, name)} :: StateApart(t, a, p, name)
  {
    var v, t := Continue(w, d), Checkpoint(w, d);
    ContinueKeepsInv(w, d);
    forall a, p: nat, name ensures StateApart(t, a, p, name) {
      assert StateApart(v, a, p, name);
      if p == |w.published| && a in t.disks && Names(t.published[p], name) {
        assert DiskOk(w, d) && Kept(w, v, name) && NameOk(w, name);
        assert HandlesApart(w, a, d) && LayerApart(w, a, d, name.number);
        assert name.Layer? ==> FileOk(w, Layer(name.number));
      }
    }
  }

  // ---------------------------------------------------------------------
  // Writing
  // ---------------------------------------------------------------------

  /** Disk `d` shows the block at the address, every other disk what it showed. */
  lemma WriteKeepsInv(w: World, d: DiskId, address: nat, bytes: seq<Byte>)
    requires Inv(w) && d in w.disks && w.disks[d].durable.handle in w.files
    ensures var t := WriteBlock(w, d, address, bytes);
      && Inv(t) && d in t.disks && t.disks == w.disks[d := t.disks[d]] && t.disks[d].size == w.disks[d].size
      && t.published == w.published && t.epoch == w.epoch && t.nextBlock == w.nextBlock + 1
      && G.Visible(t.disks[d].blocks) == G.Visible(w.disks[d].blocks)[address := Block(w.nextBlock, bytes)]
      && LogOf(t, d) == LogOf(w, d) + [Record(address, w.nextBlock, bytes)] && OtherLogs(w, t, d)
  {
    hide DiskOk, StateOk, Replay, LogOf, StateLog;
    var t := WriteBlock(w, d, address, bytes);
    WriteLogs(w, d, address, bytes);
    WriteKeepsStates(w, d, address, bytes);
    forall name ensures NameOk(t, name) { assert NameOk(w, name); }
    forall a, b ensures HandlesApart(t, a, b) { assert HandlesApart(w, a, b); }
    forall a, b, l ensures LayerApart(t, a, b, l) { assert LayerApart(w, a, b, l); }
    forall a, p, name ensures StateApart(t, a, p, name) { assert StateApart(w, a, p, name); }
  }

  /** Only the writer's log grows, by the one record. */
  lemma WriteLogs(w: World, d: DiskId, address: nat, bytes: seq<Byte>)
    requires Inv(w) && d in w.disks && w.disks[d].durable.handle in w.files
    ensures var t := WriteBlock(w, d, address, bytes);
      && LogOf(t, d) == LogOf(w, d) + [Record(address, w.nextBlock, bytes)]
      && (forall e {:trigger LogOf(t, e)} :: e in w.disks && e != d ==> LogOf(t, e) == LogOf(w, e))
      && (forall e {:trigger DiskOk(t, e)} :: DiskOk(t, e))
  {
    var t := WriteBlock(w, d, address, bytes);
    forall e ensures DiskOk(t, e) && (e in w.disks && e != d ==> LogOf(t, e) == LogOf(w, e)) {
      if e in w.disks {
        assert DiskOk(w, e) && HandlesApart(w, d, e);
        WriteKeepsLayers(w, d, address, bytes, e);
        if e == d {
          ReplayConcat(w.files[w.disks[d].durable.handle].records, [Record(address, w.nextBlock, bytes)]);
          assert address in t.disks[d].blocks.changes;
        }
      }
    }
    assert DiskOk(w, d);
    WriteKeepsLayers(w, d, address, bytes, d);
  }

  lemma WriteKeepsLayers(w: World, d: DiskId, address: nat, bytes: seq<Byte>, e: DiskId)
    requires Inv(w) && d in w.disks && w.disks[d].durable.handle in w.files && e in w.disks
    ensures var t, layers := WriteBlock(w, d, address, bytes), w.disks[e].durable.layers;
      LayersOk(t, layers) && LayerRecords(t, layers) == LayerRecords(w, layers)
  {
    hide Replay, WriteBlock;
    var t := WriteBlock(w, d, address, bytes);
    assert DiskOk(w, e);
    WriteKeepsFiles(w, d, address, bytes);
    forall l | l in w.disks[e].durable.layers
      ensures RecordsOf(w, Layer(l)) == RecordsOf(t, Layer(l)) && FileOk(t, Layer(l))
    {
      assert LayerApart(w, d, e, l) && FileOk(w, Layer(l)) && Untouched(w, t, d, Layer(l));
    }
    SameLayerRecords(w, t, w.disks[e].durable.layers);
  }

  /** A name of a file disk `d` does not append to reads the same. */
  predicate Untouched(w: World, t: World, d: DiskId, name: Name)
    requires d in w.disks
  {
    name in w.names && w.names[name] != w.disks[d].durable.handle ==>
      RecordsOf(t, name) == RecordsOf(w, name) && (FileOk(w, name) ==> FileOk(t, name))
  }

  lemma WriteKeepsFiles(w: World, d: DiskId, address: nat, bytes: seq<Byte>)
    requires d in w.disks && w.disks[d].durable.handle in w.files
    ensures var t := WriteBlock(w, d, address, bytes);
      forall name {:trigger Untouched(w, t, d, name)} :: Untouched(w, t, d, name)
  {
  }

  lemma WriteKeepsStates(w: World, d: DiskId, address: nat, bytes: seq<Byte>)
    requires Inv(w) && d in w.disks && w.disks[d].durable.handle in w.files
    ensures var t := WriteBlock(w, d, address, bytes);
      && (forall p: nat :: p < |w.published| ==> StateLog(t, p) == StateLog(w, p))
      && (forall p {:trigger StateOk(t, p)} :: StateOk(t, p))
  {
    hide Replay;
    var t := WriteBlock(w, d, address, bytes);
    WriteKeepsFiles(w, d, address, bytes);
    forall p: nat ensures StateOk(t, p) && (p < |w.published| ==> StateLog(t, p) == StateLog(w, p)) {
      assert StateOk(w, p);
      if p < |w.published| {
        forall l | l in w.published[p].layers
          ensures RecordsOf(w, Layer(l)) == RecordsOf(t, Layer(l)) && FileOk(t, Layer(l))
        {
          assert StateApart(w, d, p, Layer(l)) && FileOk(w, Layer(l)) && Untouched(w, t, d, Layer(l));
        }
        SameLayerRecords(w, t, w.published[p].layers);
        var overlay := Overlay(w.published[p].overlay);
        assert StateApart(w, d, p, overlay) && Untouched(w, t, d, overlay);
      }
    }
  }
}
