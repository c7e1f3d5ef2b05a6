/**
 What every step of the durable disks keeps: each disk's files replay to the
 blocks it shows, and no file a checkpoint or a layer names is still appended to.
 */
module DiskInvariant {
  import opened Basics
  import opened DiskLog
  import G = Generations

  // ---------------------------------------------------------------------
  // Names and files
  // ---------------------------------------------------------------------

  /** The name is a whole file. */
  predicate FileOk(w: World, name: Name) {
    name in w.names && w.names[name] in w.files && !w.files[w.names[name]].torn
  }

  predicate LayersOk(w: World, layers: seq<nat>) {
    forall l {:trigger FileOk(w, Layer(l))} :: l in layers ==> FileOk(w, Layer(l))
  }

  /** Fresh file numbers are fresh. */
  predicate NameOk(w: World, name: Name) {
    name in w.names ==> w.names[name] < w.nextInode
  }

  // ---------------------------------------------------------------------
  // Open disks and checkpoints
  // ---------------------------------------------------------------------

  /** The layers replay to the sealed generations, the overlay to the private blocks. */
  predicate DiskOk(w: World, d: DiskId) {
    d in w.disks ==>
      var disk := w.disks[d];
      && FileOk(w, Overlay(disk.durable.overlay))
      && w.names[Overlay(disk.durable.overlay)] == disk.durable.handle
      && LayersOk(w, disk.durable.layers)
      && Replay(LayerRecords(w, disk.durable.layers)) == G.VisibleIn(disk.blocks.base)
      && Replay(w.files[disk.durable.handle].records) == disk.blocks.changes
      && (disk.blocks.changes == map[] ==> w.files[disk.durable.handle].records == [])
  }

  /** A checkpoint's files replay to the blocks it stands for. */
  predicate StateOk(w: World, p: nat) {
    p < |w.published| ==>
      var state := w.published[p];
      && state.epoch <= w.epoch
      && FileOk(w, Overlay(state.overlay))
      && LayersOk(w, state.layers)
      && Replay(DiskRecords(w, state.layers, state.overlay)) == state.visible
  }

  // ---------------------------------------------------------------------
  // No sealed file is still written
  // ---------------------------------------------------------------------

  predicate HandlesApart(w: World, d: DiskId, e: DiskId) {
    d in w.disks && e in w.disks && d != e ==> w.disks[d].durable.handle != w.disks[e].durable.handle
  }

  /** Disk `d` does not append to a layer of disk `e`. */
  predicate LayerApart(w: World, d: DiskId, e: DiskId, l: nat) {
    d in w.disks && e in w.disks && l in w.disks[e].durable.layers && Layer(l) in w.names ==>
      w.names[Layer(l)] != w.disks[d].durable.handle
  }

  predicate Names(state: Published, name: Name) {
    name == Overlay(state.overlay) || (name.Layer? && name.number in state.layers)
  }

  /** Disk `d` does not append to a file of checkpoint `p`. */
  predicate StateApart(w: World, d: DiskId, p: nat, name: Name) {
    d in w.disks && p < |w.published| && Names(w.published[p], name) && name in w.names ==>
      w.names[name] != w.disks[d].durable.handle
  }

  // ---------------------------------------------------------------------
  // Logs
  // ---------------------------------------------------------------------

  /** Everything an open disk, or a checkpoint, has recorded. */
  function LogOf(w: World, d: DiskId): seq<Record>
    requires d in w.disks
  {
    DiskRecords(w, w.disks[d].durable.layers, w.disks[d].durable.overlay)
  }

  function StateLog(w: World, p: nat): seq<Record>
    requires p < |w.published|
  {
    DiskRecords(w, w.published[p].layers, w.published[p].overlay)
  }

  // ---------------------------------------------------------------------
  // The invariant
  // ---------------------------------------------------------------------

  ghost predicate FilesInv(w: World) {
    && (forall name {:trigger NameOk(w, name)} :: NameOk(w, name))
    && (forall d {:trigger DiskOk(w, d)} :: DiskOk(w, d))
    && (forall p {:trigger StateOk(w, p)} :: StateOk(w, p))
  }

  ghost predicate ApartInv(w: World) {
    && (forall d, e {:trigger HandlesApart(w, d, e)} :: HandlesApart(w, d, e))
    && (forall d, e, l {:trigger LayerApart(w, d, e, l)} :: LayerApart(w, d, e, l))
    && (forall d, p, name {:trigger StateApart(w, d, p, name)} :: StateApart(w, d, p, name))
  }

  ghost predicate Inv(w: World) {
    FilesInv(w) && ApartInv(w)
  }

  // ---------------------------------------------------------------------
  // Directories that grow
  // ---------------------------------------------------------------------

  /** A file of `w` is in `t` under the same name and with the same records. */
  predicate Kept(w: World, t: World, name: Name) {
    name in w.names && w.names[name] in w.files ==>
      && name in t.names && t.names[name] == w.names[name]
      && t.names[name] in t.files && t.files[t.names[name]] == w.files[w.names[name]]
  }

  ghost predicate Grows(w: World, t: World) {
    forall name {:trigger Kept(w, t, name)} :: Kept(w, t, name)
  }

  lemma GrownRecords(w: World, t: World, layers: seq<nat>, overlay: nat)
    requires Grows(w, t) && LayersOk(w, layers)
    ensures LayersOk(t, layers) && LayerRecords(t, layers) == LayerRecords(w, layers)
    ensures FileOk(w, Overlay(overlay)) ==>
      && FileOk(t, Overlay(overlay)) && RecordsOf(t, Overlay(overlay)) == RecordsOf(w, Overlay(overlay))
      && DiskRecords(t, layers, overlay) == DiskRecords(w, layers, overlay)
  {
    forall l | l in layers
      ensures FileOk(t, Layer(l)) && RecordsOf(w, Layer(l)) == RecordsOf(t, Layer(l))
    {
      assert FileOk(w, Layer(l));
      assert Kept(w, t, Layer(l));
    }
    SameLayerRecords(w, t, layers);
    if FileOk(w, Overlay(overlay)) {
      assert Kept(w, t, Overlay(overlay));
    }
  }

  /** A layer name for a file no disk appends to, or about to be given up, changes nothing. */
  lemma LinkKeepsInv(w: World, file: Inode)
    requires Inv(w) && file in w.files && file < w.nextInode
    ensures var (t, layer) := LinkLayer(w, file); Inv(t) && Grows(w, t) && t.disks == w.disks
    ensures var (t, layer) := LinkLayer(w, file);
      Layer(layer) !in w.names && RecordsOf(t, Layer(layer)) == w.files[file].records
  {
    var (t, layer) := LinkLayer(w, file);
    forall name ensures NameOk(t, name) { assert NameOk(w, name); }
    QuietKeepsInv(w, t);
  }

  /** Same disks and checkpoints over a grown directory. */
  lemma QuietKeepsInv(w: World, t: World)
    requires Inv(w) && Grows(w, t)
    requires t.disks == w.disks && t.published == w.published && t.epoch == w.epoch
    requires forall name {:trigger NameOk(t, name)} :: NameOk(t, name)
    ensures Inv(t)
  {
    DisksGrow(w, t);
    StatesGrow(w, t);
    forall d ensures DiskOk(t, d) { assert d in t.disks ==> LogOf(t, d) == LogOf(w, d); }
    forall d, e ensures HandlesApart(t, d, e) { assert HandlesApart(w, d, e); }
    forall d, e, l ensures LayerApart(t, d, e, l) {
      assert LayerApart(w, d, e, l) && DiskOk(w, e) && Kept(w, t, Layer(l));
      assert FileOk(w, Layer(l)) || !FileOk(w, Layer(l));
    }
    forall d, p, name ensures StateApart(t, d, p, name) {
      assert StateApart(w, d, p, name) && StateOk(w, p) && Kept(w, t, name);
      assert FileOk(w, Layer(name.number)) || !FileOk(w, Layer(name.number));
    }
  }

  lemma DisksGrow(w: World, t: World)
    requires Inv(w) && Grows(w, t)
    ensures forall d {:trigger LogOf(t, d)} :: d in w.disks && d in t.disks && t.disks[d] == w.disks[d] ==>
      LogOf(t, d) == LogOf(w, d) && DiskOk(t, d)
  {
    forall d | d in w.disks && d in t.disks && t.disks[d] == w.disks[d]
      ensures LogOf(t, d) == LogOf(w, d) && DiskOk(t, d)
    {
      assert DiskOk(w, d) && Kept(w, t, Overlay(w.disks[d].durable.overlay));
      GrownRecords(w, t, w.disks[d].durable.layers, w.disks[d].durable.overlay);
    }
  }

  /** Checkpoints read the same in a grown directory. */
  lemma StatesGrow(w: World, t: World)
    requires Inv(w) && Grows(w, t)
    requires |w.published| <= |t.published| && t.published[..|w.published|] == w.published && t.epoch == w.epoch
    ensures forall p: nat :: p < |w.published| ==> StateOk(t, p) && StateLog(t, p) == StateLog(w, p)
  {
    forall p: nat | p < |w.published| ensures StateOk(t, p) && StateLog(t, p) == StateLog(w, p) {
      assert StateOk(w, p) && t.published[p] == w.published[p];
      GrownRecords(w, t, w.published[p].layers, w.published[p].overlay);
    }
  }
}
