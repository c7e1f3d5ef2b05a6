/** Checkpoints survive crashes and reopen as the disks they were taken of. */
module DiskRecovery {
  import opened Basics
  import opened DiskLog
  import opened DiskInvariant
  import opened DiskSteps
  import G = Generations

  // ---------------------------------------------------------------------
  // Crashing and restoring
  // ---------------------------------------------------------------------

  /** A crash may leave this directory: the files of checkpoints are as they were. */
  ghost predicate Survives(w: World, names: map<Name, Inode>, files: map<Inode, File>, nextInode: nat) {
    var t := Crash(w, names, files, nextInode);
    && (forall name {:trigger NameOk(t, name)} :: NameOk(t, name))
    && (forall p: nat, name {:trigger StateKept(w, t, p, name)} :: StateKept(w, t, p, name))
  }

  predicate StateKept(w: World, t: World, p: nat, name: Name) {
    p < |w.published| && Names(w.published[p], name) ==> Kept(w, t, name)
  }

  lemma CrashKeepsInv(w: World, names: map<Name, Inode>, files: map<Inode, File>, nextInode: nat)
    requires Inv(w) && Survives(w, names, files, nextInode)
    ensures var t := Crash(w, names, files, nextInode);
      Inv(t) && forall p: nat {:trigger StateLog(t, p)} :: p < |w.published| ==> StateLog(t, p) == StateLog(w, p)
  {
    var t := Crash(w, names, files, nextInode);
    forall p: nat ensures StateOk(t, p) && (p < |w.published| ==> StateLog(t, p) == StateLog(w, p)) {
      assert StateOk(w, p);
      if p < |w.published| {
        forall l | l in w.published[p].layers
          ensures RecordsOf(w, Layer(l)) == RecordsOf(t, Layer(l)) && FileOk(t, Layer(l))
        {
          assert StateKept(w, t, p, Layer(l)) && FileOk(w, Layer(l));
        }
        SameLayerRecords(w, t, w.published[p].layers);
        assert StateKept(w, t, p, Overlay(w.published[p].overlay));
      }
    }
  }

  lemma CountedKeepsInv(w: World, p: nat)
    requires Inv(w) && p < |w.published|
    ensures Inv(Counted(w, p)) && Grows(w, Counted(w, p)) && Counted(w, p).nextBlock == MaxId(StateLog(w, p), w.nextBlock)
  {
    var w0 := Counted(w, p);
    forall name ensures NameOk(w0, name) && Kept(w, w0, name) { assert NameOk(w, name); }
    QuietKeepsInv(w, w0);
  }

  lemma ReopenedKeepsInv(w: World, p: nat)
    requires Inv(w) && p < |w.published|
    ensures var (v, layers) := Reopened(w, p);
      && Inv(v) && Grows(w, v) && v.disks == w.disks && v.published == w.published && v.epoch == w.epoch
      && v.nextBlock == MaxId(StateLog(w, p), w.nextBlock)
  {
    hide Inv, DiskRecords, LayerRecords, Replay, MaxId;
    var state, overlay := w.published[p], Overlay(w.published[p].overlay);
    CountedKeepsInv(w, p);
    if RecordsOf(w, overlay) != [] && overlay in w.names {
      OverlayIsOld(w, p);
      LinkKeepsInv(Counted(w, p), w.names[overlay]);
      GrowsTwice(w, Counted(w, p), LinkLayer(Counted(w, p), w.names[overlay]).0);
    }
  }

  lemma OverlayIsOld(w: World, p: nat)
    requires Inv(w) && p < |w.published|
    ensures var overlay := Overlay(w.published[p].overlay);
      overlay in w.names && w.names[overlay] in w.files && w.names[overlay] < w.nextInode
  {
    assert StateOk(w, p) && NameOk(w, Overlay(w.published[p].overlay));
  }

  /** The layers of the reopened disk hold the records of the checkpoint. */
  lemma ReopenedRecords(w: World, p: nat)
    requires Inv(w) && p < |w.published|
    ensures var (v, layers) := Reopened(w, p);
      && LayersOk(v, layers)
      && LayerRecords(v, layers) == StateLog(w, p) == StateLog(v, p)
  {
    hide Replay, ApartInv;
    var state := w.published[p];
    var (v, layers) := Reopened(w, p);
    assert StateOk(w, p);
    ReopenedKeepsInv(w, p);
    GrownRecords(w, v, state.layers, state.overlay);
    if RecordsOf(w, Overlay(state.overlay)) != [] {
      LayerRecordsPush(v, state.layers, layers[|state.layers|]);
    }
    forall l | l in layers ensures FileOk(v, Layer(l)) {
      assert l in state.layers ==> FileOk(w, Layer(l)) && Kept(w, v, Layer(l));
    }
  }

  lemma ReopenedLayersAreFree(w: World, d: DiskId, p: nat)
    requires Inv(w) && p < |w.published|
    ensures var (v, layers) := Reopened(w, p);
      forall e, l {:trigger LayerFree(v, d, e, l)} :: l in layers ==> LayerFree(v, d, e, l)
  {
    hide Replay, FilesInv;
    var (v, layers) := Reopened(w, p);
    ReopenedKeepsInv(w, p);
    OverlayIsOld(w, p);
    var overlay := Overlay(w.published[p].overlay);
    assert Kept(w, v, overlay);
    forall e, l | l in layers ensures LayerFree(v, d, e, l) {
      assert StateApart(v, e, p, Layer(l)) && StateApart(v, e, p, overlay);
    }
  }

  /** A reopened checkpoint shows the blocks it was taken with, whichever process took it. */
  lemma RestoreKeepsInv(w: World, d: DiskId, p: nat)
    requires Inv(w) && p < |w.published| && d !in w.disks
    ensures var t := Restore(w, d, p);
      && Inv(t) && Grows(w, t) && d in t.disks && t.disks == w.disks[d := t.disks[d]]
      && t.published == w.published && t.epoch == w.epoch && t.nextBlock == MaxId(StateLog(w, p), w.nextBlock)
      && G.Visible(t.disks[d].blocks) == w.published[p].visible && t.disks[d].size == w.published[p].size
      && LogOf(t, d) == StateLog(w, p) && OtherLogs(w, t, d)
  {
    hide Replay, LayerRecords, MaxId;
    var (v, layers) := Reopened(w, p);
    ReopenedKeepsInv(w, p);
    ReopenedRecords(w, p);
    ReopenedLayersAreFree(w, d, p);
    assert StateOk(w, p);
    var blocks := G.Branch(G.Generation(None, Replay(LayerRecords(v, layers))), map[]);
    OpenKeepsInv(v, d, w.published[p].size, blocks, layers);
    var t := Restore(w, d, p);
    assert t == OpenDisk(v, d, w.published[p].size, blocks, layers);
    GrowsTwice(w, v, t);
    DisksGrow(w, t);
    StatesGrow(w, t);
  }
}
