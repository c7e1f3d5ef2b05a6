/** The invariant of guest RAM, and its preservation by every step. */
module RamInvariant {
  import opened Basics
  import opened GuestRam

  /** The VM may still write to the generation: it has not sealed it, or is filling it for a fork. */
  ghost predicate Writable(w: World, vm: VmId, g: GenId) {
    && vm in w.rams
    && ((!w.rams[vm].sealed && 0 < |w.rams[vm].pages| && w.rams[vm].pages[0].generation == g)
        || (vm in w.forks && w.forks[vm].generation == g))
  }

  /** Page references are in range of an issued, page-sized slot. */
  ghost predicate RefOk(w: World, p: RamPage) {
    && p.id < w.nextPage
    && p.generation in w.files && p.slot < |w.files[p.generation]|
    && |w.files[p.generation][p.slot]| == PAGE_SIZE
  }

  ghost predicate PageOk(w: World, vm: VmId, i: nat) {
    vm in w.rams && i < |w.rams[vm].pages| ==> RefOk(w, w.rams[vm].pages[i])
  }

  ghost predicate FileOk(w: World, g: GenId) {
    g in w.files ==> g < w.nextGen
  }

  /** Pages dirtied since the last seal are known to someone: the log, the host, or the preparation. */
  ghost predicate OverlayOk(w: World, vm: VmId, i: nat) {
    vm in w.rams && i in w.rams[vm].overlay ==>
      && i < |w.rams[vm].pages| && |w.rams[vm].overlay[i]| == PAGE_SIZE
      && (i in w.rams[vm].kvmDirty || i in w.rams[vm].hostDirty || (vm in w.forks && i in w.forks[vm].order))
  }

  ghost predicate RamOk(w: World, vm: VmId) {
    vm in w.rams ==>
      && 0 < |w.rams[vm].pages|
      && (forall i {:trigger i in w.rams[vm].kvmDirty} :: i in w.rams[vm].kvmDirty ==> i < |w.rams[vm].pages|)
      && (forall i {:trigger i in w.rams[vm].hostDirty} :: i in w.rams[vm].hostDirty ==> i < |w.rams[vm].pages|)
  }

  /** Unsealed RAM is one generation, page for slot. */
  ghost predicate UnsealedOk(w: World, vm: VmId, i: nat) {
    vm in w.rams && !w.rams[vm].sealed && i < |w.rams[vm].pages| ==>
      && w.rams[vm].pages[i].generation == w.rams[vm].pages[0].generation
      && w.rams[vm].pages[i].slot == i
  }

  /** A generation one VM may write is referenced by nobody else, and by itself only while unsealed. */
  ghost predicate PrivateOk(w: World, vm: VmId, other: VmId, i: nat) {
    other in w.rams && i < |w.rams[other].pages| && Writable(w, vm, w.rams[other].pages[i].generation) ==>
      other == vm && !w.rams[vm].sealed
  }

  ghost predicate OneWriterOk(w: World, vm: VmId, other: VmId, g: GenId) {
    Writable(w, vm, g) && Writable(w, other, g) ==> vm == other
  }

  ghost predicate ForkOk(w: World, vm: VmId) {
    vm in w.forks ==>
      var p := w.forks[vm];
      && vm in w.rams && 0 < |w.rams[vm].pages|
      && p.generation in w.files && p.done <= |p.order| && p.at < PAGE_SIZE && (p.done == |p.order| ==> p.at == 0)
      && Distinct(p.order)
      && p.sealsExisting == !w.rams[vm].sealed
      && (p.sealsExisting ==> p.generation == w.rams[vm].pages[0].generation)
      && (!p.sealsExisting ==> |w.files[p.generation]| == |p.order| && p.firstId + |p.order| <= w.nextPage)
      && (p.paused ==> p.done == |p.order|)
  }

  /**
   A page copied ahead of the pause is as the guest has it, or the guest has
   written it since and the dirty log says so. Of the page being copied this
   holds for the bytes copied so far.
   */
  ghost predicate CopyOk(w: World, vm: VmId, k: nat) {
    vm in w.forks && vm in w.rams && k < |w.forks[vm].order| ==>
      var p := w.forks[vm];
      var i := p.order[k];
      && i < |w.rams[vm].pages|
      && |Copied(w, p, k)| == PAGE_SIZE && |Read(w, vm, i)| == PAGE_SIZE
      && (i in w.rams[vm].kvmDirty
          || ((k < p.done ==> Copied(w, p, k) == Read(w, vm, i))
              && (k == p.done && p.at <= PAGE_SIZE ==> Copied(w, p, k)[..p.at] == Read(w, vm, i)[..p.at])))
  }

  /** A page identity stands for one place in one generation, and a place for one identity. */
  ghost predicate IdOk(w: World, vm: VmId, i: nat, other: VmId, j: nat) {
    vm in w.rams && other in w.rams && i < |w.rams[vm].pages| && j < |w.rams[other].pages| ==>
      var p, q := w.rams[vm].pages[i], w.rams[other].pages[j];
      (p.id == q.id <==> p.generation == q.generation && p.slot == q.slot)
  }

  /** The identities set aside for a preparation are not in use. */
  ghost predicate ReservedOk(w: World, vm: VmId, other: VmId, j: nat) {
    vm in w.forks && !w.forks[vm].sealsExisting && other in w.rams && j < |w.rams[other].pages| ==>
      !(w.forks[vm].firstId <= w.rams[other].pages[j].id < w.forks[vm].firstId + |w.forks[vm].order|)
  }

  ghost predicate RamsInv(w: World) {
    && (forall g {:trigger FileOk(w, g)} :: FileOk(w, g))
    && (forall vm {:trigger RamOk(w, vm)} :: RamOk(w, vm))
    && (forall vm, i {:trigger PageOk(w, vm, i)} :: PageOk(w, vm, i))
    && (forall vm, i {:trigger OverlayOk(w, vm, i)} :: OverlayOk(w, vm, i))
    && (forall vm, i {:trigger UnsealedOk(w, vm, i)} :: UnsealedOk(w, vm, i))
  }

  ghost predicate PrivacyInv(w: World) {
    && (forall vm, other, i {:trigger PrivateOk(w, vm, other, i)} :: PrivateOk(w, vm, other, i))
    && (forall vm, other, g {:trigger OneWriterOk(w, vm, other, g)} :: OneWriterOk(w, vm, other, g))
  }

  ghost predicate ForksInv(w: World) {
    && (forall vm {:trigger ForkOk(w, vm)} :: ForkOk(w, vm))
    && (forall vm, k {:trigger CopyOk(w, vm, k)} :: CopyOk(w, vm, k))
  }

  ghost predicate IdsInv(w: World) {
    && (forall vm, i, other, j {:trigger IdOk(w, vm, i, other, j)} :: IdOk(w, vm, i, other, j))
    && (forall vm, other, j {:trigger ReservedOk(w, vm, other, j)} :: ReservedOk(w, vm, other, j))
    && (forall vm, other {:trigger ForksApart(w, vm, other)} :: ForksApart(w, vm, other))
  }

  /** Two preparations have set aside different identities. */
  ghost predicate ForksApart(w: World, vm: VmId, other: VmId) {
    vm in w.forks && other in w.forks && vm != other && !w.forks[vm].sealsExisting && !w.forks[other].sealsExisting ==>
      || w.forks[vm].firstId + |w.forks[vm].order| <= w.forks[other].firstId
      || w.forks[other].firstId + |w.forks[other].order| <= w.forks[vm].firstId
  }

  ghost predicate Inv(w: World) {
    RamsInv(w) && PrivacyInv(w) && ForksInv(w) && IdsInv(w)
  }

  /** Every page of every VM is a full page. */
  lemma ReadIsPage(w: World, vm: VmId, i: nat)
    requires RamsInv(w) && vm in w.rams && i < |w.rams[vm].pages|
    ensures |Read(w, vm, i)| == PAGE_SIZE
  {
    assert PageOk(w, vm, i) && OverlayOk(w, vm, i);
  }

  // ---------------------------------------------------------------------
  // Writing
  // ---------------------------------------------------------------------

  /** Both kinds of write: the overlay grows, and one of the dirty sets with it. */
  ghost predicate WriteStep(w: World, t: World, vm: VmId, offset: nat, bytes: seq<Byte>) {
    && vm in w.rams && offset + |bytes| <= |w.rams[vm].pages| * PAGE_SIZE
    && var r := w.rams[vm];
       var touched := TouchedPages(offset, |bytes|, |r.pages|);
       && vm in t.rams && t == w.(rams := w.rams[vm := t.rams[vm]])
       && t.rams[vm].pages == r.pages && t.rams[vm].sealed == r.sealed
       && t.rams[vm].overlay == WriteOverlay(w, vm, offset, bytes)
       && (|| (t.rams[vm].kvmDirty == r.kvmDirty + touched && t.rams[vm].hostDirty == r.hostDirty)
           || (vm !in w.forks && t.rams[vm].kvmDirty == r.kvmDirty && t.rams[vm].hostDirty == r.hostDirty + touched))
  }

  /** A write changes the touched pages of its own VM. */
  lemma WriteReads(w: World, t: World, vm: VmId, offset: nat, bytes: seq<Byte>, other: VmId, i: nat)
    requires WriteStep(w, t, vm, offset, bytes) && RamsInv(w)
    requires other in w.rams && i < |w.rams[other].pages|
    ensures other in t.rams && t.rams[other].pages == w.rams[other].pages
    ensures Read(t, other, i)
         == (if other == vm && Touches(i, offset, |bytes|) then Written(Read(w, vm, i), i, offset, bytes) else Read(w, other, i))
  {
  }

  /** A write touches exactly the pages that hold one of its bytes. */
  lemma TouchedMeans(i: nat, offset: nat, len: nat, n: nat)
    ensures i in TouchedPages(offset, len, n) <==> i < n && exists a: nat :: offset <= a < offset + len && a / PAGE_SIZE == i
  {
    if Touches(i, offset, len) {
      var a := if offset < i * PAGE_SIZE then i * PAGE_SIZE else offset;
      assert offset <= a < offset + len && a / PAGE_SIZE == i;
    }
  }

  lemma WriteKeepsInv(w: World, t: World, vm: VmId, offset: nat, bytes: seq<Byte>)
    requires Inv(w) && WriteStep(w, t, vm, offset, bytes)
    ensures Inv(t)
  {
    forall g ensures FileOk(t, g) { assert FileOk(w, g); }
    forall v ensures RamOk(t, v) { assert RamOk(w, v); }
    forall v, i ensures PageOk(t, v, i) { assert PageOk(w, v, i); }
    forall v, i ensures OverlayOk(t, v, i) { WriteKeepsOverlay(w, t, vm, offset, bytes, v, i); }
    forall v, i ensures UnsealedOk(t, v, i) { assert UnsealedOk(w, v, i); }
    forall v, o, i ensures PrivateOk(t, v, o, i) { assert PrivateOk(w, v, o, i); }
    forall v, o, g ensures OneWriterOk(t, v, o, g) { assert OneWriterOk(w, v, o, g); }
    forall v ensures ForkOk(t, v) { assert ForkOk(w, v); }
    forall v, k ensures CopyOk(t, v, k) { WriteKeepsCopy(w, t, vm, offset, bytes, v, k); }
    forall v, i, o, j ensures IdOk(t, v, i, o, j) { assert IdOk(w, v, i, o, j); }
    forall v, o, j ensures ReservedOk(t, v, o, j) { assert ReservedOk(w, v, o, j); }
    forall v, o ensures ForksApart(t, v, o) { assert ForksApart(w, v, o); }
  }

  lemma WriteKeepsOverlay(w: World, t: World, vm: VmId, offset: nat, bytes: seq<Byte>, v: VmId, i: nat)
    requires Inv(w) && WriteStep(w, t, vm, offset, bytes)
    ensures OverlayOk(t, v, i)
  {
    assert OverlayOk(w, v, i);
    if v == vm && i < |w.rams[vm].pages| && Touches(i, offset, |bytes|) {
      ReadIsPage(w, vm, i);
      assert i in TouchedPages(offset, |bytes|, |w.rams[vm].pages|);
    }
  }

  /** A copied page the guest writes again is in the log from then on. */
  lemma WriteKeepsCopy(w: World, t: World, vm: VmId, offset: nat, bytes: seq<Byte>, v: VmId, k: nat)
    requires Inv(w) && WriteStep(w, t, vm, offset, bytes)
    ensures CopyOk(t, v, k)
  {
    assert CopyOk(w, v, k);
    if v in w.forks && v in w.rams && k < |w.forks[v].order| {
      WriteReads(w, t, vm, offset, bytes, v, w.forks[v].order[k]);
    }
  }

  // ---------------------------------------------------------------------
  // Creating and removing
  // ---------------------------------------------------------------------

  lemma CreateKeepsInv(w: World, vm: VmId, n: nat)
    requires Inv(w) && vm !in w.rams && vm !in w.forks && 0 < n
    ensures var t := Create(w, vm, n);
      && Inv(t) && t.rams.Keys == w.rams.Keys + {vm} && |t.rams[vm].pages| == n
      && (forall i {:trigger Read(t, vm, i)} :: 0 <= i < n ==> Read(t, vm, i) == Zeros(PAGE_SIZE))
      && (forall v, i {:trigger Read(t, v, i)} :: v in w.rams && 0 <= i < |w.rams[v].pages| ==>
            t.rams[v] == w.rams[v] && Read(t, v, i) == Read(w, v, i))
  {
    var t := Create(w, vm, n);
    assert FileOk(w, w.nextGen);
    forall g ensures FileOk(t, g) { assert FileOk(w, g); }
    forall v ensures RamOk(t, v) { assert RamOk(w, v); }
    forall v, i ensures PageOk(t, v, i) { assert PageOk(w, v, i); }
    forall v, i ensures OverlayOk(t, v, i) { assert OverlayOk(w, v, i); }
    forall v, i ensures UnsealedOk(t, v, i) { assert UnsealedOk(w, v, i); }
    forall v, o, i ensures PrivateOk(t, v, o, i) { CreateKeepsPrivate(w, vm, n, v, o, i); }
    forall v, o, g ensures OneWriterOk(t, v, o, g) { CreateKeepsWriters(w, vm, n, v, o, g); }
    forall v ensures ForkOk(t, v) { assert ForkOk(w, v); }
    forall v, k ensures CopyOk(t, v, k) { CreateKeepsCopy(w, vm, n, v, k); }
    forall v, i, o, j ensures IdOk(t, v, i, o, j) { CreateKeepsIds(w, vm, n, v, i, o, j); }
    forall v, o, j ensures ReservedOk(t, v, o, j) { assert ReservedOk(w, v, o, j) && ForkOk(w, v); }
    forall v, o ensures ForksApart(t, v, o) { assert ForksApart(w, v, o); }
    forall v, i | v in w.rams && 0 <= i < |w.rams[v].pages|
      ensures t.rams[v] == w.rams[v] && Read(t, v, i) == Read(w, v, i)
    {
      assert PageOk(w, v, i);
    }
  }

  /** The generations a VM may write are issued ones. */
  lemma WritableIsIssued(w: World, vm: VmId, g: GenId)
    requires Inv(w) && Writable(w, vm, g)
    ensures g in w.files && g < w.nextGen
  {
    assert PageOk(w, vm, 0) && ForkOk(w, vm) && RamOk(w, vm) && FileOk(w, g);
  }

  lemma CreateKeepsPrivate(w: World, vm: VmId, n: nat, v: VmId, o: VmId, i: nat)
    requires Inv(w) && vm !in w.rams && vm !in w.forks && 0 < n
    ensures PrivateOk(Create(w, vm, n), v, o, i)
  {
    assert PrivateOk(w, v, o, i) && PageOk(w, o, i);
    assert FileOk(w, w.nextGen);
    if Writable(w, v, w.nextGen) { WritableIsIssued(w, v, w.nextGen); }
  }

  lemma CreateKeepsWriters(w: World, vm: VmId, n: nat, v: VmId, o: VmId, g: GenId)
    requires Inv(w) && vm !in w.rams && vm !in w.forks && 0 < n
    ensures OneWriterOk(Create(w, vm, n), v, o, g)
  {
    assert OneWriterOk(w, v, o, g);
    if Writable(w, v, g) { WritableIsIssued(w, v, g); }
    if Writable(w, o, g) { WritableIsIssued(w, o, g); }
  }

  lemma CreateKeepsCopy(w: World, vm: VmId, n: nat, v: VmId, k: nat)
    requires Inv(w) && vm !in w.rams && vm !in w.forks && 0 < n
    ensures CopyOk(Create(w, vm, n), v, k)
  {
    assert CopyOk(w, v, k) && ForkOk(w, v) && FileOk(w, w.nextGen);
    if v in w.forks && v in w.rams && k < |w.forks[v].order| {
      assert PageOk(w, v, w.forks[v].order[k]);
    }
  }

  lemma CreateKeepsIds(w: World, vm: VmId, n: nat, v: VmId, i: nat, o: VmId, j: nat)
    requires Inv(w) && vm !in w.rams && vm !in w.forks && 0 < n
    ensures IdOk(Create(w, vm, n), v, i, o, j)
  {
    assert IdOk(w, v, i, o, j) && PageOk(w, v, i) && PageOk(w, o, j) && FileOk(w, w.nextGen);
  }

  /** Dropping a VM that is not being forked leaves every other VM as it was. */
  lemma RemoveKeepsInv(w: World, vm: VmId)
    requires Inv(w) && vm !in w.forks
    ensures var t := Remove(w, vm);
      && Inv(t) && t.rams.Keys == w.rams.Keys - {vm}
      && (forall v, i {:trigger Read(t, v, i)} :: v in t.rams && 0 <= i < |t.rams[v].pages| ==>
            t.rams[v] == w.rams[v] && Read(t, v, i) == Read(w, v, i))
  {
    var t := Remove(w, vm);
    forall g ensures FileOk(t, g) { assert FileOk(w, g); }
    forall v ensures RamOk(t, v) { assert RamOk(w, v); }
    forall v, i ensures PageOk(t, v, i) { assert PageOk(w, v, i); }
    forall v, i ensures OverlayOk(t, v, i) { assert OverlayOk(w, v, i); }
    forall v, i ensures UnsealedOk(t, v, i) { assert UnsealedOk(w, v, i); }
    forall v, o, i ensures PrivateOk(t, v, o, i) { assert PrivateOk(w, v, o, i); }
    forall v, o, g ensures OneWriterOk(t, v, o, g) { assert OneWriterOk(w, v, o, g); }
    forall v ensures ForkOk(t, v) { assert ForkOk(w, v); }
    forall v, k ensures CopyOk(t, v, k) { assert CopyOk(w, v, k); }
    forall v, i, o, j ensures IdOk(t, v, i, o, j) { assert IdOk(w, v, i, o, j); }
    forall v, o, j ensures ReservedOk(t, v, o, j) { assert ReservedOk(w, v, o, j); }
    forall v, o ensures ForksApart(t, v, o) { assert ForksApart(w, v, o); }
  }

  // ---------------------------------------------------------------------
  // Starting a fork
  // ---------------------------------------------------------------------

  ghost predicate CanStart(w: World, vm: VmId, order: seq<nat>) {
    && Inv(w) && vm in w.rams && vm !in w.forks && 0 < |w.rams[vm].pages|
    && Distinct(order) && (forall i {:trigger i in order} :: i in order ==> i in w.rams[vm].kvmDirty)
  }

  /** Starting a fork moves no bytes that anybody reads. */
  lemma StartReads(w: World, vm: VmId, order: seq<nat>, v: VmId, i: nat)
    requires CanStart(w, vm, order) && v in w.rams && i < |w.rams[v].pages|
    ensures var t := StartFork(w, vm, order);
      && t.rams[v].pages == w.rams[v].pages && t.rams[v].overlay == w.rams[v].overlay
      && Read(t, v, i) == Read(w, v, i)
  {
    assert PageOk(w, v, i) && FileOk(w, w.nextGen);
  }

  lemma StartKeepsInv(w: World, vm: VmId, order: seq<nat>)
    requires CanStart(w, vm, order)
    ensures Inv(StartFork(w, vm, order))
  {
    var t := StartFork(w, vm, order);
    forall g ensures FileOk(t, g) { assert FileOk(w, g); }
    forall v ensures RamOk(t, v) { assert RamOk(w, v); }
    forall v, i ensures PageOk(t, v, i) { assert PageOk(w, v, i) && FileOk(w, w.nextGen); }
    forall v, i ensures OverlayOk(t, v, i) && UnsealedOk(t, v, i) { StartKeepsOverlay(w, vm, order, v, i); }
    forall v, o, i ensures PrivateOk(t, v, o, i) { StartKeepsPrivate(w, vm, order, v, o, i); }
    forall v, o, g ensures OneWriterOk(t, v, o, g) { StartKeepsWriters(w, vm, order, v, o, g); }
    forall v ensures ForkOk(t, v) { StartKeepsFork(w, vm, order, v); }
    forall v, k ensures CopyOk(t, v, k) { StartKeepsCopy(w, vm, order, v, k); }
    forall v, i, o, j ensures IdOk(t, v, i, o, j) { assert IdOk(w, v, i, o, j); }
    forall v, o, j ensures ReservedOk(t, v, o, j) { assert ReservedOk(w, v, o, j) && PageOk(w, o, j); }
    forall v, o ensures ForksApart(t, v, o) { assert ForksApart(w, v, o) && ForkOk(w, v) && ForkOk(w, o); }
  }

  lemma StartKeepsOverlay(w: World, vm: VmId, order: seq<nat>, v: VmId, i: nat)
    requires CanStart(w, vm, order)
    ensures OverlayOk(StartFork(w, vm, order), v, i) && UnsealedOk(StartFork(w, vm, order), v, i)
  {
    assert OverlayOk(w, v, i) && UnsealedOk(w, v, i);
  }

  lemma StartKeepsFork(w: World, vm: VmId, order: seq<nat>, v: VmId)
    requires CanStart(w, vm, order)
    ensures ForkOk(StartFork(w, vm, order), v)
  {
    assert ForkOk(w, v) && PageOk(w, vm, 0) && FileOk(w, w.nextGen);
  }

  lemma StartKeepsPrivate(w: World, vm: VmId, order: seq<nat>, v: VmId, o: VmId, i: nat)
    requires CanStart(w, vm, order)
    ensures PrivateOk(StartFork(w, vm, order), v, o, i)
  {
    assert PrivateOk(w, v, o, i) && PageOk(w, o, i) && FileOk(w, w.nextGen);
  }

  lemma StartKeepsWriters(w: World, vm: VmId, order: seq<nat>, v: VmId, o: VmId, g: GenId)
    requires CanStart(w, vm, order)
    ensures OneWriterOk(StartFork(w, vm, order), v, o, g)
  {
    assert OneWriterOk(w, v, o, g);
    if Writable(w, v, g) { WritableIsIssued(w, v, g); }
    if Writable(w, o, g) { WritableIsIssued(w, o, g); }
  }

  lemma StartKeepsCopy(w: World, vm: VmId, order: seq<nat>, v: VmId, k: nat)
    requires CanStart(w, vm, order)
    ensures CopyOk(StartFork(w, vm, order), v, k)
  {
    var t := StartFork(w, vm, order);
    assert CopyOk(w, v, k) && ForkOk(w, v) && FileOk(w, w.nextGen) && RamOk(w, vm);
    if v == vm && k < |order| {
      var i := order[k];
      assert i in order;
      assert i < |w.rams[vm].pages|;
      assert PageOk(w, vm, i) && UnsealedOk(w, vm, i);
      StartReads(w, vm, order, vm, i);
      ReadIsPage(w, vm, i);
    } else if v in w.forks && v in w.rams && k < |w.forks[v].order| {
      StartReads(w, vm, order, v, w.forks[v].order[k]);
    }
  }
}
