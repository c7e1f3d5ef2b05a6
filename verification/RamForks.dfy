/** Copying pages of a running guest, and finishing its fork. */
module RamForks {
  import opened Basics
  import opened GuestRam
  import opened RamInvariant

  // ---------------------------------------------------------------------
  // Copying while the guest runs
  // ---------------------------------------------------------------------

  ghost predicate CanCopy(w: World, vm: VmId, n: nat) {
    && Inv(w) && vm in w.forks && w.forks[vm].done < |w.forks[vm].order|
    && 0 < n && w.forks[vm].at + n <= PAGE_SIZE
  }

  /** Where a chunk goes, and that it is there to be written. */
  lemma ChunkTarget(w: World, vm: VmId, n: nat)
    requires CanCopy(w, vm, n)
    ensures var p := w.forks[vm];
      && vm in w.rams && p.generation in w.files && p.order[p.done] < |w.rams[vm].pages|
      && SlotOf(p, p.done) < |w.files[p.generation]|
      && |w.files[p.generation][SlotOf(p, p.done)]| == PAGE_SIZE && |Read(w, vm, p.order[p.done])| == PAGE_SIZE
      && Writable(w, vm, p.generation)
  {
    assert ForkOk(w, vm);
    assert CopyOk(w, vm, w.forks[vm].done);
  }

  /** Copying a page aside changes what no VM reads, not even when it goes to the page's own backing. */
  lemma ChunkReads(w: World, vm: VmId, n: nat, v: VmId, i: nat)
    requires CanCopy(w, vm, n) && v in w.rams && i < |w.rams[v].pages|
    ensures var t := CopyChunk(w, vm, n);
      t.rams == w.rams && Read(t, v, i) == Read(w, v, i)
  {
    ChunkTarget(w, vm, n);
    var p := w.forks[vm];
    if w.rams[v].pages[i].generation == p.generation {
      assert PrivateOk(w, vm, v, i) && ForkOk(w, vm);
      assert UnsealedOk(w, vm, i);
      if i == p.order[p.done] {
        OwnSplice(w.files[p.generation][i], p.at, n);
      }
    }
  }

  lemma OwnSplice(page: Page, at: nat, n: nat)
    requires at + n <= |page|
    ensures Splice(page, at, page[at..at + n]) == page
  {
  }

  lemma CopyKeepsInv(w: World, vm: VmId, n: nat)
    requires CanCopy(w, vm, n)
    ensures Inv(CopyChunk(w, vm, n))
  {
    var t := CopyChunk(w, vm, n);
    ChunkTarget(w, vm, n);
    forall g ensures FileOk(t, g) { assert FileOk(w, g); }
    forall v ensures RamOk(t, v) { assert RamOk(w, v); }
    forall v, i ensures PageOk(t, v, i) { assert PageOk(w, v, i); }
    forall v, i ensures OverlayOk(t, v, i) { assert OverlayOk(w, v, i); }
    forall v, i ensures UnsealedOk(t, v, i) { assert UnsealedOk(w, v, i); }
    forall v, o, i ensures PrivateOk(t, v, o, i) { assert PrivateOk(w, v, o, i); }
    forall v, o, g ensures OneWriterOk(t, v, o, g) { assert OneWriterOk(w, v, o, g); }
    forall v ensures ForkOk(t, v) { assert ForkOk(w, v); }
    forall v, k ensures CopyOk(t, v, k) { CopyKeepsCopies(w, vm, n, v, k); }
    forall v, i, o, j ensures IdOk(t, v, i, o, j) { assert IdOk(w, v, i, o, j); }
    forall v, o, j ensures ReservedOk(t, v, o, j) { assert ReservedOk(w, v, o, j); }
    forall v, o ensures ForksApart(t, v, o) { assert ForksApart(w, v, o); }
  }

  /** The chunk extends the copied part of its page by exactly the bytes the guest has there. */
  lemma CopyKeepsCopies(w: World, vm: VmId, n: nat, v: VmId, k: nat)
    requires CanCopy(w, vm, n)
    ensures CopyOk(CopyChunk(w, vm, n), v, k)
  {
    var t := CopyChunk(w, vm, n);
    ChunkTarget(w, vm, n);
    var p := w.forks[vm];
    assert CopyOk(w, v, k) && ForkOk(w, v) && ForkOk(w, vm);
    if v in w.forks && v in w.rams && k < |w.forks[v].order| {
      ChunkReads(w, vm, n, v, w.forks[v].order[k]);
      if v != vm {
        assert OneWriterOk(w, vm, v, p.generation);
      } else if k == p.done {
        ExtendPrefix(w.files[p.generation][SlotOf(p, k)], Read(w, vm, p.order[k]), p.at, n);
      } else {
        assert SlotOf(p, k) != SlotOf(p, p.done);
      }
    }
  }

  lemma ExtendPrefix(copy: Page, source: Page, at: nat, n: nat)
    requires |copy| == |source| == PAGE_SIZE && at + n <= PAGE_SIZE
    ensures var page := Splice(copy, at, source[at..at + n]);
      copy[..at] == source[..at] ==> page[..at + n] == source[..at + n] && (at + n == PAGE_SIZE ==> page == source)
  {
    var page := Splice(copy, at, source[at..at + n]);
    if copy[..at] == source[..at] {
      forall j | 0 <= j < at + n ensures page[j] == source[j] {
        if j < at {
          assert copy[j] == copy[..at][j] == source[..at][j];
        }
      }
    }
  }

  lemma PauseKeepsInv(w: World, vm: VmId)
    requires Inv(w) && vm in w.forks && w.forks[vm].done == |w.forks[vm].order|
    ensures Inv(Pause(w, vm))
  {
    var t := Pause(w, vm);
    forall g ensures FileOk(t, g) { assert FileOk(w, g); }
    forall v ensures RamOk(t, v) { assert RamOk(w, v); }
    forall v, i ensures PageOk(t, v, i) { assert PageOk(w, v, i); }
    forall v, i ensures OverlayOk(t, v, i) { assert OverlayOk(w, v, i); }
    forall v, i ensures UnsealedOk(t, v, i) { assert UnsealedOk(w, v, i); }
    forall v, o, i ensures PrivateOk(t, v, o, i) { assert PrivateOk(w, v, o, i); }
    forall v, o, g ensures OneWriterOk(t, v, o, g) { assert OneWriterOk(w, v, o, g); }
    forall v ensures ForkOk(t, v) { assert ForkOk(w, v); }
    forall v, k ensures CopyOk(t, v, k) { assert CopyOk(w, v, k); }
    forall v, i, o, j ensures IdOk(t, v, i, o, j) { assert IdOk(w, v, i, o, j); }
    forall v, o, j ensures ReservedOk(t, v, o, j) { assert ReservedOk(w, v, o, j); }
    forall v, o ensures ForksApart(t, v, o) { assert ForksApart(w, v, o); }
  }

  // ---------------------------------------------------------------------
  // Finishing
  // ---------------------------------------------------------------------

  function Dirty(w: World, vm: VmId): set<nat>
    requires vm in w.rams
  {
    w.rams[vm].hostDirty + w.rams[vm].kvmDirty
  }

  ghost predicate CanFinish(w: World, vm: VmId, child: VmId, extra: seq<nat>) {
    && Inv(w) && vm in w.forks && vm in w.rams && w.forks[vm].paused
    && child !in w.rams && child !in w.forks
    && Distinct(extra)
    && (forall i {:trigger i in extra} :: i in extra <==> i in Dirty(w, vm) && i !in w.forks[vm].order)
  }

  /** A page nobody lists as dirty is the page its generation holds. */
  lemma CleanPageIsBacked(w: World, vm: VmId, i: nat)
    requires Inv(w) && vm in w.rams && i < |w.rams[vm].pages|
    requires i !in Dirty(w, vm) && (vm in w.forks ==> i !in w.forks[vm].order)
    ensures i !in w.rams[vm].overlay && Read(w, vm, i) == PageAt(w.files, w.rams[vm].pages[i])
  {
    assert OverlayOk(w, vm, i);
  }

  /** A page copied ahead and not dirtied since is copied exactly. */
  lemma CopiedPageIsExact(w: World, vm: VmId, child: VmId, extra: seq<nat>, k: nat)
    requires CanFinish(w, vm, child, extra) && k < |w.forks[vm].order| && w.forks[vm].order[k] !in Dirty(w, vm)
    ensures w.forks[vm].order[k] < |w.rams[vm].pages|
    ensures Copied(w, w.forks[vm], k) == Read(w, vm, w.forks[vm].order[k])
  {
    assert ForkOk(w, vm) && CopyOk(w, vm, k);
  }

  /** After the last copy the sealed slot of every page holds what the paused guest has there. */
  lemma FinishedSlot(w: World, vm: VmId, child: VmId, extra: seq<nat>, i: nat)
    requires CanFinish(w, vm, child, extra) && i < |w.rams[vm].pages| && w.forks[vm].generation in w.files
    ensures var t := FinishFork(w, vm, child, extra);
      && |FinishedPages(w, vm, extra)| == |w.rams[vm].pages|
      && PageAt(t.files, FinishedPages(w, vm, extra)[i]) == Read(w, vm, i)
  {
    if w.forks[vm].sealsExisting {
      SealedInPlace(w, vm, child, extra, i);
    } else {
      SealedApart(w, vm, child, extra, i);
    }
  }

  lemma SealedInPlace(w: World, vm: VmId, child: VmId, extra: seq<nat>, i: nat)
    requires CanFinish(w, vm, child, extra) && i < |w.rams[vm].pages| && w.forks[vm].generation in w.files
    requires w.forks[vm].sealsExisting
    ensures PageAt(FinishFork(w, vm, child, extra).files, FinishedPages(w, vm, extra)[i]) == Read(w, vm, i)
  {
    var p := w.forks[vm];
    assert ForkOk(w, vm) && PageOk(w, vm, i) && UnsealedOk(w, vm, i);
    if i !in Dirty(w, vm) && i !in p.order {
      CleanPageIsBacked(w, vm, i);
    }
    if i in p.order && i !in Dirty(w, vm) {
      CopiedPageIsExact(w, vm, child, extra, Position(p.order, i));
    }
  }

  lemma SealedApart(w: World, vm: VmId, child: VmId, extra: seq<nat>, i: nat)
    requires CanFinish(w, vm, child, extra) && i < |w.rams[vm].pages| && w.forks[vm].generation in w.files
    requires !w.forks[vm].sealsExisting
    ensures PageAt(FinishFork(w, vm, child, extra).files, FinishedPages(w, vm, extra)[i]) == Read(w, vm, i)
  {
    var p := w.forks[vm];
    FreshSlot(w, vm, child, extra, i);
    hide *;
    FinishedPlace(w, vm, extra, i);
    FinishedAt(w, vm, child, extra, FinishedPages(w, vm, extra)[i]);
    if i in p.order {
      OrderedSlot(w, vm, child, extra, i);
    } else if i in extra {
      ExtraSlot(w, vm, extra, i);
    } else {
      CleanPageIsBacked(w, vm, i);
    }
  }

  /** Where a page ends up when a new generation is sealed. */
  lemma FinishedPlace(w: World, vm: VmId, extra: seq<nat>, i: nat)
    requires vm in w.rams && vm in w.forks && i < |w.rams[vm].pages| && !w.forks[vm].sealsExisting
    ensures var p, ref := w.forks[vm], FinishedPages(w, vm, extra)[i];
      if i in p.order then BackedBy(ref, p.generation, Position(p.order, i))
      else if i in extra then BackedBy(ref, p.generation, |p.order| + Position(extra, i))
      else ref == w.rams[vm].pages[i]
  {
    hide Position;
  }

  predicate BackedBy(ref: RamPage, g: GenId, slot: nat) {
    ref.generation == g && ref.slot == slot
  }

  /** The file a finished fork seals, and the others. */
  lemma FinishedAt(w: World, vm: VmId, child: VmId, extra: seq<nat>, ref: RamPage)
    requires vm in w.rams && vm in w.forks && w.forks[vm].generation in w.files
    ensures var page := PageAt(FinishFork(w, vm, child, extra).files, ref);
      if ref.generation != w.forks[vm].generation then page == PageAt(w.files, ref)
      else
        var file := FinishedFile(w, vm, Dirty(w, vm), extra);
        ref.slot < |file| ==> page == file[ref.slot]
  {
    hide FinishedFile, FinishedPages;
  }

  lemma OrderedSlot(w: World, vm: VmId, child: VmId, extra: seq<nat>, i: nat)
    requires CanFinish(w, vm, child, extra) && i < |w.rams[vm].pages| && w.forks[vm].generation in w.files
    requires !w.forks[vm].sealsExisting && i in w.forks[vm].order
    ensures var k := Position(w.forks[vm].order, i);
      k < |FinishedFile(w, vm, Dirty(w, vm), extra)| && FinishedFile(w, vm, Dirty(w, vm), extra)[k] == Read(w, vm, i)
  {
    FreshSlot(w, vm, child, extra, i);
    if i !in Dirty(w, vm) {
      CopiedPageIsExact(w, vm, child, extra, Position(w.forks[vm].order, i));
    }
  }

  lemma ExtraSlot(w: World, vm: VmId, extra: seq<nat>, i: nat)
    requires vm in w.rams && vm in w.forks && w.forks[vm].generation in w.files
    requires !w.forks[vm].sealsExisting && i in extra && i < |w.rams[vm].pages|
    ensures var k := |w.forks[vm].order| + Position(extra, i);
      k < |FinishedFile(w, vm, Dirty(w, vm), extra)| && FinishedFile(w, vm, Dirty(w, vm), extra)[k] == Read(w, vm, i)
  {
  }

  /** In a generation of the fork's own, dirty pages land in slots nobody else reads. */
  lemma FreshSlot(w: World, vm: VmId, child: VmId, extra: seq<nat>, i: nat)
    requires CanFinish(w, vm, child, extra) && i < |w.rams[vm].pages| && !w.forks[vm].sealsExisting
    requires w.forks[vm].generation in w.files
    ensures w.rams[vm].pages[i].generation != w.forks[vm].generation
    ensures i in Dirty(w, vm) ==> i in w.forks[vm].order || i in extra
    ensures i in w.forks[vm].order ==>
      var k := Position(w.forks[vm].order, i);
      k < |FinishedFile(w, vm, Dirty(w, vm), extra)|
      && (i !in Dirty(w, vm) ==> FinishedFile(w, vm, Dirty(w, vm), extra)[k] == Copied(w, w.forks[vm], k))
  {
    assert PrivateOk(w, vm, vm, i) && ForkOk(w, vm);
  }

  /** The fork is exact: source and child both read what the source read when it was paused. */
  lemma FinishReads(w: World, vm: VmId, child: VmId, extra: seq<nat>, v: VmId, i: nat)
    requires CanFinish(w, vm, child, extra) && w.forks[vm].generation in w.files
    requires v in w.rams && i < |w.rams[v].pages|
    ensures var t := FinishFork(w, vm, child, extra);
      && v in t.rams && |t.rams[v].pages| == |w.rams[v].pages| && Read(t, v, i) == Read(w, v, i)
      && |t.rams[child].pages| == |w.rams[vm].pages|
      && (v == vm ==> Read(t, child, i) == Read(w, vm, i))
  {
    if v == vm {
      FinishedSlot(w, vm, child, extra, i);
      assert OverlayOk(w, vm, i);
    } else {
      assert ForkOk(w, vm);
      assert PrivateOk(w, vm, v, i);
    }
  }

  lemma FinishedRef(w: World, vm: VmId, child: VmId, extra: seq<nat>, i: nat)
    requires CanFinish(w, vm, child, extra) && i < |w.rams[vm].pages| && w.forks[vm].generation in w.files
    ensures |FinishedPages(w, vm, extra)| == |w.rams[vm].pages|
    ensures RefOk(FinishFork(w, vm, child, extra), FinishedPages(w, vm, extra)[i])
  {
    FinishedSlot(w, vm, child, extra, i);
    ReadIsPage(w, vm, i);
    assert ForkOk(w, vm) && PageOk(w, vm, i);
    var p := FinishedPages(w, vm, extra)[i];
    assert |PageAt(FinishFork(w, vm, child, extra).files, p)| == PAGE_SIZE;
  }

  lemma FinishKeepsPage(w: World, vm: VmId, child: VmId, extra: seq<nat>, v: VmId, i: nat)
    requires CanFinish(w, vm, child, extra) && w.forks[vm].generation in w.files
    ensures var t := FinishFork(w, vm, child, extra);
      PageOk(t, v, i) && OverlayOk(t, v, i) && UnsealedOk(t, v, i)
  {
    var t := FinishFork(w, vm, child, extra);
    if v == vm || v == child {
      if i < |w.rams[vm].pages| {
        FinishedRef(w, vm, child, extra, i);
      }
      assert OverlayOk(w, vm, i);
    } else {
      assert PageOk(w, v, i) && OverlayOk(w, v, i) && UnsealedOk(w, v, i);
      assert ForkOk(w, vm) && PrivateOk(w, vm, v, i);
    }
  }

  /** Once sealed, neither the source nor the child may write a generation. */
  lemma FinishWriters(w: World, vm: VmId, child: VmId, extra: seq<nat>, v: VmId, g: GenId)
    requires CanFinish(w, vm, child, extra) && w.forks[vm].generation in w.files
    ensures var t := FinishFork(w, vm, child, extra);
      Writable(t, v, g) <==> v != vm && v != child && Writable(w, v, g)
  {
  }

  lemma FinishKeepsPrivate(w: World, vm: VmId, child: VmId, extra: seq<nat>, v: VmId, o: VmId, i: nat)
    requires CanFinish(w, vm, child, extra) && w.forks[vm].generation in w.files
    ensures PrivateOk(FinishFork(w, vm, child, extra), v, o, i)
  {
    var t := FinishFork(w, vm, child, extra);
    assert ForkOk(w, vm);
    if o in t.rams && i < |t.rams[o].pages| {
      var g := t.rams[o].pages[i].generation;
      FinishWriters(w, vm, child, extra, v, g);
      if o == vm || o == child {
        assert PrivateOk(w, v, vm, i);
        assert OneWriterOk(w, v, vm, w.forks[vm].generation);
      } else {
        assert PrivateOk(w, v, o, i);
      }
    }
  }

  lemma FinishKeepsCopy(w: World, vm: VmId, child: VmId, extra: seq<nat>, v: VmId, k: nat)
    requires CanFinish(w, vm, child, extra) && w.forks[vm].generation in w.files
    ensures CopyOk(FinishFork(w, vm, child, extra), v, k)
  {
    assert CopyOk(w, v, k) && ForkOk(w, v) && ForkOk(w, vm);
    if v != vm && v in w.forks && v in w.rams && k < |w.forks[v].order| {
      assert OneWriterOk(w, vm, v, w.forks[vm].generation);
      FinishReads(w, vm, child, extra, v, w.forks[v].order[k]);
    }
  }

  /** A page reference of the finished fork: an old one, or a new identity in the fork's generation. */
  lemma FinishedId(w: World, vm: VmId, child: VmId, extra: seq<nat>, i: nat)
    requires CanFinish(w, vm, child, extra) && w.forks[vm].generation in w.files && i < |w.rams[vm].pages|
    ensures |FinishedPages(w, vm, extra)| == |w.rams[vm].pages|
    ensures var q := FinishedPages(w, vm, extra)[i];
      var p := w.forks[vm];
      || q == w.rams[vm].pages[i]
      || (&& !p.sealsExisting && q.generation == p.generation
          && (|| (q.slot < |p.order| && q.id == p.firstId + q.slot && p.order[q.slot] == i)
              || (|p.order| <= q.slot < |p.order| + |extra| && q.id == w.nextPage + (q.slot - |p.order|)
                  && extra[q.slot - |p.order|] == i)))
  {
  }

  lemma FinishKeepsIds(w: World, vm: VmId, child: VmId, extra: seq<nat>, v: VmId, i: nat, o: VmId, j: nat)
    requires CanFinish(w, vm, child, extra) && w.forks[vm].generation in w.files
    ensures IdOk(FinishFork(w, vm, child, extra), v, i, o, j)
  {
    var t := FinishFork(w, vm, child, extra);
    if v in t.rams && o in t.rams && i < |t.rams[v].pages| && j < |t.rams[o].pages| {
      var v0, o0 := if v == child then vm else v, if o == child then vm else o;
      NewIdApart(w, vm, child, extra, v0, i, o0, j);
      NewIdApart(w, vm, child, extra, o0, j, v0, i);
    }
  }

  /** New identities are told apart from every old one, and from each other by their slots. */
  lemma NewIdApart(w: World, vm: VmId, child: VmId, extra: seq<nat>, v: VmId, i: nat, o: VmId, j: nat)
    requires CanFinish(w, vm, child, extra) && w.forks[vm].generation in w.files
    requires v in w.rams && o in w.rams && i < |w.rams[v].pages| && j < |w.rams[o].pages|
    ensures var t := FinishFork(w, vm, child, extra);
      && |t.rams[v].pages| == |w.rams[v].pages| && |t.rams[o].pages| == |w.rams[o].pages|
      && var p, q := t.rams[v].pages[i], t.rams[o].pages[j];
         (p.id == q.id <==> p.generation == q.generation && p.slot == q.slot)
  {
    assert IdOk(w, v, i, o, j) && ForkOk(w, vm);
    assert PageOk(w, v, i) && PageOk(w, o, j);
    assert ReservedOk(w, vm, v, i) && ReservedOk(w, vm, o, j);
    assert PrivateOk(w, vm, v, i) && PrivateOk(w, vm, o, j);
    if v == vm { FinishedId(w, vm, child, extra, i); }
    if o == vm { FinishedId(w, vm, child, extra, j); }
  }

  lemma FinishKeepsReserved(w: World, vm: VmId, child: VmId, extra: seq<nat>, v: VmId, o: VmId, j: nat)
    requires CanFinish(w, vm, child, extra) && w.forks[vm].generation in w.files
    ensures ReservedOk(FinishFork(w, vm, child, extra), v, o, j)
  {
    var o0 := if o == child then vm else o;
    assert ReservedOk(w, v, o0, j) && ForksApart(w, vm, v) && ForkOk(w, v) && ForkOk(w, vm);
    if o0 == vm && j < |w.rams[vm].pages| {
      FinishedId(w, vm, child, extra, j);
    }
  }

  lemma FinishKeepsInv(w: World, vm: VmId, child: VmId, extra: seq<nat>)
    requires CanFinish(w, vm, child, extra)
    ensures w.forks[vm].generation in w.files
    ensures Inv(FinishFork(w, vm, child, extra))
  {
    assert ForkOk(w, vm);
    var t := FinishFork(w, vm, child, extra);
    forall g ensures FileOk(t, g) { assert FileOk(w, g) && FileOk(w, w.forks[vm].generation); }
    forall v ensures RamOk(t, v) { assert RamOk(w, v); }
    forall v, i ensures PageOk(t, v, i) { FinishKeepsPage(w, vm, child, extra, v, i); }
    forall v, i ensures OverlayOk(t, v, i) { FinishKeepsPage(w, vm, child, extra, v, i); }
    forall v, i ensures UnsealedOk(t, v, i) { FinishKeepsPage(w, vm, child, extra, v, i); }
    forall v, o, i ensures PrivateOk(t, v, o, i) { FinishKeepsPrivate(w, vm, child, extra, v, o, i); }
    forall v, o, g ensures OneWriterOk(t, v, o, g) {
      FinishWriters(w, vm, child, extra, v, g);
      FinishWriters(w, vm, child, extra, o, g);
      assert OneWriterOk(w, v, o, g);
    }
    forall v ensures ForkOk(t, v) { FinishKeepsFork(w, vm, child, extra, v); }
    forall v, k ensures CopyOk(t, v, k) { FinishKeepsCopy(w, vm, child, extra, v, k); }
    forall v, i, o, j ensures IdOk(t, v, i, o, j) { FinishKeepsIds(w, vm, child, extra, v, i, o, j); }
    forall v, o, j ensures ReservedOk(t, v, o, j) { FinishKeepsReserved(w, vm, child, extra, v, o, j); }
    forall v, o ensures ForksApart(t, v, o) { assert ForksApart(w, v, o); }
  }

  lemma FinishKeepsFork(w: World, vm: VmId, child: VmId, extra: seq<nat>, v: VmId)
    requires CanFinish(w, vm, child, extra) && w.forks[vm].generation in w.files
    ensures ForkOk(FinishFork(w, vm, child, extra), v)
  {
    assert ForkOk(w, v) && ForkOk(w, vm);
    assert OneWriterOk(w, vm, v, w.forks[vm].generation);
  }
}
