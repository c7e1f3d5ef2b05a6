/** Guest RAM as the object that owns one VM's address range. */
module RamObject {
  import opened Basics
  import opened GuestRam
  import opened RamInvariant
  import opened RamForks

  datatype RamError = InvalidRamSize(len: nat) | InvalidDirtyPage(page: nat, pages: nat) | RamRange(offset: nat, len: nat)

  /** The generation files of the process and the counters that name them. */
  class GenerationFiles {
    var files: map<GenId, seq<Page>>
    var nextGen: nat
    var nextPage: nat

    constructor ()
      ensures files == map[] && nextGen == 1 && nextPage == 1
    {
      files, nextGen, nextPage := map[], 1, 1;
    }
  }

  /** What one page of the address range is mapped to. */
  datatype Backing = Backing(generation: GenId, slot: nat)

  function BackingOf(p: RamPage): Backing {
    Backing(p.generation, p.slot)
  }

  function Shifted(word: bv64): bv64 {
    word << 1
  }

  /** One, shifted left `bit` times. */
  function Mask(bit: nat): bv64 {
    if bit == 0 then 1 else Shifted(Mask(bit - 1))
  }

  predicate Meets(word: bv64, mask: bv64) {
    word & mask != 0
  }

  /** Bit `bit` of a word of the hypervisor's dirty bitmap. */
  predicate BitSet(word: bv64, bit: nat)
    requires bit < 64
  {
    Meets(word, Mask(bit))
  }

  predicate Logged(log: seq<bv64>, i: nat) {
    i / 64 < |log| && BitSet(log[i / 64], i % 64)
  }

  function LoggedPages(log: seq<bv64>, n: nat): set<nat> {
    set i | 0 <= i < n && Logged(log, i)
  }

  // ---------------------------------------------------------------------
  // What a dirty bitmap says
  // ---------------------------------------------------------------------

  lemma ShiftedByByte(m: bv64)
    ensures Shifted(Shifted(Shifted(Shifted(Shifted(Shifted(Shifted(Shifted(m)))))))) == m << 8
  {
  }

  lemma MaskByByte(bit: nat)
    ensures Mask(bit + 8) == Mask(bit) << 8
  {
    hide Shifted;
    ShiftedByByte(Mask(bit));
    assert Mask(bit + 2) == Shifted(Mask(bit + 1)) && Mask(bit + 4) == Shifted(Mask(bit + 3));
    assert Mask(bit + 6) == Shifted(Mask(bit + 5)) && Mask(bit + 8) == Shifted(Mask(bit + 7));
  }

  lemma HighestMask()
    ensures Mask(64) == 0 && Mask(56) == 0x0100_0000_0000_0000
  {
    MaskByByte(0);
    MaskByByte(8);
    MaskByByte(16);
    MaskByByte(24);
    MaskByByte(32);
    MaskByByte(40);
    MaskByByte(48);
    MaskByByte(56);
  }

  /** Seven more shifts of the highest byte's lowest bit lose nothing. */
  lemma HighestByte(bit: nat)
    requires 56 <= bit < 64
    ensures Mask(bit) != 0
  {
    HighestMask();
    var m := Mask(56);
    assert Mask(58) == Shifted(Shifted(m)) && Mask(60) == Shifted(Shifted(Mask(58))) by { hide Shifted; }
    assert Mask(62) == Shifted(Shifted(Mask(60))) && Mask(63) == Shifted(Mask(62)) by { hide Shifted; }
    assert Mask(57) == Shifted(m) && Mask(59) == Shifted(Mask(58)) && Mask(61) == Shifted(Mask(60)) by { hide Shifted; }
  }

  lemma ShiftedZero(m: bv64)
    ensures m == 0 ==> Shifted(m) == 0
  {
  }

  /** No mask is shifted out of the word. */
  lemma {:induction false} MaskNotZero(bit: nat)
    requires bit < 64
    ensures Mask(bit) != 0
    decreases 63 - bit
  {
    if bit >= 56 {
      HighestByte(bit);
    } else {
      MaskNotZero(bit + 1);
      ShiftedZero(Mask(bit));
    }
  }

  lemma ShiftedApart(a: bv64, b: bv64)
    requires !Meets(a, b)
    ensures !Meets(Shifted(a), Shifted(b))
  {
  }

  lemma LowBitClear(a: bv64)
    ensures !Meets(1, Shifted(a))
  {
  }

  lemma {:induction false} MasksApart(i: nat, j: nat)
    requires i < j
    ensures !Meets(Mask(i), Mask(j))
    decreases i
  {
    hide Meets, Shifted;
    if i == 0 {
      LowBitClear(Mask(j - 1));
    } else {
      MasksApart(i - 1, j - 1);
      ShiftedApart(Mask(i - 1), Mask(j - 1));
    }
  }

  lemma MeetsItself(m: bv64, k: bv64)
    ensures Meets(m, m) <==> m != 0
    ensures Meets(m, k) <==> Meets(k, m)
  {
  }

  /** The word with one bit set has that bit set and no other. */
  lemma OneBit(i: nat, j: nat)
    requires i < 64 && j < 64
    ensures BitSet(Mask(j), i) <==> i == j
  {
    hide Mask, Meets;
    MeetsItself(Mask(j), Mask(i));
    if i < j {
      MasksApart(i, j);
    } else if j < i {
      MasksApart(j, i);
    } else {
      MaskNotZero(i);
    }
  }

  function Either(a: bv64, b: bv64): bv64 {
    a | b
  }

  lemma EitherMeets(a: bv64, b: bv64, m: bv64)
    ensures Meets(Either(a, b), m) <==> Meets(a, m) || Meets(b, m)
  {
    hide Either;
    Distributes(a, b, m);
    EitherIsZero(a & m, b & m);
  }

  lemma Distributes(a: bv64, b: bv64, m: bv64)
    ensures Either(a, b) & m == Either(a & m, b & m)
  {
  }

  lemma EitherIsZero(a: bv64, b: bv64)
    ensures Either(a, b) == 0 <==> a == 0 && b == 0
  {
  }

  /** A log of `n` words in which only the bit of page `page` is set. */
  function OnePageLog(n: nat, page: nat): seq<bv64> {
    seq(n, w => if w == page / 64 then Mask(page % 64) else 0)
  }

  /** Two logs of one length merged bit by bit. */
  function MergedLog(a: seq<bv64>, b: seq<bv64>): seq<bv64>
    requires |a| == |b|
  {
    seq(|a|, w requires 0 <= w < |a| => Either(a[w], b[w]))
  }

  /** A log with one bit set means one page: that of the bit, counting from the low end of the first word. */
  lemma OnePageLogged(n: nat, page: nat, i: nat)
    requires page / 64 < n
    ensures Logged(OnePageLog(n, page), i) <==> i == page
  {
    var log := OnePageLog(n, page);
    if i / 64 < n {
      if i / 64 == page / 64 {
        OneBit(i % 64, page % 64);
      } else {
        assert log[i / 64] == 0;
        ZeroWord(i % 64);
      }
    }
  }

  lemma FirstBitIsFirstPage(i: nat)
    ensures Logged([1], i) <==> i == 0
  {
    assert OnePageLog(1, 0) == [1];
    OnePageLogged(1, 0, i);
  }

  lemma ZeroWord(bit: nat)
    requires bit < 64
    ensures !BitSet(0, bit)
  {
    hide Mask;
  }

  /** A merged log means the pages of both. */
  lemma MergedLogged(a: seq<bv64>, b: seq<bv64>, i: nat)
    requires |a| == |b|
    ensures Logged(MergedLog(a, b), i) <==> Logged(a, i) || Logged(b, i)
  {
    hide Mask, Either, Meets;
    if i / 64 < |a| {
      EitherMeets(a[i / 64], b[i / 64], Mask(i % 64));
    }
  }

  /** So the pages of a log are those whose bits were merged into it, whatever their number. */
  lemma {:induction false} LoggedAsMerged(n: nat, pages: seq<nat>, i: nat)
    requires forall k :: 0 <= k < |pages| ==> pages[k] / 64 < n
    ensures Logged(LogOf(n, pages), i) <==> i in pages
    decreases |pages|
  {
    hide Mask, BitSet, MergedLog;
    if pages == [] {
      assert i / 64 < n ==> !Logged(LogOf(n, pages), i) by { EmptyLog(n, i); }
    } else {
      var k := |pages| - 1;
      LoggedAsMerged(n, pages[..k], i);
      OnePageLogged(n, pages[k], i);
      MergedSize(LogOf(n, pages[..k]), OnePageLog(n, pages[k]));
      MergedLogged(LogOf(n, pages[..k]), OnePageLog(n, pages[k]), i);
      assert i in pages <==> i in pages[..k] || i == pages[k];
    }
  }

  lemma EmptyLog(n: nat, i: nat)
    ensures !Logged(seq(n, w => 0), i)
  {
    if i / 64 < n {
      ZeroWord(i % 64);
    }
  }

  lemma MergedSize(a: seq<bv64>, b: seq<bv64>)
    requires |a| == |b|
    ensures |MergedLog(a, b)| == |a|
  {
  }

  /** The log the hypervisor has written when the guest has dirtied these pages. */
  function LogOf(n: nat, pages: seq<nat>): (log: seq<bv64>)
    ensures |log| == n
    decreases |pages|
  {
    if pages == [] then seq(n, w => 0)
    else MergedLog(LogOf(n, pages[..|pages| - 1]), OnePageLog(n, pages[|pages| - 1]))
  }

  // ---------------------------------------------------------------------
  // Forking under pause
  // ---------------------------------------------------------------------

  /** Forking under pause: nothing taken ahead, everything dirty copied at once. */
  lemma PausedForkIsExact(w: World, extra: seq<nat>, i: nat)
    requires Inv(w) && w.rams.Keys == {0} && w.forks == map[] && 0 < |w.rams[0].pages| && i < |w.rams[0].pages|
    requires Distinct(extra) && forall k {:trigger k in extra} :: k in extra <==> k in Dirty(w, 0)
    ensures var u := StartFork(w, 0, []);
      && 0 in u.rams && 0 in u.forks && u.forks[0].generation in u.files
      && var t := FinishFork(u, 0, 1, extra);
         && 0 in t.rams && 1 in t.rams
         && |t.rams[0].pages| == |t.rams[1].pages| == |w.rams[0].pages|
         && Read(t, 0, i) == Read(w, 0, i) && Read(t, 1, i) == Read(w, 0, i)
  {
    var u := StartFork(w, 0, []);
    StartKeepsInv(w, 0, []);
    StartReads(w, 0, [], 0, i);
    assert ForkOk(u, 0);
    var v := Pause(u, 0);
    PauseKeepsInv(u, 0);
    assert Dirty(v, 0) == Dirty(w, 0);
    FinishReads(v, 0, 1, extra, 0, i);
    PauseIsInvisible(u, extra);
  }

  lemma PauseIsInvisible(u: World, extra: seq<nat>)
    requires 0 in u.rams && 0 in u.forks && u.forks[0].generation in u.files
    ensures FinishFork(Pause(u, 0), 0, 1, extra) == FinishFork(u, 0, 1, extra)
  {
    var v := Pause(u, 0);
    assert FinishedPages(v, 0, extra) == FinishedPages(u, 0, extra);
    assert FinishedFile(v, 0, Dirty(u, 0), extra) == FinishedFile(u, 0, Dirty(u, 0), extra);
    assert v.forks - {0} == u.forks - {0};
  }

  /** Sealing the existing generation takes no notice of the list of extra pages. */
  lemma ExtraIgnored(u: World, a: seq<nat>, b: seq<nat>)
    requires 0 in u.rams && 0 in u.forks && u.forks[0].generation in u.files && u.forks[0].sealsExisting
    ensures FinishFork(u, 0, 1, a) == FinishFork(u, 0, 1, b)
  {
  }

  lemma ForkReads(w: World, listed: seq<nat>, extra: seq<nat>, i: nat)
    requires Inv(w) && w.rams.Keys == {0} && w.forks == map[] && 0 < |w.rams[0].pages| && i < |w.rams[0].pages|
    requires Ascending(listed) && forall k {:trigger k in listed} :: k in listed <==> k in Dirty(w, 0)
    requires w.rams[0].sealed ==> Distinct(extra) && forall k {:trigger k in extra} :: k in extra <==> k in Dirty(w, 0)
    ensures var u := StartFork(w, 0, []);
      && 0 in u.rams && 0 in u.forks && u.forks[0].generation in u.files
      && var t := FinishFork(u, 0, 1, extra);
         && 0 in t.rams && 1 in t.rams && |t.rams[0].pages| == |t.rams[1].pages| == |w.rams[0].pages|
         && Read(t, 0, i) == Read(w, 0, i) && PageAt(t.files, t.rams[1].pages[i]) == Read(w, 0, i)
  {
    if w.rams[0].sealed {
      PausedForkIsExact(w, extra, i);
    } else {
      PausedForkIsExact(w, listed, i);
      ExtraIgnored(StartFork(w, 0, []), listed, extra);
    }
  }

  /** One VM of a world, on its own. */
  function Alone(w: World, vm: VmId): World
    requires vm in w.rams
  {
    World(w.files, w.nextGen, w.nextPage, map[0 := w.rams[vm]], map[])
  }

  lemma AloneKeepsInv(w: World, vm: VmId)
    requires Inv(w) && w.forks == map[] && vm in w.rams
    ensures Inv(Alone(w, vm))
  {
    var t := Alone(w, vm);
    forall g ensures FileOk(t, g) { assert FileOk(w, g); }
    forall v ensures RamOk(t, v) { assert RamOk(w, vm); }
    forall v, i ensures PageOk(t, v, i) { assert PageOk(w, vm, i); }
    forall v, i ensures OverlayOk(t, v, i) { assert OverlayOk(w, vm, i); }
    forall v, i ensures UnsealedOk(t, v, i) { assert UnsealedOk(w, vm, i); }
    forall v, o, i ensures PrivateOk(t, v, o, i) { assert PrivateOk(w, vm, vm, i); }
    forall v, i, o, j ensures IdOk(t, v, i, o, j) { assert IdOk(w, vm, i, vm, j); }
  }

  /** A generation that is not the one the RAM still writes. */
  predicate Elsewhere(pages: seq<RamPage>, sealed: bool, g: GenId) {
    sealed || |pages| == 0 || g != pages[0].generation
  }

  /** No other generation file has changed. */
  ghost predicate OthersKept(was: map<GenId, seq<Page>>, now: map<GenId, seq<Page>>, pages: seq<RamPage>, sealed: bool) {
    forall g {:trigger g in was} :: g in was && Elsewhere(pages, sealed, g) ==> g in now && now[g] == was[g]
  }

  /** After a fork under pause both VMs satisfy the invariant again, and no other file has changed. */
  lemma PausedForkKeepsInv(w: World, extra: seq<nat>)
    requires Inv(w) && w.rams.Keys == {0} && w.forks == map[] && 0 < |w.rams[0].pages|
    requires Distinct(extra) && forall k {:trigger k in extra} :: k in extra <==> k in Dirty(w, 0)
    ensures var u := StartFork(w, 0, []);
      && 0 in u.rams && 0 in u.forks && u.forks[0].generation in u.files
      && var t := FinishFork(u, 0, 1, extra);
         && 0 in t.rams && 1 in t.rams && Inv(Alone(t, 0)) && Inv(Alone(t, 1))
         && OthersKept(w.files, t.files, w.rams[0].pages, w.rams[0].sealed)
  {
    var u := StartFork(w, 0, []);
    StartKeepsInv(w, 0, []);
    assert ForkOk(u, 0) && FileOk(w, w.nextGen);
    var v := Pause(u, 0);
    PauseKeepsInv(u, 0);
    assert Dirty(v, 0) == Dirty(w, 0);
    FinishKeepsInv(v, 0, 1, extra);
    PauseIsInvisible(u, extra);
    hide Inv;
    var t := FinishFork(u, 0, 1, extra);
    assert t.forks == map[];
    AloneKeepsInv(t, 0);
    AloneKeepsInv(t, 1);
  }

  lemma ForkKeepsInv(w: World, listed: seq<nat>, extra: seq<nat>)
    requires Inv(w) && w.rams.Keys == {0} && w.forks == map[] && 0 < |w.rams[0].pages|
    requires Ascending(listed) && forall k {:trigger k in listed} :: k in listed <==> k in Dirty(w, 0)
    requires w.rams[0].sealed ==> Distinct(extra) && forall k {:trigger k in extra} :: k in extra <==> k in Dirty(w, 0)
    ensures var u := StartFork(w, 0, []);
      && 0 in u.rams && 0 in u.forks && u.forks[0].generation in u.files
      && var t := FinishFork(u, 0, 1, extra);
         && 0 in t.rams && 1 in t.rams && Inv(Alone(t, 0)) && Inv(Alone(t, 1))
         && OthersKept(w.files, t.files, w.rams[0].pages, w.rams[0].sealed)
  {
    if w.rams[0].sealed {
      PausedForkKeepsInv(w, extra);
    } else {
      PausedForkKeepsInv(w, listed);
      hide Inv;
      ExtraIgnored(StartFork(w, 0, []), listed, extra);
    }
  }

  predicate Ascending(q: seq<nat>) {
    forall i, j :: 0 <= i < j < |q| ==> q[i] < q[j]
  }

  class KvmGuestRam {
    const host: GenerationFiles
    var pages: seq<RamPage>
    /** The address range: the file page behind each page, and the private copies over it. */
    var table: seq<Backing>
    var overlay: map<nat, Page>
    /** How often each page has been mapped. */
    ghost var mapped: seq<nat>
    var hostDirty: set<nat>
    var sealed: bool

    ghost predicate Valid()
      reads this
    {
      |table| == |pages| == |mapped|
    }

    /** The range is mapped the way the page references say, and private copies are whole pages. */
    ghost predicate Consistent()
      reads this, host`files
    {
      && Valid()
      && (forall i :: 0 <= i < |pages| ==> table[i] == BackingOf(pages[i]))
      && (forall i :: i in overlay ==> 0 <= i < |pages| && |overlay[i]| == PAGE_SIZE)
      && (forall i :: 0 <= i < |pages| ==> |PageAt(host.files, pages[i])| == PAGE_SIZE)
    }

    /** This RAM as the only VM of a world; `kvm` is the hypervisor's dirty log. */
    ghost function AsWorld(kvm: set<nat>, forks: map<VmId, Preparation>): World
      reads this, host
    {
      World(host.files, host.nextGen, host.nextPage, map[0 := Ram(pages, overlay, hostDirty, kvm, sealed)], forks)
    }

    /** RAM over existing page references: a reservation, mapped page by page. */
    constructor FromPages(host: GenerationFiles, pages: seq<RamPage>, sealed: bool)
      ensures this.host == host && this.pages == pages && this.sealed == sealed && hostDirty == {} && overlay == map[]
      ensures Valid() && forall i :: 0 <= i < |pages| ==> table[i] == BackingOf(pages[i])
    {
      this.host := host;
      this.pages, this.sealed := pages, sealed;
      this.hostDirty, this.overlay := {}, map[];
      this.table := seq(|pages|, i => Backing(0, 0));
      this.mapped := seq(|pages|, i => 0);
      new;
      MapAllPages();
      assert this.overlay == map[];
    }

    /** Fresh RAM of `len` bytes over one zeroed generation. */
    static method New(host: GenerationFiles, len: nat) returns (r: Result<KvmGuestRam, RamError>)
      modifies host
      ensures r.Err? <==> len == 0 || len % PAGE_SIZE != 0
      ensures r.Err? ==> r.error == InvalidRamSize(len)
      ensures r.Ok? ==> fresh(r.value) && r.value.host == host && r.value.Consistent()
      ensures r.Ok? ==>
        r.value.AsWorld({}, map[])
          == Create(World(old(host.files), old(host.nextGen), old(host.nextPage), map[], map[]), 0, len / PAGE_SIZE)
    {
      if len == 0 || len % PAGE_SIZE != 0 {
        return Err(InvalidRamSize(len));
      }
      var n := len / PAGE_SIZE;
      var generation := host.nextGen;
      host.files := host.files[generation := ZeroPages(n)];
      host.nextGen := host.nextGen + 1;
      ghost var first := host.nextPage;
      var pages: seq<RamPage> := [];
      for index := 0 to n
        invariant host.files == old(host.files)[generation := ZeroPages(n)] && host.nextGen == generation + 1
        invariant |pages| == index && host.nextPage == first + index
        invariant forall i :: 0 <= i < index ==> pages[i] == RamPage(first + i, generation, i)
      {
        pages := pages + [RamPage(host.nextPage, generation, index)];
        host.nextPage := host.nextPage + 1;
      }
      var ram := new KvmGuestRam.FromPages(host, pages, false);
      assert pages == seq(n, i requires 0 <= i => RamPage(first + i, generation, i));
      r := Ok(ram);
    }

    // -------------------------------------------------------------------
    // Host access
    // -------------------------------------------------------------------

    /** One page of the range as it reads now. */
    function Now(i: nat): Page
      reads this, host`files
      requires i < |table|
    {
      if i in overlay then overlay[i] else PageAt(host.files, RamPage(0, table[i].generation, table[i].slot))
    }

    method Write(offset: nat, bytes: seq<Byte>, ghost kvm: set<nat>) returns (r: Result<(), RamError>)
      requires Consistent()
      modifies this`overlay, this`hostDirty
      ensures Consistent()
      ensures r.Err? <==> offset + |bytes| > |pages| * PAGE_SIZE
      ensures r.Err? ==> r.error == RamRange(offset, |bytes|) && AsWorld(kvm, map[]) == old(AsWorld(kvm, map[]))
      ensures r.Ok? ==> AsWorld(kvm, map[]) == HostWrite(old(AsWorld(kvm, map[])), 0, offset, bytes)
    {
      if offset + |bytes| > |pages| * PAGE_SIZE {
        return Err(RamRange(offset, |bytes|));
      }
      r := Ok(());
      ghost var was := AsWorld(kvm, map[]);
      WriteRange(offset, bytes, was);
      ghost var now := Ram(pages, overlay, hostDirty, kvm, sealed);
      assert was.rams[0 := now] == map[0 := now];
    }

    method WriteRange(offset: nat, bytes: seq<Byte>, ghost was: World)
      requires Consistent() && offset + |bytes| <= |pages| * PAGE_SIZE
      requires 0 in was.rams && was == AsWorld(was.rams[0].kvmDirty, map[])
      modifies this`overlay, this`hostDirty
      ensures Consistent()
      ensures overlay == WriteOverlay(was, 0, offset, bytes)
      ensures hostDirty == old(hostDirty) + TouchedPages(offset, |bytes|, |pages|)
    {
      hide Written, WrittenUpTo, WriteOverlay, TouchedPages, Consistent;
      if |bytes| == 0 {
        WrittenNothing(was, offset, bytes);
        return;
      }
      var first, last := offset / PAGE_SIZE, (offset + |bytes| - 1) / PAGE_SIZE;
      var i := first;
      WrittenStart(was, offset, bytes);
      WrittenEnd(was, offset, bytes);
      while i <= last
        invariant first <= i <= last + 1 && last < |pages|
        invariant hostDirty == old(hostDirty) + TouchedPages(offset, |bytes|, i)
        invariant overlay == WrittenUpTo(was, offset, bytes, i)
        invariant Consistent()
      {
        WrittenNext(was, offset, bytes, i);
        WritePage(i, offset, bytes);
        i := i + 1;
      }
    }

    static lemma WrittenNothing(w: World, offset: nat, bytes: seq<Byte>)
      requires 0 in w.rams && |bytes| == 0 && offset <= |w.rams[0].pages| * PAGE_SIZE
      ensures WriteOverlay(w, 0, offset, bytes) == w.rams[0].overlay
      ensures TouchedPages(offset, |bytes|, |w.rams[0].pages|) == {}
    {
    }

    /** The part of a write that lands in one page. */
    method WritePage(i: nat, offset: nat, bytes: seq<Byte>)
      requires Consistent() && i < |pages|
      modifies this`overlay, this`hostDirty
      ensures Consistent()
      ensures var page := if i in old(overlay) then old(overlay)[i] else PageAt(host.files, pages[i]);
        overlay == old(overlay)[i := Written(page, i, offset, bytes)]
      ensures hostDirty == old(hostDirty) + {i}
    {
      overlay := overlay[i := Written(Now(i), i, offset, bytes)];
      hostDirty := hostDirty + {i};
    }

    /** The private copies once the pages below `i` are written. */
    static ghost function WrittenUpTo(w: World, offset: nat, bytes: seq<Byte>, i: nat): map<nat, Page>
      requires 0 in w.rams && i <= |w.rams[0].pages|
    {
      w.rams[0].overlay + map k | 0 <= k < i && Touches(k, offset, |bytes|) :: Written(Read(w, 0, k), k, offset, bytes)
    }

    static lemma WrittenStart(w: World, offset: nat, bytes: seq<Byte>)
      requires 0 in w.rams && 0 < |bytes| && offset + |bytes| <= |w.rams[0].pages| * PAGE_SIZE
      ensures WrittenUpTo(w, offset, bytes, offset / PAGE_SIZE) == w.rams[0].overlay
      ensures TouchedPages(offset, |bytes|, offset / PAGE_SIZE) == {}
    {
    }

    static lemma WrittenNext(w: World, offset: nat, bytes: seq<Byte>, i: nat)
      requires 0 in w.rams && 0 < |bytes| && i < |w.rams[0].pages|
      requires offset / PAGE_SIZE <= i <= (offset + |bytes| - 1) / PAGE_SIZE
      ensures i !in WrittenUpTo(w, offset, bytes, i) <==> i !in w.rams[0].overlay
      ensures i in w.rams[0].overlay ==> WrittenUpTo(w, offset, bytes, i)[i] == w.rams[0].overlay[i]
      ensures WrittenUpTo(w, offset, bytes, i + 1)
           == WrittenUpTo(w, offset, bytes, i)[i := Written(Read(w, 0, i), i, offset, bytes)]
      ensures TouchedPages(offset, |bytes|, i + 1) == TouchedPages(offset, |bytes|, i) + {i}
    {
      assert Touches(i, offset, |bytes|);
      hide Touches, Written, Read;
      WrittenAdds(w, offset, bytes, i);
    }

    static lemma WrittenAdds(w: World, offset: nat, bytes: seq<Byte>, i: nat)
      requires 0 in w.rams && i < |w.rams[0].pages| && Touches(i, offset, |bytes|)
      ensures WrittenUpTo(w, offset, bytes, i + 1)
           == WrittenUpTo(w, offset, bytes, i)[i := Written(Read(w, 0, i), i, offset, bytes)]
    {
      hide Touches, Written, Read;
      var a, b := WrittenUpTo(w, offset, bytes, i + 1), WrittenUpTo(w, offset, bytes, i);
      forall k ensures k in a <==> k in b || k == i { }
      forall k | k in a && k != i ensures a[k] == b[k] { }
    }

    static lemma WrittenEnd(w: World, offset: nat, bytes: seq<Byte>)
      requires 0 in w.rams && 0 < |bytes| && offset + |bytes| <= |w.rams[0].pages| * PAGE_SIZE
      ensures var end := (offset + |bytes| - 1) / PAGE_SIZE + 1;
        && end <= |w.rams[0].pages|
        && WrittenUpTo(w, offset, bytes, end) == WriteOverlay(w, 0, offset, bytes)
        && TouchedPages(offset, |bytes|, end) == TouchedPages(offset, |bytes|, |w.rams[0].pages|)
    {
      var end := (offset + |bytes| - 1) / PAGE_SIZE + 1;
      assert forall k: nat {:trigger Touches(k, offset, |bytes|)} :: Touches(k, offset, |bytes|) ==> k < end;
    }

    // -------------------------------------------------------------------
    // Mapping in runs
    // -------------------------------------------------------------------

    /** Map `count` pages of a file over the range in one call, dropping private copies there. */
    method MapRun(start: nat, count: nat, generation: GenId, slot: nat)
      requires Valid() && start + count <= |pages|
      modifies this`table, this`overlay, this`mapped
      ensures Valid()
      ensures forall i :: 0 <= i < |table| ==>
        table[i] == if start <= i < start + count then Backing(generation, slot + (i - start)) else old(table[i])
      ensures forall i :: 0 <= i < |mapped| ==>
        mapped[i] == old(mapped[i]) + if start <= i < start + count then 1 else 0
      ensures overlay == map i | i in old(overlay) && !(start <= i < start + count) :: old(overlay)[i]
    {
      table := seq(|table|, i requires 0 <= i < |table| reads this =>
        if start <= i < start + count then Backing(generation, slot + (i - start)) else table[i]);
      mapped := seq(|mapped|, i requires 0 <= i < |mapped| reads this =>
        mapped[i] + if start <= i < start + count then 1 else 0);
      overlay := map i | i in overlay && !(start <= i < start + count) :: overlay[i];
    }

    /** Coalescing adjacent pages maps every page, to its own backing, exactly once. */
    method MapAllPages()
      requires Valid()
      modifies this`table, this`overlay, this`mapped
      ensures Valid()
      ensures forall i :: 0 <= i < |pages| ==> table[i] == BackingOf(pages[i]) && mapped[i] == old(mapped[i]) + 1
      ensures forall i :: i in overlay <==> i in old(overlay) && |pages| <= i
    {
      var start := 0;
      while start < |pages|
        invariant start <= |pages| && Valid()
        invariant forall i :: 0 <= i < start ==> table[i] == BackingOf(pages[i]) && mapped[i] == old(mapped[i]) + 1
        invariant forall i :: start <= i < |pages| ==> table[i] == old(table[i]) && mapped[i] == old(mapped[i])
        invariant forall i :: i in overlay <==> i in old(overlay) && start <= i
        decreases |pages| - start
      {
        var generation, slot := pages[start].generation, pages[start].slot;
        var end := start + 1;
        while end < |pages| && pages[end].generation == generation && pages[end].slot == slot + (end - start)
          invariant start < end <= |pages|
          invariant forall i :: start <= i < end ==> pages[i].generation == generation && pages[i].slot == slot + (i - start)
        {
          end := end + 1;
        }
        MapRun(start, end - start, generation, slot);
        start := end;
      }
    }

    /** Coalescing a selection maps the selected pages exactly once, and touches no other. */
    method MapSelectedPages(selected: seq<nat>)
      requires Valid() && Ascending(selected) && (forall k :: 0 <= k < |selected| ==> selected[k] < |pages|)
      modifies this`table, this`overlay, this`mapped
      ensures Valid()
      ensures forall i :: 0 <= i < |pages| ==>
        && table[i] == (if i in selected then BackingOf(pages[i]) else old(table[i]))
        && mapped[i] == old(mapped[i]) + (if i in selected then 1 else 0)
      ensures overlay == map i | i in old(overlay) && i !in selected :: old(overlay)[i]
    {
      var next := 0;
      while next < |selected|
        invariant next <= |selected| && Valid()
        invariant forall i :: 0 <= i < |pages| ==>
          && table[i] == (if i in selected[..next] then BackingOf(pages[i]) else old(table[i]))
          && mapped[i] == old(mapped[i]) + (if i in selected[..next] then 1 else 0)
        invariant overlay == map i | i in old(overlay) && i !in selected[..next] :: old(overlay)[i]
        decreases |selected| - next
      {
        var first := next;
        var start := selected[next];
        var generation, slot := pages[start].generation, pages[start].slot;
        next := next + 1;
        var end := start + 1;
        while next < |selected| && selected[next] == end
              && pages[end].generation == generation && pages[end].slot == slot + (end - start)
          invariant first < next <= |selected| && end - start == next - first && end <= |pages|
          invariant forall k :: first <= k < next ==> selected[k] == start + (k - first)
          invariant forall i :: start <= i < end ==> pages[i].generation == generation && pages[i].slot == slot + (i - start)
        {
          next := next + 1;
          end := end + 1;
        }
        RunOfSelected(selected, first, next, start, end);
        MapRun(start, end - start, generation, slot);
      }
      assert selected[..next] == selected;
    }

    static lemma RunOfSelected(selected: seq<nat>, first: nat, next: nat, start: nat, end: nat)
      requires Ascending(selected) && first < next <= |selected| && end - start == next - first
      requires forall k :: first <= k < next ==> selected[k] == start + (k - first)
      ensures forall i :: i in selected[..next] <==> i in selected[..first] || start <= i < end
      ensures forall i :: i in selected[..first] ==> !(start <= i < end)
    {
      forall i | i in selected[..next] ensures i in selected[..first] || start <= i < end {
        var k :| 0 <= k < next && selected[k] == i;
        if k < first { assert selected[..first][k] == i; }
      }
      forall i | i in selected[..first] || start <= i < end ensures i in selected[..next] {
        if i in selected[..first] {
          var k :| 0 <= k < first && selected[k] == i;
          assert selected[..next][k] == i;
        } else {
          assert selected[..next][first + (i - start)] == i;
        }
      }
      forall i | i in selected[..first] ensures !(start <= i < end) {
        var k :| 0 <= k < first && selected[k] == i;
        assert selected[k] < selected[first];
      }
    }

    // -------------------------------------------------------------------
    // Forking without interleaving
    // -------------------------------------------------------------------

    /** Write a page over another, as many bytes at a time as the kernel accepts. */
    static method WriteAll(source: Page, target: Page) returns (r: Page)
      requires |source| == |target| == PAGE_SIZE
      ensures r == source
    {
      r := target;
      var written := 0;
      while written < PAGE_SIZE
        invariant written <= PAGE_SIZE && |r| == PAGE_SIZE
        invariant forall j :: 0 <= j < written ==> r[j] == source[j]
        decreases PAGE_SIZE - written
      {
        var result: nat :| 1 <= result <= PAGE_SIZE - written;
        r := Splice(r, written, source[written..written + result]);
        written := written + result;
      }
    }

    /** Copy one page out, to its own backing or to a slot this RAM does not refer to. */
    method CopyPageTo(index: nat, generation: GenId, slot: nat)
      requires Consistent() && index < |pages| && generation in host.files && slot < |host.files[generation]|
      requires |host.files[generation][slot]| == PAGE_SIZE && Apart(index, generation, slot)
      modifies host`files
      ensures host.files == SetSlot(old(host.files), generation, slot, old(Now(index)))
      ensures Consistent() && |old(Now(index))| == PAGE_SIZE
      ensures forall i :: 0 <= i < |pages| ==> Now(i) == old(Now(i))
    {
      var page := WriteAll(Now(index), host.files[generation][slot]);
      host.files := SetSlot(host.files, generation, slot, page);
    }

    /** No other page of this RAM refers to the slot. */
    ghost predicate Apart(index: nat, generation: GenId, slot: nat)
      reads this
      requires index < |pages|
    {
      forall i :: 0 <= i < |pages| && i != index ==> BackingOf(pages[i]) != Backing(generation, slot)
    }

    /** Unsealed RAM is one generation, page for slot. */
    ghost predicate OneGeneration()
      reads this, host
    {
      && 0 < |pages|
      && (forall i :: 0 <= i < |pages| ==> BackingOf(pages[i]) == Backing(pages[0].generation, i))
      && pages[0].generation in host.files && |pages| <= |host.files[pages[0].generation]|
    }

    /** A preparation of this RAM whose copies are complete. */
    ghost predicate Prepared(p: Preparation)
      reads this, host
    {
      && p.done == |p.order| && Ascending(p.order) && (forall k :: 0 <= k < |p.order| ==> p.order[k] < |pages|)
      && p.generation in host.files
      && p.sealsExisting == !sealed
      && (p.sealsExisting ==> OneGeneration() && p.generation == pages[0].generation)
      && (!p.sealsExisting ==>
            && |host.files[p.generation]| == |p.order|
            && (forall k :: 0 <= k < |p.order| ==> |host.files[p.generation][k]| == PAGE_SIZE)
            && (forall i :: 0 <= i < |pages| ==> pages[i].generation != p.generation))
    }

    /** Copy the listed pages aside, with nobody writing meanwhile. */
    method PrepareFork(order: seq<nat>) returns (r: Result<Preparation, RamError>)
      requires Consistent() && Ascending(order) && 0 < |pages|
      requires !sealed ==> OneGeneration()
      requires forall i :: 0 <= i < |pages| ==> pages[i].generation < host.nextGen
      modifies host
      ensures r.Err? <==> exists k :: 0 <= k < |order| && |pages| <= order[k]
      ensures r.Err? ==> r.error.InvalidDirtyPage? && r.error.page in order && |pages| <= r.error.page
      ensures r.Err? ==> host.files == old(host.files) && host.nextGen == old(host.nextGen) && host.nextPage == old(host.nextPage)
      ensures r.Ok? ==> r.value.order == order && Consistent() && Prepared(r.value)
      ensures r.Ok? ==> forall k :: 0 <= k < |order| ==>
        PageAt(host.files, RamPage(0, r.value.generation, SlotOf(r.value, k))) == old(Now(order[k]))
      ensures r.Ok? ==> forall i :: 0 <= i < |pages| ==> Now(i) == old(Now(i))
      ensures r.Ok? && sealed ==>
        && r.value == Preparation(old(host.nextGen), order, |order|, 0, old(host.nextPage), false, false)
        && host.nextGen == old(host.nextGen) + 1 && host.nextPage == old(host.nextPage) + |order|
        && (order == [] ==> host.files == old(host.files)[old(host.nextGen) := ZeroPages(0)])
      ensures r.Ok? && !sealed ==>
        && r.value == Preparation(pages[0].generation, order, |order|, 0, 0, true, false)
        && host.nextGen == old(host.nextGen) && host.nextPage == old(host.nextPage)
        && (order == [] ==> host.files == old(host.files))
      ensures r.Ok? ==> forall g :: g in old(host.files) && g != r.value.generation ==> g in host.files && host.files[g] == old(host.files[g])
    {
      for k := 0 to |order|
        invariant forall j :: 0 <= j < k ==> order[j] < |pages|
      {
        if order[k] >= |pages| {
          return Err(InvalidDirtyPage(order[k], |pages|));
        }
      }
      if !sealed {
        CopyToOwn(order);
        return Ok(Preparation(pages[0].generation, order, |order|, 0, 0, true, false));
      }
      r := CopyToNew(order);
    }

    method CopyToOwn(order: seq<nat>)
      requires Consistent() && Ascending(order) && OneGeneration() && (forall k :: 0 <= k < |order| ==> order[k] < |pages|)
      modifies host`files
      ensures Consistent() && OneGeneration()
      ensures forall i :: 0 <= i < |pages| ==> Now(i) == old(Now(i))
      ensures forall k :: 0 <= k < |order| ==> host.files[pages[0].generation][order[k]] == old(Now(order[k]))
      ensures order == [] ==> host.files == old(host.files)
      ensures forall g :: g in old(host.files) && g != pages[0].generation ==> g in host.files && host.files[g] == old(host.files[g])
    {
      var g := pages[0].generation;
      for k := 0 to |order|
        invariant Consistent() && OneGeneration() && (k == 0 ==> host.files == old(host.files))
        invariant forall i :: 0 <= i < |pages| ==> Now(i) == old(Now(i))
        invariant forall j :: 0 <= j < k ==> host.files[g][order[j]] == old(Now(order[j]))
        invariant forall h :: h in old(host.files) && h != g ==> h in host.files && host.files[h] == old(host.files[h])
      {
        assert BackingOf(pages[order[k]]) == Backing(g, order[k]);
        assert PageAt(host.files, pages[order[k]]) == host.files[g][order[k]];
        CopyPageTo(order[k], g, order[k]);
      }
    }

    /** A zeroed generation file under a new id. */
    method Zeroed(n: nat) returns (g: GenId)
      requires Consistent() && forall i :: 0 <= i < |pages| ==> pages[i].generation < host.nextGen
      modifies host`files, host`nextGen
      ensures g == old(host.nextGen) && host.nextGen == g + 1 && host.files == old(host.files)[g := ZeroPages(n)]
      ensures Consistent() && (forall i :: 0 <= i < |pages| ==> Now(i) == old(Now(i)))
      ensures forall j :: 0 <= j < n ==> |host.files[g][j]| == PAGE_SIZE
    {
      g := host.nextGen;
      host.nextGen := g + 1;
      host.files := host.files[g := ZeroPages(n)];
    }

    method CopyToNew(order: seq<nat>) returns (r: Result<Preparation, RamError>)
      requires Consistent() && Ascending(order) && sealed && (forall k :: 0 <= k < |order| ==> order[k] < |pages|)
      requires forall i :: 0 <= i < |pages| ==> pages[i].generation < host.nextGen
      modifies host
      ensures r.Ok? && r.value.order == order && !r.value.sealsExisting && Consistent() && Prepared(r.value)
      ensures r.value.generation == old(host.nextGen) && host.nextGen == old(host.nextGen) + 1
      ensures r.value == Preparation(old(host.nextGen), order, |order|, 0, old(host.nextPage), false, false)
      ensures host.nextPage == old(host.nextPage) + |order|
      ensures order == [] ==> host.files == old(host.files)[r.value.generation := ZeroPages(0)]
      ensures forall k :: 0 <= k < |order| ==> host.files[r.value.generation][k] == old(Now(order[k]))
      ensures forall i :: 0 <= i < |pages| ==> Now(i) == old(Now(i))
      ensures forall g :: g in old(host.files) && g != r.value.generation ==> g in host.files && host.files[g] == old(host.files[g])
    {
      assert |table| == |pages|;
      hide ZeroPages, Consistent, Now;
      var g := Zeroed(|order|);
      var first := host.nextPage;
      for k := 0 to |order|
        invariant Consistent() && g in host.files && |host.files[g]| == |order|
        invariant host.nextGen == g + 1 && host.nextPage == first + k
        invariant k == 0 ==> host.files == old(host.files)[g := ZeroPages(|order|)]
        invariant forall i :: 0 <= i < |pages| ==> Now(i) == old(Now(i))
        invariant forall j :: 0 <= j < |order| ==> |host.files[g][j]| == PAGE_SIZE
        invariant forall j :: 0 <= j < k ==> host.files[g][j] == old(Now(order[j]))
        invariant forall h :: h in old(host.files) && h != g ==> h in host.files && host.files[h] == old(host.files[h])
      {
        CopyPageTo(order[k], g, k);
        host.nextPage := host.nextPage + 1;
      }
      r := Ok(Preparation(g, order, |order|, 0, first, false, false));
    }

    /** The pages of a set, in ascending order. */
    method Sorted(chosen: set<nat>) returns (q: seq<nat>)
      ensures Ascending(q) && (forall i :: i in q <==> i in chosen && i < |pages|) && (forall k :: 0 <= k < |q| ==> q[k] < |pages|)
    {
      q := [];
      for i := 0 to |pages|
        invariant Ascending(q) && (forall k :: k in q <==> k in chosen && k < i) && (forall j :: 0 <= j < |q| ==> q[j] < i)
      {
        if i in chosen {
          q := q + [i];
        }
      }
    }

    /**
     With the guest paused: copy the dirty pages over the preparation, seal,
     and return the child's page references.
     */
    method FinishPreparedPages(p: Preparation, dirty: set<nat>, ghost kvm: set<nat>)
      returns (branch: seq<RamPage>, ghost extra: seq<nat>)
      requires Consistent() && Prepared(p) && dirty == hostDirty + kvm && (forall i :: i in dirty ==> i < |pages|)
      modifies this, host
      ensures !p.sealsExisting ==> Distinct(extra) && (forall i :: i in extra <==> i in dirty && i !in p.order)
      ensures Finished(p, old(AsWorld(kvm, map[0 := p])), extra) && branch == pages && sealed && hostDirty == {}
      ensures Valid() && forall i :: 0 <= i < |pages| ==> table[i] == BackingOf(pages[i])
    {
      hide *;
      if p.sealsExisting {
        extra := [];
        FinishOwn(p, dirty, kvm);
        branch := pages;
      } else {
        extra := FinishNew(p, dirty, kvm);
        branch := pages;
      }
    }

    ghost predicate Finished(p: Preparation, w: World, extra: seq<nat>)
      reads this, host
    {
      && 0 in w.rams && 0 in w.forks && w.forks[0].generation in w.files
      && var t := FinishFork(w, 0, 1, extra);
         && pages == t.rams[1].pages && Ram(pages, overlay, hostDirty, {}, sealed) == t.rams[0]
         && host.files == t.files && host.nextGen == t.nextGen && host.nextPage == t.nextPage
    }

    method FinishOwn(p: Preparation, dirty: set<nat>, ghost kvm: set<nat>)
      requires Consistent() && Prepared(p) && p.sealsExisting && dirty == hostDirty + kvm && (forall i :: i in dirty ==> i < |pages|)
      modifies this, host
      ensures Finished(p, old(AsWorld(kvm, map[0 := p])), []) && sealed && hostDirty == {}
      ensures Valid() && forall i :: 0 <= i < |pages| ==> table[i] == BackingOf(pages[i])
    {
      hide FinishedFile, Position;
      CopyDirtyToOwn(dirty, AsWorld(kvm, map[0 := p]));
      overlay := map[];
      sealed := true;
      hostDirty := {};
    }

    method FinishNew(p: Preparation, dirty: set<nat>, ghost kvm: set<nat>) returns (ghost extra: seq<nat>)
      requires Consistent() && Prepared(p) && !p.sealsExisting && dirty == hostDirty + kvm && (forall i :: i in dirty ==> i < |pages|)
      modifies this, host
      ensures Distinct(extra) && forall i :: i in extra <==> i in dirty && i !in p.order
      ensures Finished(p, old(AsWorld(kvm, map[0 := p])), extra) && sealed && hostDirty == {}
      ensures Valid() && forall i :: 0 <= i < |pages| ==> table[i] == BackingOf(pages[i])
    {
      hide FinishedFile, FinishedPages, FinishFork, Position;
      ghost var w := AsWorld(kvm, map[0 := p]);
      var prepared;
      prepared, extra := CopyDirtyToNew(p, dirty, w);
      Install(prepared);
      InstalledIsFinished(w, p, extra, prepared, pages, overlay);
    }

    /** Take over new page references and map the changed pages. */
    method Install(prepared: map<nat, RamPage>)
      requires Consistent() && forall i :: i in prepared ==> i < |pages|
      modifies this
      ensures Valid() && |pages| == |old(pages)| && sealed && hostDirty == {}
      ensures forall i :: 0 <= i < |pages| ==>
        pages[i] == (if i in prepared then prepared[i] else old(pages)[i]) && table[i] == BackingOf(pages[i])
      ensures overlay == map i | i in old(overlay) && i !in prepared :: old(overlay)[i]
    {
      var changed := Sorted(prepared.Keys);
      pages := seq(|pages|, i requires 0 <= i < |pages| reads this => if i in prepared then prepared[i] else pages[i]);
      MapSelectedPages(changed);
      sealed := true;
      hostDirty := {};
    }

    static lemma InstalledIsFinished(w: World, p: Preparation, extra: seq<nat>, prepared: map<nat, RamPage>,
                                     pages: seq<RamPage>, overlay: map<nat, Page>)
      requires 0 in w.rams && 0 in w.forks && w.forks[0] == p && !p.sealsExisting && p.generation in w.files
      requires |pages| == |w.rams[0].pages|
      requires forall i :: i in prepared <==> i in p.order || i in extra
      requires forall i :: i in prepared ==> i < |pages| && prepared[i] == FinishedPages(w, 0, extra)[i]
      requires forall i :: 0 <= i < |pages| ==> pages[i] == (if i in prepared then prepared[i] else w.rams[0].pages[i])
      requires overlay == map i | i in w.rams[0].overlay && i !in prepared :: w.rams[0].overlay[i]
      ensures pages == FinishedPages(w, 0, extra)
      ensures var t := FinishFork(w, 0, 1, extra);
        && t.rams[1].pages == pages && t.rams[0] == Ram(pages, overlay, {}, {}, true)
        && t.files == w.files[p.generation := FinishedFile(w, 0, w.rams[0].hostDirty + w.rams[0].kvmDirty, extra)]
        && t.nextGen == w.nextGen && t.nextPage == w.nextPage + |extra|
    {
    }

    method CopyDirtyToOwn(dirty: set<nat>, ghost w: World)
      requires Consistent() && OneGeneration() && (forall i :: i in dirty ==> i < |pages|)
      requires 0 in w.rams && 0 in w.forks && w == AsWorld(w.rams[0].kvmDirty, w.forks)
      requires w.forks[0].sealsExisting && w.forks[0].generation == pages[0].generation
      modifies host`files
      ensures host.files == w.files[pages[0].generation := FinishedFile(w, 0, dirty, [])]
    {
      var g := pages[0].generation;
      var todo := dirty;
      ghost var copied: set<nat> := {};
      assert FinishedFile(w, 0, {}, []) == w.files[g];
      while todo != {}
        invariant copied + todo == dirty && Consistent() && OneGeneration()
        invariant host.files == w.files[g := FinishedFile(w, 0, copied, [])]
        decreases todo
      {
        var index :| index in todo;
        assert BackingOf(pages[index]) == Backing(g, index);
        assert PageAt(host.files, pages[index]) == host.files[g][index];
        OwnNow(index, copied, w);
        CopyPageTo(index, g, index);
        assert FinishedFile(w, 0, copied + {index}, []) == FinishedFile(w, 0, copied, [])[index := Read(w, 0, index)];
        todo, copied := todo - {index}, copied + {index};
      }
      assert copied == dirty;
    }

    /** Copies to the own backing so far have not changed what a page reads. */
    lemma OwnNow(index: nat, copied: set<nat>, w: World)
      requires Consistent() && OneGeneration() && index < |pages|
      requires 0 in w.rams && 0 in w.forks && w.rams[0].pages == pages && w.rams[0].overlay == overlay
      requires w.forks[0].sealsExisting && w.forks[0].generation == pages[0].generation && pages[0].generation in w.files
      requires host.files == w.files[pages[0].generation := FinishedFile(w, 0, copied, [])]
      requires |pages| <= |w.files[pages[0].generation]|
      ensures Now(index) == Read(w, 0, index)
    {
      assert BackingOf(pages[index]) == Backing(pages[0].generation, index);
    }

    method CopyDirtyToNew(p: Preparation, dirty: set<nat>, ghost w: World)
      returns (prepared: map<nat, RamPage>, ghost extra: seq<nat>)
      requires Consistent() && Prepared(p) && !p.sealsExisting && (forall i :: i in dirty ==> i < |pages|)
      requires 0 in w.rams && w == AsWorld(w.rams[0].kvmDirty, map[0 := p])
      modifies host
      ensures Distinct(extra) && forall i :: i in extra <==> i in dirty && i !in p.order
      ensures host.files == w.files[p.generation := FinishedFile(w, 0, dirty, extra)]
      ensures host.nextGen == w.nextGen && host.nextPage == w.nextPage + |extra|
      ensures forall i :: i in prepared <==> i in p.order || i in extra
      ensures forall i :: i in prepared ==> i < |pages| && prepared[i] == FinishedPages(w, 0, extra)[i]
    {
      prepared := PreparedPages(p, w.nextPage);
      extra := [];
      var nextSlot := |p.order|;
      var todo := dirty;
      ghost var copied: set<nat> := {};
      assert FinishedFile(w, 0, {}, []) == w.files[p.generation];
      hide FinishedFile, ReferencesOf, FinishedPages, Position;
      while todo != {}
        invariant copied + todo == dirty && copied !! todo && Consistent()
        invariant Distinct(extra) && Growing(p, copied, extra, w) && nextSlot == |p.order| + |extra|
        invariant prepared == ReferencesOf(p, w.nextPage, extra)
        decreases todo
      {
        var index :| index in todo;
        prepared, extra, nextSlot := CopyOneToNew(p, index, prepared, nextSlot, copied, extra, w);
        todo, copied := todo - {index}, copied + {index};
      }
      assert copied == dirty;
      ReferencesAreFinished(w, p, extra);
    }

    /** One dirty page: reuse the slot the preparation has for it, or grow the file by one. */
    method CopyOneToNew(p: Preparation, index: nat, prepared: map<nat, RamPage>, nextSlot: nat,
                        ghost copied: set<nat>, ghost extra: seq<nat>, ghost w: World)
      returns (prepared': map<nat, RamPage>, ghost extra': seq<nat>, nextSlot': nat)
      requires Consistent() && Ascending(p.order) && !p.sealsExisting && index < |pages| && index !in copied
      requires forall i :: 0 <= i < |pages| ==> pages[i].generation != p.generation
      requires Growing(p, copied, extra, w) && nextSlot == |p.order| + |extra|
      requires prepared == ReferencesOf(p, w.nextPage, extra)
      modifies host`files, host`nextPage
      ensures Consistent() && Growing(p, copied + {index}, extra', w)
      ensures extra' == (if index in p.order then extra else extra + [index])
      ensures prepared' == ReferencesOf(p, w.nextPage, extra') && nextSlot' == |p.order| + |extra'|
    {
      hide FinishedFile, ReferencesOf, Position, Growing, Consistent;
      prepared', extra', nextSlot' := prepared, extra, nextSlot;
      ReferencesKnown(p, w.nextPage, extra, index);
      GrowingExtra(p, copied, extra, w);
      if index in prepared {
        CopyAgain(p, index, prepared[index].slot, copied, extra, w);
      } else {
        ReferencesExtended(p, w.nextPage, extra, index);
        CopyFresh(p, index, nextSlot, copied, extra, w);
        prepared' := prepared[index := RamPage(host.nextPage, p.generation, nextSlot)];
        host.nextPage := host.nextPage + 1;
        extra', nextSlot' := extra + [index], nextSlot + 1;
        GrowingCounted(p, copied + {index}, extra', w);
      }
    }

    lemma GrowingExtra(p: Preparation, copied: set<nat>, extra: seq<nat>, w: World)
      requires Growing(p, copied, extra, w)
      ensures (forall i :: i in extra <==> i in copied && i !in p.order) && host.nextPage == w.nextPage + |extra|
    {
    }

    lemma GrowingCounted(p: Preparation, copied: set<nat>, extra: seq<nat>, w: World)
      requires GrowingFile(p, copied, extra, w) && host.nextPage == w.nextPage + |extra|
      ensures Growing(p, copied, extra, w)
    {
    }

    /** A page the preparation has a slot for is copied over it. */
    method CopyAgain(p: Preparation, index: nat, slot: nat, ghost copied: set<nat>, ghost extra: seq<nat>, ghost w: World)
      requires Consistent() && Ascending(p.order) && index < |pages| && index in p.order && slot == Position(p.order, index)
      requires forall i :: 0 <= i < |pages| ==> pages[i].generation != p.generation
      requires Growing(p, copied, extra, w)
      modifies host`files
      ensures Consistent() && Growing(p, copied + {index}, extra, w)
    {
      hide FinishedFile, Position;
      FinishedSizes(w, copied, extra);
      FinishedKnown(w, copied, extra, index);
      CopyPageTo(index, p.generation, slot);
    }

    /** Any other page gets a slot at the end of the file. */
    method CopyFresh(p: Preparation, index: nat, slot: nat, ghost copied: set<nat>, ghost extra: seq<nat>, ghost w: World)
      requires Consistent() && index < |pages| && index !in p.order && index !in copied && slot == |p.order| + |extra|
      requires forall i :: 0 <= i < |pages| ==> pages[i].generation != p.generation
      requires Growing(p, copied, extra, w)
      modifies host`files
      ensures Consistent() && GrowingFile(p, copied + {index}, extra + [index], w)
    {
      hide FinishedFile, Position;
      ghost var file := FinishedFile(w, 0, copied, extra);
      FinishedSizes(w, copied, extra);
      FinishedExtra(w, copied, extra, index);
      GrowFile(p.generation);
      assert (file + [Zeros(PAGE_SIZE)])[slot := Read(w, 0, index)] == file + [Read(w, 0, index)];
      CopyPageTo(index, p.generation, slot);
    }

    method GrowFile(g: GenId)
      requires Consistent() && g in host.files && forall i :: 0 <= i < |pages| ==> pages[i].generation != g
      modifies host`files
      ensures Consistent() && host.files == old(host.files)[g := old(host.files[g]) + [Zeros(PAGE_SIZE)]]
      ensures forall i :: 0 <= i < |pages| ==> Now(i) == old(Now(i))
    {
      host.files := host.files[g := host.files[g] + [Zeros(PAGE_SIZE)]];
    }

    static lemma ReferencesKnown(p: Preparation, nextPage: nat, extra: seq<nat>, i: nat)
      ensures i in ReferencesOf(p, nextPage, extra) <==> i in p.order || i in extra
      ensures i in p.order ==> ReferencesOf(p, nextPage, extra)[i].slot == Position(p.order, i)
    {
    }

    /** The host's files and counters while the dirty pages `copied` are being added to the preparation. */
    ghost predicate Growing(p: Preparation, copied: set<nat>, extra: seq<nat>, w: World)
      reads this, host
    {
      GrowingFile(p, copied, extra, w) && host.nextPage == w.nextPage + |extra|
    }

    ghost predicate GrowingFile(p: Preparation, copied: set<nat>, extra: seq<nat>, w: World)
      reads this, host
    {
      && 0 in w.rams && 0 in w.forks && w.forks[0] == p && p.generation in w.files && !p.sealsExisting
      && w.rams[0].pages == pages && w.rams[0].overlay == overlay
      && |w.files[p.generation]| == |p.order|
      && (forall k :: 0 <= k < |p.order| ==> |w.files[p.generation][k]| == PAGE_SIZE && p.order[k] < |pages|)
      && (forall i :: 0 <= i < |pages| ==> |Read(w, 0, i)| == PAGE_SIZE)
      && (forall i :: i in extra <==> i in copied && i !in p.order) && (forall i :: i in copied ==> i < |pages|)
      && host.files == w.files[p.generation := FinishedFile(w, 0, copied, extra)]
      && host.nextGen == w.nextGen
    }

    static lemma FinishedSizes(w: World, copied: set<nat>, extra: seq<nat>)
      requires 0 in w.rams && 0 in w.forks && w.forks[0].generation in w.files && !w.forks[0].sealsExisting
      requires |w.files[w.forks[0].generation]| == |w.forks[0].order|
      requires forall k :: 0 <= k < |w.forks[0].order| ==> |w.files[w.forks[0].generation][k]| == PAGE_SIZE
      requires forall i :: 0 <= i < |w.rams[0].pages| ==> |Read(w, 0, i)| == PAGE_SIZE
      requires forall i :: i in extra ==> i < |w.rams[0].pages|
      ensures var file := FinishedFile(w, 0, copied, extra);
        |file| == |w.forks[0].order| + |extra| && forall k :: 0 <= k < |file| ==> |file[k]| == PAGE_SIZE
    {
      forall k | 0 <= k < |extra| ensures extra[k] < |w.rams[0].pages| {
        assert extra[k] in extra;
      }
    }

    static lemma FinishedKnown(w: World, copied: set<nat>, extra: seq<nat>, index: nat)
      requires 0 in w.rams && 0 in w.forks && w.forks[0].generation in w.files && !w.forks[0].sealsExisting
      requires Ascending(w.forks[0].order) && index in w.forks[0].order && index < |w.rams[0].pages|
      ensures var k := Position(w.forks[0].order, index);
        && k < |FinishedFile(w, 0, copied, extra)|
        && FinishedFile(w, 0, copied + {index}, extra) == FinishedFile(w, 0, copied, extra)[k := Read(w, 0, index)]
    {
      var order := w.forks[0].order;
      var k := Position(order, index);
      assert forall j :: 0 <= j < |order| && j != k ==> order[j] != index;
    }

    static lemma FinishedExtra(w: World, copied: set<nat>, extra: seq<nat>, index: nat)
      requires 0 in w.rams && 0 in w.forks && w.forks[0].generation in w.files && !w.forks[0].sealsExisting
      requires index !in w.forks[0].order && index < |w.rams[0].pages|
      ensures FinishedFile(w, 0, copied + {index}, extra + [index]) == FinishedFile(w, 0, copied, extra) + [Read(w, 0, index)]
    {
      var order := w.forks[0].order;
      var before, after := FinishedFile(w, 0, copied, extra), FinishedFile(w, 0, copied + {index}, extra + [index]);
      forall k | 0 <= k < |before| ensures after[k] == before[k] {
        if k < |order| {
          assert order[k] in order;
        } else {
          assert (extra + [index])[k - |order|] == extra[k - |order|];
        }
      }
    }

    static lemma {:induction false} PositionExtended(q: seq<nat>, x: nat, i: nat)
      requires x !in q
      ensures Position(q + [x], i) == if i in q then Position(q, i) else if i == x then |q| else |q| + 1
    {
      if q != [] {
        assert (q + [x])[1..] == q[1..] + [x];
        PositionExtended(q[1..], x, i);
      }
    }

    static lemma ReferencesExtended(p: Preparation, nextPage: nat, extra: seq<nat>, index: nat)
      requires index !in p.order && index !in extra
      ensures ReferencesOf(p, nextPage, extra + [index])
           == ReferencesOf(p, nextPage, extra)[index := RamPage(nextPage + |extra|, p.generation, |p.order| + |extra|)]
    {
      forall i | i in p.order || i in extra + [index] ensures i !in p.order ==>
        Position(extra + [index], i) == if i in extra then Position(extra, i) else |extra|
      {
        PositionExtended(extra, index, i);
      }
    }

    /** The references a preparation gives to its own pages and to `extra` ones. */
    static function ReferencesOf(p: Preparation, nextPage: nat, extra: seq<nat>): map<nat, RamPage> {
      map i | i in p.order + extra ::
        if i in p.order then RamPage(p.firstId + Position(p.order, i), p.generation, Position(p.order, i))
        else RamPage(nextPage + Position(extra, i), p.generation, |p.order| + Position(extra, i))
    }

    static lemma ReferencesAreFinished(w: World, p: Preparation, extra: seq<nat>)
      requires 0 in w.rams && 0 in w.forks && w.forks[0] == p && !p.sealsExisting
      requires forall i :: i in p.order || i in extra ==> i < |w.rams[0].pages|
      ensures |FinishedPages(w, 0, extra)| == |w.rams[0].pages|
      ensures forall i :: i in ReferencesOf(p, w.nextPage, extra) <==> i in p.order || i in extra
      ensures forall i :: i in ReferencesOf(p, w.nextPage, extra) ==>
        i < |w.rams[0].pages| && ReferencesOf(p, w.nextPage, extra)[i] == FinishedPages(w, 0, extra)[i]
    {
    }

    static lemma {:induction false} PositionOf(q: seq<nat>, k: nat)
      requires Ascending(q) && k < |q|
      ensures Position(q, q[k]) == k
    {
      var j := Position(q, q[k]);
      assert q[k] in q;
      assert q[j] == q[k];
    }

    static method PreparedPages(p: Preparation, ghost nextPage: nat) returns (prepared: map<nat, RamPage>)
      requires Ascending(p.order)
      ensures prepared == ReferencesOf(p, nextPage, [])
    {
      hide Position, Ascending;
      prepared := map[];
      for k := 0 to |p.order|
        invariant forall i :: i in prepared ==> exists j :: 0 <= j < k && p.order[j] == i
        invariant forall j :: 0 <= j < k ==> p.order[j] in prepared
        invariant forall i :: i in prepared ==> prepared[i] == RamPage(p.firstId + Position(p.order, i), p.generation, Position(p.order, i))
      {
        PositionOf(p.order, k);
        prepared := prepared[p.order[k] := RamPage(p.firstId + k, p.generation, k)];
        assert p.order[k] in prepared;
      }
      assert p.order + [] == p.order;
    }

    /** The pages dirty by the host's account or by the hypervisor's bitmap. */
    method DirtyPages(log: seq<bv64>) returns (dirty: set<nat>)
      ensures dirty == hostDirty + LoggedPages(log, |pages|)
    {
      hide BitSet;
      dirty := hostDirty;
      for w := 0 to |log|
        invariant forall i :: i in dirty <==> i in hostDirty || (0 <= i < |pages| && i < w * 64 && Logged(log, i))
      {
        for bit := 0 to 64
          invariant forall i :: i in dirty <==> i in hostDirty || (0 <= i < |pages| && i < w * 64 + bit && Logged(log, i))
        {
          var page := w * 64 + bit;
          assert page / 64 == w && page % 64 == bit;
          if BitSet(log[w], bit) && page < |pages| {
            dirty := dirty + {page};
          }
        }
      }
    }

    /** Fork a paused VM: source and child both read what the source read. */
    method Fork(log: seq<bv64>) returns (child: KvmGuestRam)
      requires Consistent() && Inv(AsWorld(LoggedPages(log, |pages|), map[]))
      modifies this, host
      ensures fresh(child) && child.host == host && child.pages == pages && child.sealed && sealed && hostDirty == {}
      ensures Consistent() && child.Consistent() && |pages| == |old(pages)|
      ensures Inv(AsWorld({}, map[])) && Inv(child.AsWorld({}, map[]))
      ensures OthersKept(old(host.files), host.files, old(pages), old(sealed))
      ensures forall i :: 0 <= i < |pages| ==> Now(i) == old(Now(i)) && child.Now(i) == old(Now(i))
    {
      hide Inv;
      var branch := ForkPages(log);
      child := new KvmGuestRam.FromPages(host, branch, true);
      assert child.AsWorld({}, map[]) == BranchWorld(branch);
    }

    method ForkPages(log: seq<bv64>) returns (branch: seq<RamPage>)
      requires Consistent() && Inv(AsWorld(LoggedPages(log, |pages|), map[]))
      modifies this, host
      ensures branch == pages && sealed && hostDirty == {} && Consistent() && |pages| == |old(pages)|
      ensures Inv(AsWorld({}, map[])) && Inv(BranchWorld(branch))
      ensures OthersKept(old(host.files), host.files, old(pages), old(sealed))
      ensures forall i :: 0 <= i < |pages| ==> Now(i) == old(Now(i)) && PageAt(host.files, branch[i]) == old(Now(i))
    {
      hide Inv, FinishFork, StartFork, LoggedPages, Prepared, OneGeneration, OthersKept, Ascending, Finished;
      ghost var kvm := LoggedPages(log, |pages|);
      ghost var w := AsWorld(kvm, map[]);
      var dirty := DirtyPages(log);
      var listed := Sorted(dirty);
      ForkReady(kvm);
      var p := StartUnderPause(kvm);
      ghost var extra;
      branch, extra := FinishPreparedPages(p, dirty, kvm);
      FinishedReads(p, w, listed, extra);
      ForkKeepsInv(w, listed, extra);
      FinishedWorlds(p, StartFork(w, 0, []), extra);
      ConsistentAgain();
    }

    /** A finished fork reads, from both sides, as the source read before. */
    lemma FinishedReads(p: Preparation, w: World, listed: seq<nat>, extra: seq<nat>)
      requires Inv(w) && w.rams.Keys == {0} && w.forks == map[] && 0 < |w.rams[0].pages|
      requires Ascending(listed) && forall k {:trigger k in listed} :: k in listed <==> k in Dirty(w, 0)
      requires w.rams[0].sealed ==> Distinct(extra) && forall k {:trigger k in extra} :: k in extra <==> k in Dirty(w, 0)
      requires Finished(p, StartFork(w, 0, []), extra)
      requires Valid() && forall i :: 0 <= i < |pages| ==> table[i] == BackingOf(pages[i])
      ensures |pages| == |w.rams[0].pages|
      ensures forall i :: 0 <= i < |pages| ==> Now(i) == Read(w, 0, i) && PageAt(host.files, pages[i]) == Read(w, 0, i)
    {
      hide Inv, FinishFork, StartFork, Ascending;
      ForkReads(w, listed, extra, 0);
      forall i | 0 <= i < |pages| ensures Now(i) == Read(w, 0, i) && PageAt(host.files, pages[i]) == Read(w, 0, i) {
        ForkReads(w, listed, extra, i);
      }
    }

    /** A child that is only page references so far. */
    ghost function BranchWorld(branch: seq<RamPage>): World
      reads host
    {
      World(host.files, host.nextGen, host.nextPage, map[0 := Ram(branch, map[], {}, {}, true)], map[])
    }

    /** A finished fork leaves the two VMs of the machine's fork. */
    lemma FinishedWorlds(p: Preparation, u: World, extra: seq<nat>)
      requires Finished(p, u, extra)
      ensures var t := FinishFork(u, 0, 1, extra);
        && AsWorld({}, map[]) == Alone(t, 0) && BranchWorld(pages) == Alone(t, 1) && host.files == t.files
    {
    }

    lemma ConsistentAgain()
      requires Inv(AsWorld({}, map[])) && Valid() && forall i :: 0 <= i < |pages| ==> table[i] == BackingOf(pages[i])
      ensures Consistent()
    {
      var w := AsWorld({}, map[]);
      forall i | i in overlay ensures 0 <= i < |pages| && |overlay[i]| == PAGE_SIZE { assert OverlayOk(w, 0, i); }
      forall i | 0 <= i < |pages| ensures |PageAt(host.files, pages[i])| == PAGE_SIZE { assert PageOk(w, 0, i); }
    }

    method StartUnderPause(ghost kvm: set<nat>) returns (p: Preparation)
      requires Consistent() && 0 < |pages| && (!sealed ==> OneGeneration())
      requires forall i :: 0 <= i < |pages| ==> pages[i].generation < host.nextGen
      modifies host
      ensures Consistent() && Prepared(p) && p.order == []
      ensures AsWorld(kvm, map[0 := p]) == StartFork(old(AsWorld(kvm, map[])), 0, [])
    {
      ghost var w := AsWorld(kvm, map[]);
      var prepared := PrepareFork([]);
      p := prepared.value;
      assert w.rams[0].kvmDirty - (set i | i in []) == w.rams[0].kvmDirty;
      assert w.rams[0 := w.rams[0]] == w.rams;
    }

    lemma ForkReady(kvm: set<nat>)
      requires Consistent() && Inv(AsWorld(kvm, map[]))
      ensures 0 < |pages| && (!sealed ==> OneGeneration())
      ensures forall i :: 0 <= i < |pages| ==> pages[i].generation < host.nextGen
      ensures forall i :: i in hostDirty + kvm ==> i < |pages|
    {
      var w := AsWorld(kvm, map[]);
      assert RamOk(w, 0);
      forall i | 0 <= i < |pages|
        ensures pages[i].generation < host.nextGen
        ensures !sealed ==> BackingOf(pages[i]) == Backing(pages[0].generation, i) && i < |host.files[pages[0].generation]|
      {
        assert PageOk(w, 0, i) && UnsealedOk(w, 0, i) && FileOk(w, pages[i].generation);
      }
      assert PageOk(w, 0, |pages| - 1);
    }
  }
}
