/** The RAM of all VMs saved together, and how many pages they hold and share. */
module RamManifest {
  import opened Basics
  import opened GuestRam
  import opened RamInvariant
  import opened RamForks
  import opened RamRuns
  import opened RamCheckpoint
  import opened RamRestore
  import A = Accounting

  /** The page references of some VMs, in order. */
  function BranchesOf(w: World, order: seq<VmId>): seq<seq<RamPage>>
    requires forall i :: 0 <= i < |order| ==> order[i] in w.rams
  {
    seq(|order|, i requires 0 <= i < |order| => w.rams[order[i]].pages)
  }

  // ---------------------------------------------------------------------
  // Saving
  // ---------------------------------------------------------------------

  lemma PersistedTwice(a: set<GenId>, b: set<GenId>, files: Disk, disk: Disk, half: Disk, saved: Disk)
    requires Persisted(a, files, disk, half) && Persisted(b, files, half, saved)
    ensures Persisted(a + b, files, disk, saved)
  {
  }

  lemma PersistedMeans(pages: seq<RamPage>, files: Disk, disk: Disk, saved: Disk)
    requires forall i :: 0 <= i < |pages| ==> pages[i].generation in saved
    requires forall g :: g in saved ==> g in disk || exists i :: 0 <= i < |pages| && pages[i].generation == g
    requires forall g :: g in disk ==> g in saved && saved[g] == disk[g]
    requires forall g :: g in saved && g !in disk ==> g in files && saved[g] == files[g]
    ensures Persisted(GenerationsOf(pages), files, disk, saved)
  {
    forall g ensures g in saved <==> g in disk || g in GenerationsOf(pages) {
      if g in GenerationsOf(pages) {
        var i :| 0 <= i < |pages| && pages[i].generation == g;
      }
    }
  }

  lemma NothingPersisted(files: Disk, disk: Disk)
    ensures Persisted(AllGenerations([]), files, disk, disk)
  {
    assert AllGenerations([]) == {};
  }

  /** Save the VMs one after the other. */
  method DurableStates(vms: seq<seq<RamPage>>, files: Disk, disk: Disk) returns (states: seq<RamState>, saved: Disk)
    requires forall v, i :: 0 <= v < |vms| && 0 <= i < |vms[v]| ==> vms[v][i].generation in files
    ensures |states| == |vms| && forall v :: 0 <= v < |vms| ==> PagesOf(states[v]) == vms[v] && LengthOk(states[v])
    ensures Persisted(AllGenerations(vms), files, disk, saved)
  {
    states, saved := [], disk;
    NothingPersisted(files, disk);
    hide Persisted, AllGenerations, GenerationsOf, PagesOf, LengthOk, GoodPages, StatesOk;
    while |states| < |vms|
      invariant |states| <= |vms|
      invariant forall v :: 0 <= v < |states| ==> PagesOf(states[v]) == vms[v] && LengthOk(states[v])
      invariant Persisted(AllGenerations(vms[..|states|]), files, disk, saved)
    {
      var k := |states|;
      var state, next := DurableState(vms[k], files, saved);
      PersistedMeans(vms[k], files, saved, next);
      PersistedTwice(AllGenerations(vms[..k]), GenerationsOf(vms[k]), files, disk, saved, next);
      BackingPush(vms, k);
      states, saved := states + [state], next;
    }
    assert vms[..|vms|] == vms;
  }

  ghost predicate ListsVms(w: World, order: seq<VmId>) {
    Distinct(order) && forall vm :: vm in order <==> vm in w.rams
  }

  /** Saving all VMs leaves the directory that the machine's checkpoint leaves, so that its restarts are of this. */
  lemma SavedIsCheckpoint(d: Durable, order: seq<VmId>, saved: Disk)
    requires DurableInv(d) && ListsVms(d.world, order)
    requires Persisted(AllGenerations(BranchesOf(d.world, order)), d.world.files, d.disk, saved)
    ensures saved == Checkpoint(d).disk
  {
    hide DurableInv, Persisted, AllGenerations, Generations, BranchesOf;
    NamedGenerations(d.world, order);
    PersistedIs(Generations(d.world), d.world.files, d.disk, saved);
  }

  lemma PersistedIs(named: set<GenId>, files: Disk, disk: Disk, saved: Disk)
    requires Persisted(named, files, disk, saved)
    ensures saved == disk + map g | g in named && g !in disk && g in files :: files[g]
  {
  }

  lemma NamedGenerations(w: World, order: seq<VmId>)
    requires ListsVms(w, order)
    ensures AllGenerations(BranchesOf(w, order)) == Generations(w)
  {
    var branches := BranchesOf(w, order);
    forall g ensures g in AllGenerations(branches) <==> g in Generations(w) {
      if g in AllGenerations(branches) {
        var i :| 0 <= i < |order| && g in GenerationsOf(branches[i]);
        assert order[i] in order;
        var a :| 0 <= a < |w.rams[order[i]].pages| && w.rams[order[i]].pages[a].generation == g;
      }
      if g in Generations(w) {
        var vm, a :| vm in w.rams && 0 <= a < |w.rams[vm].pages| && w.rams[vm].pages[a].generation == g;
        var i :| 0 <= i < |order| && order[i] == vm;
        assert g in GenerationsOf(branches[i]);
      }
    }
  }

  /** The generations of a VM are there to be saved. */
  lemma GenerationsAreThere(d: Durable, order: seq<VmId>)
    requires DurableInv(d) && ListsVms(d.world, order)
    ensures var vms := BranchesOf(d.world, order);
      forall v, i :: 0 <= v < |vms| && 0 <= i < |vms[v]| ==> vms[v][i].generation in d.world.files
  {
    var vms: seq<seq<RamPage>> := BranchesOf(d.world, order);
    forall v, i | 0 <= v < |vms| && 0 <= i < |vms[v]| ensures vms[v][i].generation in d.world.files {
      assert order[v] in d.world.rams;
      assert PageOk(d.world, order[v], i);
    }
  }

  // ---------------------------------------------------------------------
  // Counting
  // ---------------------------------------------------------------------

  /** In every world of the RAM invariant an id means one place, so the account is one of places. */
  lemma WorldIdsMeanPlaces(w: World, order: seq<VmId>)
    requires Inv(w) && ListsVms(w, order)
    ensures IdsMeanPlaces(BranchesOf(w, order))
  {
    var branches: seq<seq<RamPage>> := BranchesOf(w, order);
    forall i, a, j, b | 0 <= i < |branches| && 0 <= j < |branches| && 0 <= a < |branches[i]| && 0 <= b < |branches[j]|
      ensures branches[i][a].id == branches[j][b].id <==> PlaceOf(branches[i][a]) == PlaceOf(branches[j][b])
    {
      assert order[i] in w.rams && order[j] in w.rams;
      assert IdOk(w, order[i], a, order[j], b);
    }
  }

  ghost function VmPlaces(w: World, vm: VmId): set<Place>
    requires vm in w.rams
  {
    set a | 0 <= a < |w.rams[vm].pages| :: PlaceOf(w.rams[vm].pages[a])
  }

  /** The places each VM refers to. */
  ghost function PlaceMap(w: World): map<nat, set<Place>> {
    map vm | vm in w.rams :: VmPlaces(w, vm)
  }

  /** Places some VM refers to, and places two refer to. */
  ghost function HeldPlaces(w: World): set<Place> {
    A.HeldIn(PlaceMap(w))
  }

  ghost function SharedPlaces(w: World): set<Place> {
    A.TwiceIn(PlaceMap(w))
  }

  lemma ListedPlaces(w: World, order: seq<VmId>)
    requires ListsVms(w, order)
    ensures var parts := Places(BranchesOf(w, order));
      A.AllOf(parts) == HeldPlaces(w) && A.HeldTwice(parts) == SharedPlaces(w)
  {
    var parts := Places(BranchesOf(w, order));
    forall i | 0 <= i < |order| ensures order[i] in w.rams && parts[i] == PlaceMap(w)[order[i]] {
      assert order[i] in order;
    }
    hide Places;
    assert parts == A.Listed(PlaceMap(w), order);
    A.ListedHold(PlaceMap(w), order);
  }

  /** Over the VMs of a world the account is the places they hold and the places two of them hold. */
  method WorldAccounting(w: World, order: seq<VmId>) returns (account: RamAccount)
    requires Inv(w) && ListsVms(w, order)
    ensures account.pages == A.Account(|HeldPlaces(w)|, |SharedPlaces(w)|)
    ensures account.backingFiles == |FilesBehind(HeldPlaces(w))|
  {
    WorldIdsMeanPlaces(w, order);
    ListedPlaces(w, order);
    var branches := BranchesOf(w, order);
    hide Inv;
    account := PageAccounting(branches);
  }

  // ---------------------------------------------------------------------
  // What a fork does to the counts
  // ---------------------------------------------------------------------

  /** The places other VMs refer to, and those of the pages a fork does not copy. */
  ghost function KeptPlaces(w: World, vm: VmId, extra: seq<nat>): set<Place>
    requires vm in w.rams && vm in w.forks
  {
    (set v, p | v in w.rams && v != vm && p in VmPlaces(w, v) :: p)
    + (set i | 0 <= i < |w.rams[vm].pages| && i !in w.forks[vm].order && i !in extra :: PlaceOf(w.rams[vm].pages[i]))
  }

  /** The slots of the generation a fork fills. */
  ghost function NewPlaces(g: GenId, n: nat): set<Place> {
    set k | 0 <= k < n :: Place(g, k)
  }

  lemma {:induction false} NewPlacesSize(g: GenId, n: nat)
    ensures |NewPlaces(g, n)| == n
    decreases n
  {
    if n == 0 {
      assert NewPlaces(g, n) == {};
    } else {
      NewPlacesSize(g, n - 1);
      assert NewPlaces(g, n) == NewPlaces(g, n - 1) + {Place(g, n - 1)};
    }
  }

  lemma NewPlacesAreIn(g: GenId, n: nat)
    ensures forall q :: q in NewPlaces(g, n) ==> q.generation == g
  {
  }

  /** After a fork source and child refer to the same places, and every other VM to the places it did. */
  lemma ForkRefersTo(w: World, vm: VmId, child: VmId, extra: seq<nat>)
    requires CanFinish(w, vm, child, extra) && w.forks[vm].generation in w.files
    ensures var t := FinishFork(w, vm, child, extra);
      && t.rams.Keys == w.rams.Keys + {child}
      && VmPlaces(t, child) == VmPlaces(t, vm)
      && (forall v :: v in w.rams && v != vm ==> VmPlaces(t, v) == VmPlaces(w, v))
      && (w.forks[vm].sealsExisting ==> VmPlaces(t, vm) == VmPlaces(w, vm))
  {
    hide Inv, FinishedFile;
    var t := FinishFork(w, vm, child, extra);
    forall v | v in w.rams && v != vm ensures VmPlaces(t, v) == VmPlaces(w, v) { assert t.rams[v] == w.rams[v]; }
  }

  /** A fork that seals in place holds the same places as before; either way all of the source's are shared after it. */
  lemma ForkSharesPlaces(w: World, vm: VmId, child: VmId, extra: seq<nat>)
    requires CanFinish(w, vm, child, extra) && w.forks[vm].generation in w.files
    ensures var t := FinishFork(w, vm, child, extra);
      && vm in t.rams && VmPlaces(t, vm) <= SharedPlaces(t)
      && (w.forks[vm].sealsExisting ==> HeldPlaces(t) == HeldPlaces(w) && SharedPlaces(t) == SharedPlaces(w) + VmPlaces(w, vm))
  {
    ForkRefersTo(w, vm, child, extra);
    hide Inv, FinishFork, VmPlaces, A.HeldIn, A.TwiceIn;
    var t := FinishFork(w, vm, child, extra);
    var before := PlaceMap(t) - {child};
    assert PlaceMap(t) == before[child := before[vm]];
    A.CopyShares(before, vm, child);
    if w.forks[vm].sealsExisting {
      assert before == PlaceMap(w);
    }
  }

  /** A fork into a new generation holds what is not copied, and one new place for each page it copies. */
  lemma ForkHoldsNewPlaces(w: World, vm: VmId, child: VmId, extra: seq<nat>)
    requires CanFinish(w, vm, child, extra) && w.forks[vm].generation in w.files && !w.forks[vm].sealsExisting
    ensures var t, p := FinishFork(w, vm, child, extra), w.forks[vm];
      var added := NewPlaces(p.generation, |p.order| + |extra|);
      && HeldPlaces(t) == KeptPlaces(w, vm, extra) + added && KeptPlaces(w, vm, extra) !! added
      && |HeldPlaces(t)| == |KeptPlaces(w, vm, extra)| + |p.order| + |extra|
  {
    hide Inv, FinishFork, HeldPlaces, KeptPlaces, NewPlaces, VmPlaces;
    var t, p := FinishFork(w, vm, child, extra), w.forks[vm];
    var kept, added := KeptPlaces(w, vm, extra), NewPlaces(p.generation, |p.order| + |extra|);
    NewPlacesAreIn(p.generation, |p.order| + |extra|);
    forall q ensures q in HeldPlaces(t) <==> q in kept + added { HeldAfterFork(w, vm, child, extra, q); }
    forall q | q in kept ensures q !in added { KeptIsOld(w, vm, child, extra, q); }
    NewPlacesSize(p.generation, |p.order| + |extra|);
    TwoParts(HeldPlaces(t), kept, added);
  }

  lemma TwoParts(all: set<Place>, kept: set<Place>, added: set<Place>)
    requires (forall q :: q in all <==> q in kept + added) && (forall q :: q in kept ==> q !in added)
    ensures all == kept + added && kept !! added && |all| == |kept| + |added|
  {
    assert all == kept + added;
  }

  /** No page refers to the generation a fork is filling. */
  lemma PageIsOld(w: World, vm: VmId, v: VmId, a: nat)
    requires Inv(w) && vm in w.forks && !w.forks[vm].sealsExisting && v in w.rams && a < |w.rams[v].pages|
    ensures w.rams[v].pages[a].generation != w.forks[vm].generation
  {
    assert ForkOk(w, vm) && PrivateOk(w, vm, v, a);
  }

  lemma KeptIsOld(w: World, vm: VmId, child: VmId, extra: seq<nat>, q: Place)
    requires CanFinish(w, vm, child, extra) && q in KeptPlaces(w, vm, extra) && !w.forks[vm].sealsExisting
    ensures q.generation != w.forks[vm].generation
  {
    hide Inv;
    var g := w.forks[vm].generation;
    forall v, a | v in w.rams && 0 <= a < |w.rams[v].pages| ensures PlaceOf(w.rams[v].pages[a]).generation != g {
      PageIsOld(w, vm, v, a);
    }
  }

  lemma HeldMeans(w: World, q: Place)
    ensures q in HeldPlaces(w) <==> exists v :: v in w.rams && q in VmPlaces(w, v)
  {
    hide VmPlaces;
    if v :| v in w.rams && q in VmPlaces(w, v) {
      assert q in PlaceMap(w)[v];
    }
  }

  lemma HeldAfterFork(w: World, vm: VmId, child: VmId, extra: seq<nat>, q: Place)
    requires CanFinish(w, vm, child, extra) && w.forks[vm].generation in w.files && !w.forks[vm].sealsExisting
    ensures var t, p := FinishFork(w, vm, child, extra), w.forks[vm];
      q in HeldPlaces(t) <==> q in KeptPlaces(w, vm, extra) + NewPlaces(p.generation, |p.order| + |extra|)
  {
    var t, p := FinishFork(w, vm, child, extra), w.forks[vm];
    var added := NewPlaces(p.generation, |p.order| + |extra|);
    ForkRefersTo(w, vm, child, extra);
    SourceAfterFork(w, vm, child, extra, q);
    HeldMeans(t, q);
    hide Inv, FinishFork, VmPlaces, NewPlaces, HeldPlaces;
    if q in HeldPlaces(t) {
      var v :| v in t.rams && q in VmPlaces(t, v);
      assert v == child || v == vm ==> q in VmPlaces(t, vm);
      assert v != child && v != vm ==> v in w.rams && q in VmPlaces(w, v);
    }
    if v :| v in w.rams && v != vm && q in VmPlaces(w, v) {
      assert v in t.rams && q in VmPlaces(t, v);
    }
  }

  /** The source refers to what is not copied and to the whole new generation. */
  lemma SourceAfterFork(w: World, vm: VmId, child: VmId, extra: seq<nat>, q: Place)
    requires CanFinish(w, vm, child, extra) && w.forks[vm].generation in w.files && !w.forks[vm].sealsExisting
    ensures var t, p := FinishFork(w, vm, child, extra), w.forks[vm];
      && vm in t.rams
      && (q in VmPlaces(t, vm) <==>
            || (exists i :: 0 <= i < |w.rams[vm].pages| && i !in p.order && i !in extra && PlaceOf(w.rams[vm].pages[i]) == q)
            || q in NewPlaces(p.generation, |p.order| + |extra|))
  {
    var t, p, pages := FinishFork(w, vm, child, extra), w.forks[vm], w.rams[vm].pages;
    var refs := FinishedPages(w, vm, extra);
    assert t.rams[vm].pages == refs && |refs| == |pages|;
    hide Inv, FinishFork, FinishedPages, NewPlaces;
    forall i | 0 <= i < |refs| && PlaceOf(refs[i]) == q
      ensures (i !in p.order && i !in extra && PlaceOf(pages[i]) == q) || q in NewPlaces(p.generation, |p.order| + |extra|)
    {
      PlaceAfterFork(w, vm, child, extra, i);
    }
    if i :| 0 <= i < |pages| && i !in p.order && i !in extra && PlaceOf(pages[i]) == q {
      PlaceAfterFork(w, vm, child, extra, i);
      assert PlaceOf(refs[i]) == q;
    }
    if q in NewPlaces(p.generation, |p.order| + |extra|) {
      var i := NewPlaceIsNamed(w, vm, child, extra, q);
      assert PlaceOf(refs[i]) == q;
    }
  }

  lemma PlaceAfterFork(w: World, vm: VmId, child: VmId, extra: seq<nat>, i: nat)
    requires CanFinish(w, vm, child, extra) && i < |w.rams[vm].pages| && !w.forks[vm].sealsExisting
    ensures var p, refs := w.forks[vm], FinishedPages(w, vm, extra);
      && i < |refs|
      && (if i in p.order || i in extra
          then PlaceOf(refs[i]) in NewPlaces(p.generation, |p.order| + |extra|)
          else PlaceOf(refs[i]) == PlaceOf(w.rams[vm].pages[i]))
  {
    InRange(w, vm, child, extra);
    assert |FinishedPages(w, vm, extra)| == |w.rams[vm].pages|;
    hide Inv, FinishedPages, Position;
    var p := w.forks[vm];
    FinishedPlace(w, vm, extra, i);
    if i in p.order {
      assert PlaceOf(FinishedPages(w, vm, extra)[i]) == Place(p.generation, Position(p.order, i));
    } else if i in extra {
      assert PlaceOf(FinishedPages(w, vm, extra)[i]) == Place(p.generation, |p.order| + Position(extra, i));
    }
  }

  lemma NewPlaceIsNamed(w: World, vm: VmId, child: VmId, extra: seq<nat>, q: Place) returns (i: nat)
    requires CanFinish(w, vm, child, extra) && !w.forks[vm].sealsExisting
    requires q in NewPlaces(w.forks[vm].generation, |w.forks[vm].order| + |extra|)
    ensures i < |FinishedPages(w, vm, extra)| && PlaceOf(FinishedPages(w, vm, extra)[i]) == q
  {
    var p := w.forks[vm];
    InRange(w, vm, child, extra);
    assert |FinishedPages(w, vm, extra)| == |w.rams[vm].pages|;
    hide Inv, FinishedPages, Position;
    var k :| 0 <= k < |p.order| + |extra| && q == Place(p.generation, k);
    i := if k < |p.order| then p.order[k] else extra[k - |p.order|];
    CopiedTo(p.order, extra, k);
    FinishedPlace(w, vm, extra, i);
  }

  /** The pages a fork copies are pages of the RAM, and none is listed twice. */
  lemma InRange(w: World, vm: VmId, child: VmId, extra: seq<nat>)
    requires CanFinish(w, vm, child, extra)
    ensures var p, n := w.forks[vm], |w.rams[vm].pages|;
      && Distinct(p.order) && Distinct(extra) && (forall i :: i in extra ==> i !in p.order)
      && (forall k :: 0 <= k < |p.order| ==> p.order[k] < n) && (forall k :: 0 <= k < |extra| ==> extra[k] < n)
  {
    var p := w.forks[vm];
    assert ForkOk(w, vm) && RamOk(w, vm);
    forall k | 0 <= k < |p.order| ensures p.order[k] < |w.rams[vm].pages| { assert CopyOk(w, vm, k); }
    forall k | 0 <= k < |extra| ensures extra[k] < |w.rams[vm].pages| { assert extra[k] in extra; }
  }

  /** Slot `k` of the new generation is that of one page. */
  lemma CopiedTo(order: seq<nat>, extra: seq<nat>, k: nat)
    requires Distinct(order) && Distinct(extra) && (forall i :: i in extra ==> i !in order) && k < |order| + |extra|
    ensures if k < |order| then order[k] in order && Position(order, order[k]) == k
      else
        var i := extra[k - |order|];
        i !in order && i in extra && Position(extra, i) == k - |order|
  {
    if k < |order| {
      PositionIs(order, k);
    } else {
      PositionIs(extra, k - |order|);
      assert extra[k - |order|] in extra;
    }
  }

  lemma PositionIs(q: seq<nat>, k: nat)
    requires Distinct(q) && k < |q|
    ensures q[k] in q && Position(q, q[k]) == k
  {
    var j := Position(q, q[k]);
    assert q[k] in q;
    assert q[j] == q[k];
  }

  // ---------------------------------------------------------------------
  // After a restart
  // ---------------------------------------------------------------------

  /** The VMs of a restored checkpoint refer to the places they did, so their account is that of the checkpoint. */
  lemma AccountingAfterRestart(d: Durable, k: nat, nextGen: nat, nextPage: nat, order: seq<VmId>)
    requires DurableInv(d) && DurableLegal(d, CrashAndRestart(k, nextGen, nextPage))
    requires Distinct(order) && forall vm :: vm in order <==> vm in d.log[k].vms
    ensures var t := Restart(d, k, nextGen, nextPage).world;
      && ListsVms(t, order) && Inv(t)
      && (forall i :: 0 <= i < |order| ==> order[i] in d.log[k].vms)
      && BranchesOf(t, order) == seq(|order|, i requires 0 <= i < |order| => d.log[k].vms[order[i]])
  {
    RestartKeepsInv(d, k, nextGen, nextPage);
    hide DurableInv, Inv;
    WorldOf(Restart(d, k, nextGen, nextPage));
    assert forall i :: 0 <= i < |order| ==> order[i] in order;
  }

  lemma WorldOf(d: Durable)
    requires DurableInv(d)
    ensures Inv(d.world)
  {
  }
}
