/**
 The checkpoint barrier of the supervisor: pause every guest, save every guest,
 resume every guest that was paused, and publish the manifest only if all of
 it went well. Any call into a guest's backend may fail. Guests that are not
 paused change on their own between any two calls.
 */
module CheckpointBarrier {
  import opened Basics

  type VmId = nat

  /** Everything a checkpoint saves of a guest, as one value. */
  type Contents = nat

  datatype Guest = Guest(contents: Contents, paused: bool)

  datatype Saved = Saved(vm: VmId, contents: Contents)

  /** A call into a backend or the storage, and whether it succeeded. */
  datatype Event =
    | Pause(vm: VmId, ok: bool)
    | Save(vm: VmId, ok: bool)
    | Resume(vm: VmId, ok: bool)
    | Publish(ok: bool)
    | SyncDirectory(ok: bool)

  // ---------------------------------------------------------------------
  // The shape of a checkpoint's calls
  // ---------------------------------------------------------------------

  /** The first `n` calls succeed and the one after them, if there is one, fails. */
  function Pauses(order: seq<VmId>, n: nat): seq<Event>
    requires n <= |order|
  {
    seq(n, i requires 0 <= i < n => Pause(order[i], true)) + if n < |order| then [Pause(order[n], false)] else []
  }

  function Saves(order: seq<VmId>, n: nat): seq<Event>
    requires n <= |order|
  {
    seq(n, i requires 0 <= i < n => Save(order[i], true)) + if n < |order| then [Save(order[n], false)] else []
  }

  /** One resume for each paused guest, last paused first. */
  predicate ResumesAll(resumes: seq<Event>, order: seq<VmId>, n: nat)
    requires n <= |order|
  {
    |resumes| == n && forall i :: 0 <= i < n ==> resumes[i].Resume? && resumes[i].vm == order[n - 1 - i]
  }

  predicate AllOk(events: seq<Event>) {
    forall i :: 0 <= i < |events| ==> events[i].ok
  }

  /** How many guests a checkpoint pauses and saves, and the calls that follow. */
  datatype Shape = Shape(paused: nat, saved: nat, resumes: seq<Event>, publish: seq<Event>)

  /** The manifest is replaced by a rename; a failing sync of its directory afterwards fails the checkpoint. */
  predicate ShapeOk(shape: Shape, order: seq<VmId>) {
    && shape.paused <= |order| && shape.saved <= |order|
    && (shape.paused < |order| ==> shape.saved == 0)
    && ResumesAll(shape.resumes, order, shape.paused)
    && (if shape.paused == |order| && shape.saved == |order| && AllOk(shape.resumes)
        then shape.publish == [Publish(false)] || exists ok :: shape.publish == [Publish(true), SyncDirectory(ok)]
        else shape.publish == [])
  }

  function Calls(shape: Shape, order: seq<VmId>): seq<Event>
    requires ShapeOk(shape, order)
  {
    Pauses(order, shape.paused) + (if shape.paused == |order| then Saves(order, shape.saved) else [])
    + shape.resumes + shape.publish
  }

  // ---------------------------------------------------------------------
  // What the shape means
  // ---------------------------------------------------------------------

  /** Just before call `i`, the guest has been paused and not resumed since. */
  ghost predicate HeldAt(calls: seq<Event>, i: nat, vm: VmId)
    requires i <= |calls|
  {
    exists j :: 0 <= j < i && calls[j] == Pause(vm, true)
      && forall k :: j < k < i ==> !(calls[k].Resume? && calls[k].vm == vm)
  }

  /** No guest runs while any guest is being saved. */
  lemma SavesUnderFullPause(shape: Shape, order: seq<VmId>, i: nat, vm: VmId)
    requires ShapeOk(shape, order) && i < |Calls(shape, order)| && Calls(shape, order)[i].Save? && vm in order
    ensures HeldAt(Calls(shape, order), i, vm)
  {
    var calls, pauses := Calls(shape, order), Pauses(order, shape.paused);
    var j :| 0 <= j < |order| && order[j] == vm;
    assert shape.paused == |order|;
    var saves := Saves(order, shape.saved);
    assert calls == pauses + saves + shape.resumes + shape.publish;
    assert |pauses| <= i < |pauses| + |saves|;
    assert calls[j] == pauses[j] == Pause(vm, true);
    forall k | j < k < i ensures !calls[k].Resume? {
      assert calls[k] == if k < |pauses| then pauses[k] else saves[k - |pauses|];
    }
  }

  function CountResumes(calls: seq<Event>, vm: VmId): nat {
    if calls == [] then 0 else (if calls[0].Resume? && calls[0].vm == vm then 1 else 0) + CountResumes(calls[1..], vm)
  }

  function CountPauses(calls: seq<Event>, vm: VmId): nat {
    if calls == [] then 0 else (if calls[0] == Pause(vm, true) then 1 else 0) + CountPauses(calls[1..], vm)
  }

  lemma {:induction false} CountsConcat(a: seq<Event>, b: seq<Event>, vm: VmId)
    ensures CountResumes(a + b, vm) == CountResumes(a, vm) + CountResumes(b, vm)
    ensures CountPauses(a + b, vm) == CountPauses(a, vm) + CountPauses(b, vm)
    decreases |a|
  {
    if a == [] {
      assert a + b == b;
    } else {
      assert (a + b)[1..] == a[1..] + b;
      CountsConcat(a[1..], b, vm);
    }
  }

  /** Every guest is resumed as often as it was paused, whatever failed. */
  lemma ResumedAsOftenAsPaused(shape: Shape, order: seq<VmId>, vm: VmId)
    requires ShapeOk(shape, order)
    ensures CountResumes(Calls(shape, order), vm) == CountPauses(Calls(shape, order), vm)
  {
    var n := shape.paused;
    var saves := if n == |order| then Saves(order, shape.saved) else [];
    CallsCount(shape, order, vm);
    hide CountPauses, CountResumes;
    NoneOf(saves, vm);
    NoneOf(shape.publish, vm);
    PausesMirrored(order, n, shape.resumes, vm);
  }

  lemma PausesMirrored(order: seq<VmId>, n: nat, resumes: seq<Event>, vm: VmId)
    requires n <= |order| && ResumesAll(resumes, order, n)
    ensures CountResumes(Pauses(order, n), vm) == 0 && CountPauses(resumes, vm) == 0
    ensures CountPauses(Pauses(order, n), vm) == CountResumes(resumes, vm)
  {
    hide CountPauses, CountResumes;
    var pauses := Pauses(order, n);
    var first, last := pauses[..n], pauses[n..];
    assert pauses == first + last;
    CountsConcat(first, last, vm);
    NoneOf(last, vm);
    Mirror(order[..n], first, resumes, vm);
  }

  /** Saves, publications and failed pauses neither pause nor resume. */
  lemma {:induction false} NoneOf(events: seq<Event>, vm: VmId)
    requires forall i :: 0 <= i < |events| ==> events[i].Save? || events[i].Publish? || events[i].SyncDirectory? || (events[i].Pause? && !events[i].ok)
    ensures CountResumes(events, vm) == 0 && CountPauses(events, vm) == 0
    decreases |events|
  {
    if events != [] {
      NoneOf(events[1..], vm);
    }
  }

  /** Pausing in order and resuming in reverse order count the same. */
  lemma {:induction false} Mirror(order: seq<VmId>, pauses: seq<Event>, resumes: seq<Event>, vm: VmId)
    requires |pauses| == |order| && |resumes| == |order|
    requires forall i :: 0 <= i < |order| ==> pauses[i] == Pause(order[i], true)
    requires forall i :: 0 <= i < |order| ==> resumes[i].Resume? && resumes[i].vm == order[|order| - 1 - i]
    ensures CountResumes(pauses, vm) == 0 && CountPauses(resumes, vm) == 0
    ensures CountPauses(pauses, vm) == CountResumes(resumes, vm)
    decreases |order|
  {
    if order != [] {
      var n := |order| - 1;
      assert pauses == [pauses[0]] + pauses[1..] && resumes == resumes[..n] + [resumes[n]];
      CountsConcat(resumes[..n], [resumes[n]], vm);
      Mirror(order[1..], pauses[1..], resumes[..n], vm);
    }
  }

  /** A guest listed once is paused once. */
  lemma {:induction false} PausedOnce(order: seq<VmId>, pauses: seq<Event>, vm: VmId)
    requires Distinct(order) && |pauses| == |order|
    requires forall i :: 0 <= i < |order| ==> pauses[i] == Pause(order[i], true)
    ensures CountPauses(pauses, vm) == if vm in order then 1 else 0
    decreases |order|
  {
    if order != [] {
      assert order == [order[0]] + order[1..];
      assert order[0] !in order[1..];
      PausedOnce(order[1..], pauses[1..], vm);
    }
  }

  /** Only the first `n` of the pauses succeed. */
  lemma PausesOnce(order: seq<VmId>, n: nat, vm: VmId)
    requires Distinct(order) && n <= |order|
    ensures CountPauses(Pauses(order, n), vm) == if vm in order[..n] then 1 else 0
  {
    hide CountPauses, CountResumes;
    var pauses := Pauses(order, n);
    var first, last := pauses[..n], pauses[n..];
    assert pauses == first + last;
    CountsConcat(first, last, vm);
    NoPauses(last, vm);
    PausedOnce(order[..n], first, vm);
  }

  /** Exactly the guests that were paused are asked to resume, once each, whatever failed. */
  lemma ResumedExactlyOnce(shape: Shape, order: seq<VmId>, vm: VmId)
    requires ShapeOk(shape, order) && Distinct(order)
    ensures CountResumes(Calls(shape, order), vm) == if vm in order[..shape.paused] then 1 else 0
  {
    ResumedAsOftenAsPaused(shape, order, vm);
    PausesOnce(order, shape.paused, vm);
    var saves := if shape.paused == |order| then Saves(order, shape.saved) else [];
    NoPauses(saves, vm);
    NoPauses(shape.resumes, vm);
    NoPauses(shape.publish, vm);
    hide *;
    hide ShapeOk;
    CallsCount(shape, order, vm);
  }

  /** Counting the calls of a checkpoint part by part. */
  lemma CallsCount(shape: Shape, order: seq<VmId>, vm: VmId)
    requires ShapeOk(shape, order)
    ensures var pauses, saves := Pauses(order, shape.paused), if shape.paused == |order| then Saves(order, shape.saved) else [];
      && CountPauses(Calls(shape, order), vm)
         == CountPauses(pauses, vm) + CountPauses(saves, vm) + CountPauses(shape.resumes, vm) + CountPauses(shape.publish, vm)
      && CountResumes(Calls(shape, order), vm)
         == CountResumes(pauses, vm) + CountResumes(saves, vm) + CountResumes(shape.resumes, vm) + CountResumes(shape.publish, vm)
  {
    hide CountPauses, CountResumes, Pauses, Saves, ResumesAll;
    var pauses, saves := Pauses(order, shape.paused), if shape.paused == |order| then Saves(order, shape.saved) else [];
    CountsConcat(pauses + saves + shape.resumes, shape.publish, vm);
    CountsConcat(pauses + saves, shape.resumes, vm);
    CountsConcat(pauses, saves, vm);
  }

  lemma {:induction false} NoPauses(events: seq<Event>, vm: VmId)
    requires forall i :: 0 <= i < |events| ==> events[i].Pause? ==> !events[i].ok
    ensures CountPauses(events, vm) == 0
    decreases |events|
  {
    if events != [] {
      NoPauses(events[1..], vm);
    }
  }

  lemma AllOkPush(events: seq<Event>, event: Event)
    ensures AllOk(events + [event]) <==> AllOk(events) && event.ok
  {
    var all := events + [event];
    if AllOk(all) {
      assert all[|events|].ok;
      forall i | 0 <= i < |events| ensures events[i].ok { assert all[i].ok; }
    }
  }

  lemma Appended(calls: seq<Event>, a: seq<Event>, b: seq<Event>, c: seq<Event>)
    ensures calls + a + b + c == calls + (a + b + c)
  {
  }

  // ---------------------------------------------------------------------
  // What the guests do meanwhile
  // ---------------------------------------------------------------------

  /** Just before call `k` every running guest has moved on. */
  function Elapsed(evolve: (nat, VmId) -> Contents, k: nat, guests: map<VmId, Guest>): map<VmId, Guest> {
    map vm | vm in guests :: if guests[vm].paused then guests[vm] else Guest(evolve(k, vm), false)
  }

  function Apply(evolve: (nat, VmId) -> Contents, k: nat, guests: map<VmId, Guest>, call: Event): map<VmId, Guest> {
    var now := Elapsed(evolve, k, guests);
    if (call.Pause? || call.Resume?) && call.ok && call.vm in now
    then now[call.vm := now[call.vm].(paused := call.Pause?)]
    else now
  }

  /** The guests after the first `k` of some calls. */
  function After(evolve: (nat, VmId) -> Contents, start: map<VmId, Guest>, calls: seq<Event>, k: nat): map<VmId, Guest>
    requires k <= |calls|
  {
    if k == 0 then start else Apply(evolve, k - 1, After(evolve, start, calls, k - 1), calls[k - 1])
  }

  /** Later calls do not change what happened before. */
  lemma {:induction false} AfterPrefix(
      evolve: (nat, VmId) -> Contents, start: map<VmId, Guest>, calls: seq<Event>, more: seq<Event>, k: nat)
    requires k <= |calls| <= |more| && more[..|calls|] == calls
    ensures After(evolve, start, more, k) == After(evolve, start, calls, k)
    decreases k
  {
    if k > 0 {
      AfterPrefix(evolve, start, calls, more, k - 1);
      assert more[k - 1] == more[..|calls|][k - 1];
    }
  }

  lemma AfterOneMore(evolve: (nat, VmId) -> Contents, start: map<VmId, Guest>, calls: seq<Event>, call: Event)
    ensures After(evolve, start, calls + [call], |calls| + 1)
         == Apply(evolve, |calls|, After(evolve, start, calls, |calls|), call)
  {
    hide Apply;
    AfterPrefix(evolve, start, calls, calls + [call], |calls|);
  }

  lemma {:induction false} SameGuests(evolve: (nat, VmId) -> Contents, start: map<VmId, Guest>, calls: seq<Event>, k: nat)
    requires k <= |calls|
    ensures After(evolve, start, calls, k).Keys == start.Keys
    decreases k
  {
    if k > 0 {
      SameGuests(evolve, start, calls, k - 1);
    }
  }

  /** A paused guest stays exactly as it was until it is asked to resume. */
  lemma {:induction false} HeldIsFixed(
      evolve: (nat, VmId) -> Contents, start: map<VmId, Guest>, calls: seq<Event>, j: nat, i: nat, vm: VmId)
    requires j < i <= |calls| && vm in start && calls[j] == Pause(vm, true)
    requires forall k :: j < k < i ==> !(calls[k].Resume? && calls[k].vm == vm)
    ensures vm in After(evolve, start, calls, i) && vm in After(evolve, start, calls, j + 1)
    ensures After(evolve, start, calls, i)[vm] == After(evolve, start, calls, j + 1)[vm]
    ensures After(evolve, start, calls, i)[vm].paused
    decreases i
  {
    SameGuests(evolve, start, calls, i);
    SameGuests(evolve, start, calls, i - 1);
    if j + 1 < i {
      HeldIsFixed(evolve, start, calls, j, i - 1, vm);
    }
  }

  lemma PausesFirst(shape: Shape, order: seq<VmId>)
    requires ShapeOk(shape, order) && shape.paused == |order|
    ensures |order| <= |Calls(shape, order)|
    ensures forall k :: 0 <= k < |order| ==> Calls(shape, order)[k] == Pause(order[k], true)
  {
    var all, pauses := Calls(shape, order), Pauses(order, shape.paused);
    forall k | 0 <= k < |order| ensures all[k] == Pause(order[k], true) { assert all[k] == pauses[k]; }
  }

  /** The calls before a checkpoint, followed by those of a checkpoint that paused every guest. */
  predicate Extends(before: seq<Event>, calls: seq<Event>, shape: Shape, order: seq<VmId>) {
    ShapeOk(shape, order) && shape.paused == |order| && calls == before + Calls(shape, order)
  }

  /** The pause of a guest, with no resume of it up to call `i`. */
  lemma PauseOf(before: seq<Event>, calls: seq<Event>, shape: Shape, order: seq<VmId>, i: nat, vm: VmId) returns (p: nat)
    requires Extends(before, calls, shape, order)
    requires vm in order && |before| + |order| <= i <= |calls|
    requires forall k :: |before| + |order| <= k < i ==> !(calls[k].Resume? && calls[k].vm == vm)
    ensures |before| <= p < |before| + |order| && calls[p] == Pause(vm, true)
    ensures forall k :: p < k < i ==> !(calls[k].Resume? && calls[k].vm == vm)
  {
    PausesFirst(shape, order);
    hide *;
    var n, all := |before|, Calls(shape, order);
    var j :| 0 <= j < |order| && order[j] == vm;
    p := n + j;
    forall k | n <= k < n + |order| ensures calls[k] == Pause(order[k - n], true) {
      assert calls[k] == all[k - n];
    }
  }

  /**
   The moment a checkpoint shows. From the last pause until its own resume,
   every guest is paused and as it was at that moment, so that whenever a guest
   is saved all of them are.
   */
  lemma OneMoment(evolve: (nat, VmId) -> Contents, start: map<VmId, Guest>, before: seq<Event>, calls: seq<Event>,
                  shape: Shape, order: seq<VmId>, i: nat, vm: VmId)
    requires Extends(before, calls, shape, order)
    requires vm in order && vm in start && |before| + |order| <= i <= |calls|
    requires forall k :: |before| + |order| <= k < i ==> !(calls[k].Resume? && calls[k].vm == vm)
    ensures var now, cut := After(evolve, start, calls, i), After(evolve, start, calls, |before| + |order|);
      vm in now && vm in cut && now[vm] == cut[vm] && now[vm].paused
  {
    hide *;
    var j := PauseOf(before, calls, shape, order, i, vm);
    HeldIsFixed(evolve, start, calls, j, i, vm);
    HeldIsFixed(evolve, start, calls, j, |before| + |order|, vm);
  }

  // ---------------------------------------------------------------------
  // The supervisor
  // ---------------------------------------------------------------------

  class Supervisor {
    /** The guests, in the order of their ids. */
    const order: seq<VmId>
    /** How a running guest changes before a given call, and how that call goes. */
    const evolve: (nat, VmId) -> Contents
    const succeeds: nat -> bool
    ghost const start: map<VmId, Guest>
    var guests: map<VmId, Guest>
    var calls: seq<Event>
    var published: Option<seq<Saved>>

    constructor (order: seq<VmId>, evolve: (nat, VmId) -> Contents, succeeds: nat -> bool, guests: map<VmId, Guest>)
      requires Distinct(order) && forall i :: 0 <= i < |order| ==> order[i] in guests
      ensures Valid() && this.order == order && this.evolve == evolve && this.succeeds == succeeds && start == guests
      ensures this.guests == guests && calls == [] && published == None
    {
      this.order, this.evolve, this.succeeds, this.guests, start := order, evolve, succeeds, guests, guests;
      calls, published := [], None;
    }

    /** The guests after the first `k` calls. */
    ghost function At(k: nat): map<VmId, Guest>
      requires k <= |calls|
      reads `calls
    {
      After(evolve, start, calls, k)
    }

    ghost predicate Valid()
      reads this
    {
      && Distinct(order) && (forall i :: 0 <= i < |order| ==> order[i] in guests)
      && guests == After(evolve, start, calls, |calls|)
    }

    /** Make a call: running guests run on, and then it takes effect if it succeeds. */
    method Make(call: Event)
      requires Valid()
      modifies `guests, `calls
      ensures Valid() && calls == old(calls) + [call]
      ensures guests == Apply(evolve, |old(calls)|, old(guests), call) && guests.Keys == old(guests).Keys
      ensures forall v :: v in guests ==>
        guests[v].paused == if (call.Pause? || call.Resume?) && call.ok && call.vm == v then call.Pause? else old(guests)[v].paused
      ensures forall v :: v in guests && old(guests)[v].paused && guests[v].paused ==> guests[v] == old(guests)[v]
    {
      hide After;
      AfterOneMore(evolve, start, calls, call);
      guests := Elapsed(evolve, |calls|, guests);
      if (call.Pause? || call.Resume?) && call.ok && call.vm in guests {
        guests := guests[call.vm := guests[call.vm].(paused := call.Pause?)];
      }
      calls := calls + [call];
    }

    /** Pause the guests in order, up to the first that does not pause. */
    method PauseAll() returns (n: nat)
      requires Valid()
      modifies `guests, `calls
      ensures Valid() && n <= |order| && calls == old(calls) + Pauses(order, n)
      ensures guests.Keys == old(guests).Keys
      ensures forall i :: 0 <= i < n ==> guests[order[i]].paused
      ensures forall v :: v in guests ==> guests[v].paused == (old(guests)[v].paused || v in order[..n])
    {
      hide After, Apply;
      n := 0;
      while n < |order|
        invariant Valid() && n <= |order| && guests.Keys == old(guests).Keys
        invariant calls == old(calls) + seq(n, i requires 0 <= i < n => Pause(order[i], true))
        invariant forall v :: v in guests ==> guests[v].paused == (old(guests)[v].paused || v in order[..n])
      {
        var ok := succeeds(|calls|);
        Make(Pause(order[n], ok));
        if !ok {
          return;
        }
        assert order[..n + 1] == order[..n] + [order[n]];
        n := n + 1;
      }
    }

    /** Save every guest in order, up to the first failure; all are paused, so all at one moment. */
    method SaveAll() returns (saved: seq<Saved>)
      requires Valid() && forall i :: 0 <= i < |order| ==> guests[order[i]].paused
      modifies `guests, `calls
      ensures Valid() && |saved| <= |order| && calls == old(calls) + Saves(order, |saved|)
      ensures guests.Keys == old(guests).Keys
      ensures forall v :: v in guests ==> guests[v].paused == old(guests)[v].paused
      ensures forall i :: 0 <= i < |saved| ==> saved[i] == Saved(order[i], old(guests)[order[i]].contents)
    {
      hide After, Apply;
      saved := [];
      while |saved| < |order|
        invariant Valid() && |saved| <= |order| && guests.Keys == old(guests).Keys
        invariant calls == old(calls) + seq(|saved|, i requires 0 <= i < |saved| => Save(order[i], true))
        invariant forall v :: v in guests ==> guests[v].paused == old(guests)[v].paused
        invariant forall v :: v in guests && guests[v].paused ==> guests[v] == old(guests)[v]
        invariant forall i :: 0 <= i < |saved| ==> saved[i] == Saved(order[i], old(guests)[order[i]].contents)
      {
        var vm, ok := order[|saved|], succeeds(|calls|);
        Make(Save(vm, ok));
        if !ok {
          return;
        }
        saved := saved + [Saved(vm, guests[vm].contents)];
      }
    }

    /** Resume the first `n` guests in reverse, carrying on past failures. */
    method ResumeAll(n: nat) returns (resumes: seq<Event>)
      requires Valid() && n <= |order|
      modifies `guests, `calls
      ensures Valid() && ResumesAll(resumes, order, n) && calls == old(calls) + resumes
      ensures guests.Keys == old(guests).Keys
      ensures AllOk(resumes) ==> forall v :: v in guests ==> guests[v].paused == (old(guests)[v].paused && v !in order[..n])
    {
      hide After, Apply;
      resumes := [];
      while |resumes| < n
        invariant Valid() && |resumes| <= n && guests.Keys == old(guests).Keys && calls == old(calls) + resumes
        invariant forall i :: 0 <= i < |resumes| ==> resumes[i].Resume? && resumes[i].vm == order[n - 1 - i]
        invariant AllOk(resumes) ==>
          forall v :: v in guests ==> guests[v].paused == (old(guests)[v].paused && v !in order[n - |resumes|..n])
      {
        var vm, ok := order[n - 1 - |resumes|], succeeds(|calls|);
        assert order[n - 1 - |resumes|..n] == [vm] + order[n - |resumes|..n];
        Make(Resume(vm, ok));
        AllOkPush(resumes, Resume(vm, ok));
        resumes := resumes + [Resume(vm, ok)];
      }
      assert order[0..n] == order[..n];
    }

    /** Replace the manifest, and make the replacement durable. */
    method PublishManifest(saved: seq<Saved>) returns (ok: bool, ghost publish: seq<Event>)
      requires Valid()
      modifies `guests, `calls, `published
      ensures Valid() && calls == old(calls) + publish && guests.Keys == old(guests).Keys
      ensures forall v :: v in guests ==> guests[v].paused == old(guests)[v].paused
      ensures publish == [Publish(false)] || exists synced :: publish == [Publish(true), SyncDirectory(synced)]
      ensures ok <==> publish == [Publish(true), SyncDirectory(true)]
      ensures published == if publish[0].ok then Some(saved) else old(published)
    {
      hide After, Apply;
      var renamed := succeeds(|calls|);
      Make(Publish(renamed));
      if !renamed {
        return false, [Publish(false)];
      }
      published := Some(saved);
      ok := succeeds(|calls|);
      Make(SyncDirectory(ok));
      publish := [Publish(true), SyncDirectory(ok)];
    }

    /**
     Pause, save, resume, publish. The manifest is replaced only when all guests
     were paused, saved and resumed, and then it holds every guest as it was
     right after the last pause.
     */
    method Checkpoint() returns (ok: bool, ghost shape: Shape, ghost cut: map<VmId, Guest>)
      requires Valid()
      modifies `guests, `calls, `published
      ensures Valid() && ShapeOk(shape, order) && calls == old(calls) + Calls(shape, order)
      ensures ok <==> shape.publish == [Publish(true), SyncDirectory(true)]
      ensures cut == At(|old(calls)| + |Pauses(order, shape.paused)|)
      ensures Publish(true) !in shape.publish ==> published == old(published)
      ensures Publish(true) in shape.publish ==>
        && published.Some? && |published.value| == |order|
        && forall i :: 0 <= i < |order| ==>
             order[i] in cut && cut[order[i]].paused && published.value[i] == Saved(order[i], cut[order[i]].contents)
      ensures guests.Keys == old(guests).Keys
      ensures AllOk(shape.resumes) ==> forall v :: v in guests && !old(guests)[v].paused ==> !guests[v].paused
    {
      hide Pauses, Saves, ResumesAll, After;
      var n := PauseAll();
      cut := guests;
      ghost var paused := calls;
      if n < |order| {
        var undone := ResumeAll(n);
        shape := Shape(n, 0, undone, []);
        assert Calls(shape, order) == Pauses(order, n) + undone;
        AfterPrefix(evolve, start, paused, calls, |paused|);
        ok := false;
        return;
      }
      var saved := SaveAll();
      var resumes := ResumeAll(n);
      shape := Shape(n, |saved|, resumes, []);
      Appended(old(calls), Pauses(order, n), Saves(order, |saved|), resumes);
      assert calls == old(calls) + (Pauses(order, n) + Saves(order, |saved|) + resumes);
      AfterPrefix(evolve, start, paused, calls, |paused|);
      ok := |saved| == |order| && forall i :: 0 <= i < |resumes| ==> resumes[i].ok;
      if !ok {
        assert Calls(shape, order) == Pauses(order, n) + Saves(order, |saved|) + resumes;
        return;
      }
      ghost var publish;
      ok, publish := PublishManifest(saved);
      shape := Shape(n, |saved|, resumes, publish);
      AfterPrefix(evolve, start, paused, calls, |paused|);
    }
  }
}
