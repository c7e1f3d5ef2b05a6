/**
 The fork barrier of the supervisor: RAM is copied ahead while the source
 runs; then the source is paused, its machine state captured, its filesystem
 forked and its RAM finished, and the source is resumed whatever happened.
 Any call may fail, and an unpaused source changes between any two calls.
 */
module ForkBarrier {
  import opened Basics

  type VmId = nat

  /** What a guest consists of: processor and devices, files, memory. */
  datatype Contents = Contents(machine: nat, files: nat, memory: nat)

  datatype Guest = Guest(contents: Contents, paused: bool)

  datatype Call = TakeDirtyLog | PrepareRam | Pause | Capture | ForkFiles | FinishRam | Resume | StartChild

  datatype Event = Event(call: Call, ok: bool)

  datatype ForkError = VmNotFound(vm: VmId) | Failed(call: Call)

  // ---------------------------------------------------------------------
  // The calls of a fork
  // ---------------------------------------------------------------------

  const AHEAD: seq<Call> := [TakeDirtyLog, PrepareRam, Pause]
  const UNDER_PAUSE: seq<Call> := [Capture, ForkFiles, FinishRam]

  /** The first `n` calls of a list succeed and the next one, if there is one, fails. */
  function Attempt(calls: seq<Call>, n: nat): (events: seq<Event>)
    requires n <= |calls|
    ensures |events| == if n < |calls| then n + 1 else n
    ensures forall i :: 0 <= i < |events| ==> events[i] == Event(calls[i], i < n)
  {
    seq(if n < |calls| then n + 1 else n,
        i requires 0 <= i < (if n < |calls| then n + 1 else n) => Event(calls[i], i < n))
  }

  /** How far a fork got: calls ahead, calls under pause, the resume, the child. */
  datatype Shape = Shape(ahead: nat, under: nat, resumed: bool, started: bool)

  predicate ShapeOk(shape: Shape) {
    shape.ahead <= |AHEAD| && shape.under <= |UNDER_PAUSE|
  }

  /** The calls from the pause on. */
  function Rest(shape: Shape): seq<Event>
    requires ShapeOk(shape)
  {
    Attempt(UNDER_PAUSE, shape.under) + [Event(Resume, shape.resumed)]
    + if shape.under < |UNDER_PAUSE| || !shape.resumed then [] else [Event(StartChild, shape.started)]
  }

  function Calls(shape: Shape): seq<Event>
    requires ShapeOk(shape)
  {
    Attempt(AHEAD, shape.ahead) + if shape.ahead < |AHEAD| then [] else Rest(shape)
  }

  predicate Succeeds(shape: Shape)
    requires ShapeOk(shape)
  {
    shape.ahead == |AHEAD| && shape.under == |UNDER_PAUSE| && shape.resumed && shape.started
  }

  function Count(events: seq<Event>, call: Call): nat {
    if events == [] then 0 else (if events[0].call == call then 1 else 0) + Count(events[1..], call)
  }

  lemma {:induction false} CountConcat(a: seq<Event>, b: seq<Event>, call: Call)
    ensures Count(a + b, call) == Count(a, call) + Count(b, call)
    decreases |a|
  {
    if a == [] {
      assert a + b == b;
    } else {
      assert (a + b)[1..] == a[1..] + b;
      CountConcat(a[1..], b, call);
    }
  }

  lemma {:induction false} CountNone(events: seq<Event>, call: Call)
    requires forall i :: 0 <= i < |events| ==> events[i].call != call
    ensures Count(events, call) == 0
    decreases |events|
  {
    if events != [] {
      CountNone(events[1..], call);
    }
  }

  /** The source is asked to resume exactly once if it was paused, and never otherwise, whatever failed. */
  lemma ResumedOnce(shape: Shape)
    requires ShapeOk(shape)
    ensures Count(Calls(shape), Resume) == if shape.ahead == |AHEAD| then 1 else 0
  {
    var ahead := Attempt(AHEAD, shape.ahead);
    CountNone(ahead, Resume);
    if shape.ahead == |AHEAD| {
      var under, resume := Attempt(UNDER_PAUSE, shape.under), [Event(Resume, shape.resumed)];
      var child := if shape.under < |UNDER_PAUSE| || !shape.resumed then [] else [Event(StartChild, shape.started)];
      CountNone(under, Resume);
      CountNone(child, Resume);
      CountConcat(under, resume, Resume);
      CountConcat(under + resume, child, Resume);
      CountConcat(ahead, under + resume + child, Resume);
      assert resume[1..] == [];
    } else {
      CountConcat(ahead, [], Resume);
    }
  }

  /** A capture, a filesystem fork or a RAM finish only ever happens between the pause and the resume. */
  lemma OnlyUnderPause(shape: Shape, i: nat)
    requires ShapeOk(shape) && i < |Calls(shape)| && Calls(shape)[i].call in UNDER_PAUSE
    ensures Calls(shape)[2] == Event(Pause, true) && 2 < i
    ensures forall k :: 0 <= k < i ==> Calls(shape)[k].call != Resume
  {
    var ahead := Attempt(AHEAD, shape.ahead);
    assert i >= |ahead|;
    var under := Attempt(UNDER_PAUSE, shape.under);
    assert i < |ahead| + |under|;
    forall k | 0 <= k < i ensures Calls(shape)[k].call != Resume {
      assert Calls(shape)[k] == if k < |ahead| then ahead[k] else under[k - |ahead|];
    }
  }

  // ---------------------------------------------------------------------
  // What the guests do meanwhile
  // ---------------------------------------------------------------------

  /** Just before call `k` every unpaused guest has moved on. */
  function Elapsed(evolve: (nat, VmId) -> Contents, k: nat, vms: map<VmId, Guest>): map<VmId, Guest> {
    map vm | vm in vms :: if vms[vm].paused then vms[vm] else Guest(evolve(k, vm), false)
  }

  /** What the source consists of at the pause, which is the third call of a fork. */
  function AtPause(evolve: (nat, VmId) -> Contents, made: nat, source: VmId, guest: Guest): Contents {
    if guest.paused then guest.contents else evolve(made + 2, source)
  }

  /** The part of a guest that a call takes. */
  function PartOf(contents: Contents, call: Call): nat {
    match call
    case Capture => contents.machine
    case ForkFiles => contents.files
    case _ => contents.memory
  }

  // ---------------------------------------------------------------------
  // The supervisor
  // ---------------------------------------------------------------------

  class Supervisor {
    /** How an unpaused guest changes before a given call, and how that call goes. */
    const evolve: (nat, VmId) -> Contents
    const succeeds: nat -> bool
    var nextVm: nat
    var vms: map<VmId, Guest>
    var calls: seq<Event>

    constructor (evolve: (nat, VmId) -> Contents, succeeds: nat -> bool, nextVm: nat, vms: map<VmId, Guest>)
      ensures this.evolve == evolve && this.succeeds == succeeds
      ensures this.vms == vms && this.nextVm == nextVm && calls == []
    {
      this.evolve, this.succeeds, this.nextVm, this.vms, calls := evolve, succeeds, nextVm, vms, [];
    }

    /** Unpaused guests run on, and then the call is made. */
    method Make(call: Call) returns (ok: bool)
      modifies `vms, `calls
      ensures calls == old(calls) + [Event(call, ok)] && vms == Elapsed(evolve, |old(calls)|, old(vms))
    {
      vms := Elapsed(evolve, |calls|, vms);
      ok := succeeds(|calls|);
      calls := calls + [Event(call, ok)];
    }

    /** The calls made while the source runs, up to the first failure; the last one pauses it. */
    method PrepareAndPause(source: VmId) returns (ahead: nat)
      requires source in vms
      modifies `vms, `calls
      ensures ahead <= |AHEAD| && calls == old(calls) + Attempt(AHEAD, ahead) && vms.Keys == old(vms).Keys
      ensures forall vm :: vm in vms && vm != source ==> vms[vm].paused == old(vms)[vm].paused
      ensures vms[source].paused == (old(vms)[source].paused || ahead == |AHEAD|)
      ensures ahead == |AHEAD| ==> vms[source].contents == AtPause(evolve, |old(calls)|, source, old(vms)[source])
    {
      ahead := 0;
      while ahead < |AHEAD|
        invariant ahead <= |AHEAD| && vms.Keys == old(vms).Keys
        invariant |calls| == |old(calls)| + ahead && calls[..|old(calls)|] == old(calls)
        invariant forall i :: 0 <= i < ahead ==> calls[|old(calls)| + i] == Event(AHEAD[i], true)
        invariant forall vm :: vm in vms ==> vms[vm].paused == old(vms)[vm].paused
        invariant old(vms)[source].paused ==> vms[source] == old(vms)[source]
        invariant ahead == |AHEAD| && !old(vms)[source].paused ==>
          vms[source].contents == evolve(|old(calls)| + 2, source)
      {
        var ok := Make(AHEAD[ahead]);
        if !ok {
          return;
        }
        ahead := ahead + 1;
      }
      vms := vms[source := vms[source].(paused := true)];
    }

    /** A call that takes one part of the source, as the source has it then. */
    method Take(source: VmId, call: Call) returns (part: Option<nat>)
      requires source in vms
      modifies `vms, `calls
      ensures calls == old(calls) + [Event(call, part.Some?)] && vms == Elapsed(evolve, |old(calls)|, old(vms))
      ensures part.Some? ==> part.value == PartOf(vms[source].contents, call)
      ensures vms.Keys == old(vms).Keys && (old(vms)[source].paused ==> vms[source] == old(vms)[source])
      ensures forall vm :: vm in vms ==> vms[vm].paused == old(vms)[vm].paused
    {
      var ok := Make(call);
      part := if ok then Some(PartOf(vms[source].contents, call)) else None;
    }

    /** With the source paused, take it apart, one call for each part, up to the first failure. */
    method TakeParts(source: VmId) returns (under: nat, captured: Contents)
      requires source in vms && vms[source].paused
      modifies `vms, `calls
      ensures under <= |UNDER_PAUSE| && vms.Keys == old(vms).Keys && vms[source] == old(vms)[source]
      ensures calls == old(calls) + Attempt(UNDER_PAUSE, under)
      ensures under == |UNDER_PAUSE| ==> captured == old(vms)[source].contents
      ensures forall vm :: vm in vms ==> vms[vm].paused == old(vms)[vm].paused
    {
      hide Elapsed;
      captured := Contents(0, 0, 0);
      var machine := Take(source, Capture);
      if machine.None? {
        return 0, captured;
      }
      var files := Take(source, ForkFiles);
      if files.None? {
        return 1, captured;
      }
      var memory := Take(source, FinishRam);
      if memory.None? {
        return 2, captured;
      }
      return 3, Contents(machine.value, files.value, memory.value);
    }

    /** With the source paused: take it apart, and resume it whatever happened. */
    method TakeUnderPause(source: VmId) returns (under: nat, captured: Contents, resumed: bool)
      requires source in vms && vms[source].paused
      modifies `vms, `calls
      ensures under <= |UNDER_PAUSE| && vms.Keys == old(vms).Keys
      ensures under == |UNDER_PAUSE| ==> captured == old(vms)[source].contents
      ensures calls == old(calls) + (Attempt(UNDER_PAUSE, under) + [Event(Resume, resumed)])
      ensures vms[source] == Guest(old(vms)[source].contents, !resumed)
      ensures forall vm :: vm in vms && vm != source ==> vms[vm].paused == old(vms)[vm].paused
    {
      hide Attempt;
      under, captured := TakeParts(source);
      resumed := Make(Resume);
      if resumed {
        vms := vms[source := vms[source].(paused := false)];
      }
    }

    /** The part of a fork from the pause on. */
    method ForkUnderPause(source: VmId) returns (r: Result<VmId, ForkError>, ghost shape: Shape)
      requires source in vms && vms[source].paused && forall vm :: vm in vms ==> vm < nextVm
      modifies this
      ensures ShapeOk(shape) && shape.ahead == |AHEAD| && (r.Ok? <==> Succeeds(shape))
      ensures old(calls) + Rest(shape) == calls
      ensures r.Ok? ==> r.value == old(nextVm) && nextVm == old(nextVm) + 1 && vms.Keys == old(vms).Keys + {r.value}
      ensures r.Ok? ==> vms[r.value] == Guest(old(vms)[source].contents, false)
      ensures r.Err? ==> vms.Keys == old(vms).Keys && nextVm == old(nextVm)
      ensures vms[source].paused == !shape.resumed
      ensures forall vm :: vm in old(vms) && vm != source ==> vms[vm].paused == old(vms)[vm].paused
    {
      hide Attempt;
      var under, captured, resumed := TakeUnderPause(source);
      shape := Shape(|AHEAD|, under, resumed, false);
      if under < |UNDER_PAUSE| || !resumed {
        r := Err(Failed(if under < |UNDER_PAUSE| then UNDER_PAUSE[under] else Resume));
        return;
      }
      var started := Make(StartChild);
      shape := Shape(|AHEAD|, under, resumed, started);
      if !started {
        r := Err(Failed(StartChild));
        return;
      }
      var child := nextVm;
      nextVm := nextVm + 1;
      vms := vms[child := Guest(captured, false)];
      r := Ok(child);
    }

    /**
     Fork a VM. On success the child has every part of the source as it was at
     the call that paused it. On any failure no child appears. The source is
     left running unless its own resume failed.
     */
    method ForkVm(source: VmId) returns (r: Result<VmId, ForkError>, ghost shape: Shape)
      requires forall vm :: vm in vms ==> vm < nextVm
      modifies this
      ensures source !in old(vms) ==> r == Err(VmNotFound(source)) && vms == old(vms) && calls == old(calls)
      ensures source in old(vms) ==> ShapeOk(shape) && calls == old(calls) + Calls(shape) && (r.Ok? <==> Succeeds(shape))
      ensures r.Ok? ==> r.value == old(nextVm) && nextVm == old(nextVm) + 1 && vms.Keys == old(vms).Keys + {r.value}
      ensures r.Ok? ==> vms[r.value] == Guest(AtPause(evolve, |old(calls)|, source, old(vms)[source]), false)
      ensures r.Err? ==> vms.Keys == old(vms).Keys && nextVm == old(nextVm)
      ensures source in old(vms) ==>
        vms[source].paused == if shape.ahead == |AHEAD| then !shape.resumed else old(vms)[source].paused
      ensures forall vm :: vm in old(vms) && vm != source ==> vms[vm].paused == old(vms)[vm].paused
    {
      shape := Shape(0, 0, false, false);
      if source !in vms {
        r := Err(VmNotFound(source));
        return;
      }
      hide Attempt, Rest;
      var ahead := PrepareAndPause(source);
      if ahead < |AHEAD| {
        shape := Shape(ahead, 0, false, false);
        r := Err(Failed(AHEAD[ahead]));
        return;
      }
      r, shape := ForkUnderPause(source);
    }
  }
}
