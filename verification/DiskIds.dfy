/**
 Block ids. Every step acts on what the disks and checkpoints have recorded in
 a simple way, whatever files hold it. Within one disk an id always means one
 block. Across disks it does unless a checkpoint is reopened beside disks it
 does not fit, which is made precise here.
 */
module DiskIds {
  import opened Basics
  import opened DiskLog
  import opened DiskInvariant
  import opened DiskSteps
  import opened DiskRecovery
  import opened DiskRuns
  import G = Generations

  // ---------------------------------------------------------------------
  // Runs as they act on logs
  // ---------------------------------------------------------------------

  /** What a checkpoint has recorded, and the process that took it. */
  datatype Taken = Taken(log: seq<Record>, epoch: nat)

  datatype Logs = Logs(disks: map<DiskId, seq<Record>>, taken: seq<Taken>, epoch: nat, nextBlock: nat)

  function LogsOf(w: World): Logs {
    Logs(map d | d in w.disks :: LogOf(w, d),
         seq(|w.published|, p requires 0 <= p < |w.published| => Taken(StateLog(w, p), w.published[p].epoch)),
         w.epoch, w.nextBlock)
  }

  function LogStep(l: Logs, step: Step): Logs {
    match step
    case DoCreate(d, _) => l.(disks := l.disks[d := []])
    case DoWrite(d, address, bytes) =>
      if d in l.disks
      then l.(disks := l.disks[d := l.disks[d] + [Record(address, l.nextBlock, bytes)]], nextBlock := l.nextBlock + 1)
      else l
    case DoFork(d, child) => if d in l.disks then l.(disks := l.disks[child := l.disks[d]]) else l
    case DoCheckpoint(d) => if d in l.disks then l.(taken := l.taken + [Taken(l.disks[d], l.epoch)]) else l
    case DoDrop(d) => l.(disks := l.disks - {d})
    case DoCrash(_, _, _) => l.(disks := map[], epoch := l.epoch + 1, nextBlock := 1)
    case DoRestore(d, p) =>
      if p < |l.taken|
      then l.(disks := l.disks[d := l.taken[p].log], nextBlock := MaxId(l.taken[p].log, l.nextBlock))
      else l
  }

  predicate LogLegal(l: Logs, step: Step) {
    match step
    case DoCreate(d, _) => d !in l.disks
    case DoWrite(d, _, _) => d in l.disks
    case DoFork(d, child) => d in l.disks && child !in l.disks
    case DoCheckpoint(d) => d in l.disks
    case DoRestore(d, p) => d !in l.disks && p < |l.taken|
    case _ => true
  }

  function LogRun(l: Logs, steps: seq<Step>): Logs
    decreases |steps|
  {
    if steps == [] then l else LogRun(LogStep(l, steps[0]), steps[1..])
  }

  predicate LogLegalRun(l: Logs, steps: seq<Step>)
    decreases |steps|
  {
    steps == [] || (LogLegal(l, steps[0]) && LogLegalRun(LogStep(l, steps[0]), steps[1..]))
  }

  /** A step of the disks is the same step of their logs. */
  lemma StepLogs(w: World, step: Step)
    requires Inv(w) && Legal(w, step)
    ensures LogLegal(LogsOf(w), step) && LogsOf(Next(w, step)) == LogStep(LogsOf(w), step)
  {
    hide Inv, LogOf, StateLog, Create, WriteBlock, Fork, Checkpoint, Restore, MaxId;
    if step.DoFork? {
      ForkLogs(w, step.d, step.child);
    } else if step.DoCheckpoint? {
      CheckpointLogs(w, step.d);
    } else {
      OtherLogsStep(w, step);
    }
  }

  lemma ForkLogs(w: World, d: DiskId, child: DiskId)
    requires Inv(w) && d in w.disks && child !in w.disks
    ensures LogsOf(Fork(w, d, child)) == LogStep(LogsOf(w), DoFork(d, child))
  {
    hide Inv, LogOf, StateLog, Fork;
    var t := Fork(w, d, child);
    ForkKeepsInv(w, d, child);
    assert LogsOf(t).disks == LogsOf(w).disks[child := LogsOf(w).disks[d]];
    assert LogsOf(t).taken == LogsOf(w).taken;
  }

  lemma CheckpointLogs(w: World, d: DiskId)
    requires Inv(w) && d in w.disks
    ensures LogsOf(Checkpoint(w, d)) == LogStep(LogsOf(w), DoCheckpoint(d))
  {
    hide Inv, LogOf, StateLog, Checkpoint;
    var t := Checkpoint(w, d);
    CheckpointKeepsInv(w, d);
    assert LogsOf(t).disks == LogsOf(w).disks;
    assert LogsOf(t).taken == LogsOf(w).taken + [Taken(LogOf(w, d), w.epoch)];
  }

  lemma OtherLogsStep(w: World, step: Step)
    requires Inv(w) && Legal(w, step) && !step.DoFork? && !step.DoCheckpoint?
    ensures LogLegal(LogsOf(w), step) && LogsOf(Next(w, step)) == LogStep(LogsOf(w), step)
  {
    hide Inv, LogOf, StateLog, Create, WriteBlock, Restore, MaxId;
    var t := Next(w, step);
    match step {
      case DoCreate(d, size) => CreateKeepsInv(w, d, size);
      case DoWrite(d, address, bytes) => WriteKeepsInv(w, d, address, bytes);
      case DoDrop(d) => DropKeepsInv(w, d);
      case DoCrash(names, files, nextInode) => CrashKeepsInv(w, names, files, nextInode);
      case DoRestore(d, p) => RestoreKeepsInv(w, d, p);
    }
    assert LogsOf(t).disks == LogStep(LogsOf(w), step).disks;
    assert LogsOf(t).taken == LogStep(LogsOf(w), step).taken;
  }

  lemma {:induction false} RunLogs(w: World, steps: seq<Step>)
    requires Inv(w) && LegalRun(w, steps)
    ensures LogLegalRun(LogsOf(w), steps) && LogsOf(Run(w, steps)) == LogRun(LogsOf(w), steps)
    decreases |steps|
  {
    hide Inv, Legal, Next, LogsOf, LogStep, LogLegal;
    if steps != [] {
      StepKeepsInv(w, steps[0]);
      StepLogs(w, steps[0]);
      RunLogs(Next(w, steps[0]), steps[1..]);
    }
  }

  const NO_LOGS: Logs := Logs(map[], [], 0, 1)

  lemma EmptyLogs()
    ensures LogsOf(EMPTY) == NO_LOGS
  {
  }

  // ---------------------------------------------------------------------
  // Within one disk
  // ---------------------------------------------------------------------

  /** Records of one id in the two logs hold the same bytes. */
  predicate Agree(a: seq<Record>, b: seq<Record>) {
    forall i, j :: 0 <= i < |a| && 0 <= j < |b| && a[i].id == b[j].id ==> a[i].bytes == b[j].bytes
  }

  predicate Below(a: seq<Record>, n: nat) {
    forall i :: 0 <= i < |a| ==> a[i].id < n
  }

  predicate DiskSound(l: Logs, d: DiskId) {
    d in l.disks ==> Agree(l.disks[d], l.disks[d]) && Below(l.disks[d], l.nextBlock)
  }

  predicate TakenSound(l: Logs, p: nat) {
    p < |l.taken| ==> Agree(l.taken[p].log, l.taken[p].log) && l.taken[p].epoch <= l.epoch
  }

  /** No log contradicts itself, and new ids are new to every open disk. */
  ghost predicate Sound(l: Logs) {
    && (forall d {:trigger DiskSound(l, d)} :: DiskSound(l, d))
    && (forall p {:trigger TakenSound(l, p)} :: TakenSound(l, p))
  }

  lemma StepKeepsSound(l: Logs, step: Step)
    requires Sound(l) && LogLegal(l, step)
    ensures Sound(LogStep(l, step))
  {
    var t := LogStep(l, step);
    forall d ensures DiskSound(t, d) {
      assert DiskSound(l, d);
      match step
      case DoFork(s, child) => assert DiskSound(l, s);
      case DoRestore(_, p) => assert TakenSound(l, p);
      case _ =>
    }
    forall p: nat ensures TakenSound(t, p) {
      assert TakenSound(l, p);
      if step.DoCheckpoint? {
        assert DiskSound(l, step.d);
      }
    }
  }

  lemma {:induction false} RunIsSound(l: Logs, steps: seq<Step>)
    requires Sound(l) && LogLegalRun(l, steps)
    ensures Sound(LogRun(l, steps))
    decreases |steps|
  {
    hide Sound, LogStep, LogLegal;
    if steps != [] {
      StepKeepsSound(l, steps[0]);
      RunIsSound(LogStep(l, steps[0]), steps[1..]);
    }
  }

  // ---------------------------------------------------------------------
  // Across disks, exactly
  // ---------------------------------------------------------------------

  predicate PairAgrees(l: Logs, d: DiskId, e: DiskId) {
    d in l.disks && e in l.disks ==> Agree(l.disks[d], l.disks[e])
  }

  /** An id means one block in all open disks. */
  ghost predicate AllAgree(l: Logs) {
    forall d, e {:trigger PairAgrees(l, d, e)} :: PairAgrees(l, d, e)
  }

  /** No record of the checkpoint contradicts a block an open disk has recorded. */
  predicate NoConflict(l: Logs, p: nat)
    requires p < |l.taken|
  {
    forall d :: d in l.disks ==> Agree(l.disks[d], l.taken[p].log)
  }

  predicate Fits(l: Logs, step: Step) {
    step.DoRestore? && step.checkpoint < |l.taken| ==> NoConflict(l, step.checkpoint)
  }

  /** After a step ids agree exactly if the step is not a restore that conflicts. */
  lemma StepAgreesWhen(l: Logs, step: Step)
    requires Sound(l) && AllAgree(l) && LogLegal(l, step)
    ensures AllAgree(LogStep(l, step)) <==> Fits(l, step)
  {
    var t := LogStep(l, step);
    if Fits(l, step) {
      forall d, e ensures PairAgrees(t, d, e) {
        assert PairAgrees(l, d, e) && DiskSound(l, d) && DiskSound(l, e);
        match step
        case DoFork(s, _) => assert PairAgrees(l, s, e) && PairAgrees(l, d, s) && PairAgrees(l, s, s);
        case DoRestore(_, p) => assert TakenSound(l, p);
        case _ =>
      }
    } else {
      var d :| d in l.disks && !Agree(l.disks[d], l.taken[step.checkpoint].log);
      assert !PairAgrees(t, d, step.d);
    }
  }

  /** No restore of the run conflicts with the disks open at the time. */
  ghost predicate Unconflicted(l: Logs, steps: seq<Step>)
    decreases |steps|
  {
    steps == [] || (Fits(l, steps[0]) && Unconflicted(LogStep(l, steps[0]), steps[1..]))
  }

  ghost predicate AgreeThroughout(l: Logs, steps: seq<Step>)
    decreases |steps|
  {
    AllAgree(l) && (steps == [] || AgreeThroughout(LogStep(l, steps[0]), steps[1..]))
  }

  /** Ids agree at every point of a run exactly if no restore of it conflicts. */
  lemma {:induction false} RunAgreesWhen(l: Logs, steps: seq<Step>)
    requires Sound(l) && AllAgree(l) && LogLegalRun(l, steps)
    ensures AgreeThroughout(l, steps) <==> Unconflicted(l, steps)
    decreases |steps|
  {
    hide Sound, AllAgree, LogStep, LogLegal, Fits;
    if steps != [] {
      var t := LogStep(l, steps[0]);
      StepKeepsSound(l, steps[0]);
      StepAgreesWhen(l, steps[0]);
      if AllAgree(t) {
        RunAgreesWhen(t, steps[1..]);
      }
    }
  }

  // ---------------------------------------------------------------------
  // Across disks, by processes
  // ---------------------------------------------------------------------

  predicate BlankTaken(l: Logs, p: nat) {
    p < |l.taken| && l.taken[p].epoch == l.epoch ==> l.taken[p].log == []
  }

  /** No open disk and no checkpoint of this process has recorded anything. */
  ghost predicate Blank(l: Logs) {
    (forall d :: d in l.disks ==> l.disks[d] == []) && (forall p {:trigger BlankTaken(l, p)} :: BlankTaken(l, p))
  }

  /**
   A checkpoint can be reopened with its ids: this process took it; or the
   process `origin` did, whose checkpoints were opened and nothing written
   since; or this process holds nothing yet.
   */
  ghost predicate SafeRestore(l: Logs, origin: Option<nat>, p: nat)
    requires p < |l.taken|
  {
    l.taken[p].epoch == l.epoch || origin == Some(l.taken[p].epoch) || Blank(l)
  }

  /** The earlier process whose checkpoints are open with nothing written since. */
  function OriginAfter(l: Logs, origin: Option<nat>, step: Step): Option<nat> {
    match step
    case DoWrite(_, _, _) => None
    case DoCrash(_, _, _) => None
    case DoRestore(_, p) => if p < |l.taken| && l.taken[p].epoch != l.epoch then Some(l.taken[p].epoch) else origin
    case _ => origin
  }

  ghost predicate SafeStep(l: Logs, origin: Option<nat>, step: Step) {
    step.DoRestore? && step.checkpoint < |l.taken| ==> SafeRestore(l, origin, step.checkpoint)
  }

  ghost predicate SafeRun(l: Logs, origin: Option<nat>, steps: seq<Step>)
    decreases |steps|
  {
    steps == [] ||
    (SafeStep(l, origin, steps[0]) && SafeRun(LogStep(l, steps[0]), OriginAfter(l, origin, steps[0]), steps[1..]))
  }

  /** The processes whose checkpoints fit beside the open disks. */
  function Family(l: Logs, origin: Option<nat>): set<nat> {
    {l.epoch} + if origin.Some? then {origin.value} else {}
  }

  predicate DiskFits(l: Logs, origin: Option<nat>, d: DiskId, p: nat) {
    d in l.disks && p < |l.taken| && l.taken[p].epoch in Family(l, origin) ==> Agree(l.disks[d], l.taken[p].log)
  }

  predicate TakenFit(l: Logs, origin: Option<nat>, p: nat, q: nat) {
    p < |l.taken| && q < |l.taken|
    && (l.taken[p].epoch == l.taken[q].epoch
        || (l.taken[p].epoch in Family(l, origin) && l.taken[q].epoch in Family(l, origin))) ==>
      Agree(l.taken[p].log, l.taken[q].log)
  }

  predicate TakenBelow(l: Logs, p: nat) {
    p < |l.taken| && l.taken[p].epoch == l.epoch ==> Below(l.taken[p].log, l.nextBlock)
  }

  /** Open disks agree with each other and with the checkpoints of the family, and these among themselves. */
  ghost predicate FamilyInv(l: Logs, origin: Option<nat>) {
    && AllAgree(l)
    && (forall d, p {:trigger DiskFits(l, origin, d, p)} :: DiskFits(l, origin, d, p))
    && (forall p, q {:trigger TakenFit(l, origin, p, q)} :: TakenFit(l, origin, p, q))
    && (forall p {:trigger TakenBelow(l, p)} :: TakenBelow(l, p))
  }

  lemma FamilyFits(l: Logs, origin: Option<nat>, step: Step)
    requires FamilyInv(l, origin) && SafeStep(l, origin, step)
    ensures Fits(l, step)
  {
    if step.DoRestore? && step.checkpoint < |l.taken| {
      forall d | d in l.disks ensures Agree(l.disks[d], l.taken[step.checkpoint].log) {
        assert DiskFits(l, origin, d, step.checkpoint);
      }
    }
  }

  /** Opening the first checkpoint of an earlier process in a blank process. */
  lemma BlankWidens(l: Logs, origin: Option<nat>, e: nat)
    requires FamilyInv(l, origin) && Blank(l)
    ensures FamilyInv(l, Some(e))
  {
    forall d, p ensures DiskFits(l, Some(e), d, p) { }
    forall p, q ensures TakenFit(l, Some(e), p, q) {
      assert TakenFit(l, origin, p, q) && BlankTaken(l, p) && BlankTaken(l, q);
    }
  }

  lemma RestoreKeepsFamily(l: Logs, origin: Option<nat>, d: DiskId, p: nat)
    requires Sound(l) && FamilyInv(l, origin) && d !in l.disks && p < |l.taken| && l.taken[p].epoch in Family(l, origin)
    ensures FamilyInv(LogStep(l, DoRestore(d, p)), origin)
  {
    var t := LogStep(l, DoRestore(d, p));
    FamilyAgrees(l, origin, d, p);
    forall e, q ensures DiskFits(t, origin, e, q) { assert DiskFits(l, origin, e, q) && TakenFit(l, origin, p, q); }
    forall q, r ensures TakenFit(t, origin, q, r) { assert TakenFit(l, origin, q, r); }
    forall q ensures TakenBelow(t, q) { assert TakenBelow(l, q); }
  }

  lemma FamilyAgrees(l: Logs, origin: Option<nat>, d: DiskId, p: nat)
    requires Sound(l) && FamilyInv(l, origin) && d !in l.disks && p < |l.taken| && l.taken[p].epoch in Family(l, origin)
    ensures AllAgree(LogStep(l, DoRestore(d, p)))
  {
    forall e | e in l.disks ensures Agree(l.disks[e], l.taken[p].log) { assert DiskFits(l, origin, e, p); }
    StepAgreesWhen(l, DoRestore(d, p));
  }

  lemma SafeStepKeepsFamily(l: Logs, origin: Option<nat>, step: Step)
    requires Sound(l) && FamilyInv(l, origin) && LogLegal(l, step) && SafeStep(l, origin, step)
    ensures FamilyInv(LogStep(l, step), OriginAfter(l, origin, step))
  {
    if step.DoRestore? {
      var e := l.taken[step.checkpoint].epoch;
      if e != l.epoch && origin != Some(e) {
        BlankWidens(l, origin, e);
      }
      hide FamilyInv, Sound;
      RestoreKeepsFamily(l, OriginAfter(l, origin, step), step.d, step.checkpoint);
    } else {
      OtherKeepsFamily(l, origin, step);
    }
  }

  lemma OtherKeepsFamily(l: Logs, origin: Option<nat>, step: Step)
    requires Sound(l) && FamilyInv(l, origin) && LogLegal(l, step) && !step.DoRestore?
    ensures FamilyInv(LogStep(l, step), OriginAfter(l, origin, step))
  {
    var t, o := LogStep(l, step), OriginAfter(l, origin, step);
    StepAgreesWhen(l, step);
    forall d, p: nat ensures DiskFits(t, o, d, p) {
      assert DiskFits(l, origin, d, p) && TakenBelow(l, p) && TakenSound(l, p);
      if step.DoFork? { assert DiskFits(l, origin, step.d, p); }
      if step.DoCheckpoint? { assert PairAgrees(l, d, step.d); }
    }
    forall p: nat, q: nat ensures TakenFit(t, o, p, q) {
      assert TakenFit(l, origin, p, q) && TakenSound(l, p) && TakenSound(l, q);
      if step.DoCheckpoint? {
        assert DiskFits(l, origin, step.d, p) && DiskFits(l, origin, step.d, q) && PairAgrees(l, step.d, step.d);
      }
    }
    forall p: nat ensures TakenBelow(t, p) {
      assert TakenBelow(l, p) && TakenSound(l, p);
      if step.DoCheckpoint? { assert DiskSound(l, step.d); }
    }
  }

  /** Runs whose restores are safe never conflict, so an id means one block throughout. */
  lemma {:induction false} SafeRunAgrees(l: Logs, origin: Option<nat>, steps: seq<Step>)
    requires Sound(l) && FamilyInv(l, origin) && LogLegalRun(l, steps) && SafeRun(l, origin, steps)
    ensures Unconflicted(l, steps) && AgreeThroughout(l, steps) && AllAgree(LogRun(l, steps))
    ensures exists o :: FamilyInv(LogRun(l, steps), o)
    decreases |steps|
  {
    hide Sound, LogStep, LogLegal, Fits, SafeStep, OriginAfter;
    if steps != [] {
      FamilyFits(l, origin, steps[0]);
      StepKeepsSound(l, steps[0]);
      SafeStepKeepsFamily(l, origin, steps[0]);
      SafeRunAgrees(LogStep(l, steps[0]), OriginAfter(l, origin, steps[0]), steps[1..]);
    }
  }

  lemma StartIsSound()
    ensures Sound(NO_LOGS) && FamilyInv(NO_LOGS, None)
  {
  }
}
