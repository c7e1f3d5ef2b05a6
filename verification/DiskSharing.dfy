/**
 What a block id tells about the blocks that disks show, over whole runs, and
 the run in which it misleads.
 */
module DiskSharing {
  import opened Basics
  import opened DiskLog
  import opened DiskInvariant
  import opened DiskSteps
  import opened DiskRecovery
  import opened DiskRuns
  import opened DiskIds
  import G = Generations

  /** Every replayed block is some record's. */
  lemma {:induction false} ReplayedRecord(records: seq<Record>, address: nat) returns (i: nat)
    requires address in Replay(records)
    ensures i < |records| && Replay(records)[address] == Block(records[i].id, records[i].bytes)
    decreases |records|
  {
    var last := |records| - 1;
    if records[last].address == address {
      i := last;
    } else {
      i := ReplayedRecord(records[..last], address);
    }
  }

  /** Blocks with one id, shown by disks whose logs agree, are one block. */
  lemma SameIdSameBlock(w: World, d: DiskId, a: nat, e: DiskId, b: nat)
    requires Inv(w) && d in w.disks && e in w.disks && Agree(LogOf(w, d), LogOf(w, e))
    requires a in G.Visible(w.disks[d].blocks) && b in G.Visible(w.disks[e].blocks)
    requires G.Visible(w.disks[d].blocks)[a].id == G.Visible(w.disks[e].blocks)[b].id
    ensures G.Visible(w.disks[d].blocks)[a] == G.Visible(w.disks[e].blocks)[b]
  {
    hide LogOf, Inv;
    LogReplays(w, d);
    LogReplays(w, e);
    var i := ReplayedRecord(LogOf(w, d), a);
    var j := ReplayedRecord(LogOf(w, e), b);
  }

  /** After any run, an id means one block within one disk. */
  lemma OneDiskOneBlock(steps: seq<Step>, d: DiskId, a: nat, b: nat)
    requires LegalRun(EMPTY, steps) && d in Run(EMPTY, steps).disks
    requires var blocks := G.Visible(Run(EMPTY, steps).disks[d].blocks);
      a in blocks && b in blocks && blocks[a].id == blocks[b].id
    ensures var blocks := G.Visible(Run(EMPTY, steps).disks[d].blocks); blocks[a] == blocks[b]
  {
    var w := Run(EMPTY, steps);
    RunFromEmpty(steps);
    assert DiskSound(LogsOf(w), d);
    hide *;
    SameIdSameBlock(w, d, a, d, b);
  }

  lemma RunFromEmpty(steps: seq<Step>)
    requires LegalRun(EMPTY, steps)
    ensures Inv(Run(EMPTY, steps)) && LogLegalRun(NO_LOGS, steps)
    ensures LogsOf(Run(EMPTY, steps)) == LogRun(NO_LOGS, steps) && Sound(LogsOf(Run(EMPTY, steps)))
  {
    hide Inv, Run, LegalRun, LogRun, LogLegalRun, Sound, LogsOf;
    EmptyInv();
    EmptyLogs();
    StartIsSound();
    RunRefines(EMPTY, steps);
    RunLogs(EMPTY, steps);
    RunIsSound(NO_LOGS, steps);
  }

  /** After any run whose restores are safe, an id means one block in all open disks. */
  lemma SafeRunsShareBlocks(steps: seq<Step>, d: DiskId, a: nat, e: DiskId, b: nat)
    requires LegalRun(EMPTY, steps) && SafeRun(NO_LOGS, None, steps)
    requires d in Run(EMPTY, steps).disks && e in Run(EMPTY, steps).disks
    requires var w := Run(EMPTY, steps);
      && a in G.Visible(w.disks[d].blocks) && b in G.Visible(w.disks[e].blocks)
      && G.Visible(w.disks[d].blocks)[a].id == G.Visible(w.disks[e].blocks)[b].id
    ensures var w := Run(EMPTY, steps); G.Visible(w.disks[d].blocks)[a] == G.Visible(w.disks[e].blocks)[b]
  {
    var w := Run(EMPTY, steps);
    RunFromEmpty(steps);
    StartIsSound();
    SafeRunAgrees(NO_LOGS, None, steps);
    assert PairAgrees(LogsOf(w), d, e);
    hide *;
    SameIdSameBlock(w, d, a, e, b);
  }

  // ---------------------------------------------------------------------
  // A run in which one id is two blocks
  // ---------------------------------------------------------------------

  lemma {:induction false} RunOneMore(w: World, steps: seq<Step>, step: Step)
    requires LegalRun(w, steps) && Legal(Run(w, steps), step)
    ensures LegalRun(w, steps + [step]) && Run(w, steps + [step]) == Next(Run(w, steps), step)
    decreases |steps|
  {
    hide Legal, Next;
    var more := steps + [step];
    if steps == [] {
      assert more == [step] && more[1..] == [];
      var t := Next(w, step);
      assert LegalRun(t, []) && Run(t, []) == t;
    } else {
      assert more[0] == steps[0] && more[1..] == steps[1..] + [step];
      RunOneMore(Next(w, steps[0]), steps[1..], step);
    }
  }

  /** The run is one of the disks, and leaves these logs. */
  ghost predicate Reaches(steps: seq<Step>, l: Logs) {
    LegalRun(EMPTY, steps) && LogsOf(Run(EMPTY, steps)) == l
  }

  /** What the logs allow, the disks do; a crash may leave the directory as it is. */
  lemma Advance(steps: seq<Step>, l: Logs, step: Step, t: Logs)
    requires Reaches(steps, l) && LogLegal(l, step) && t == LogStep(l, step)
    requires step.DoCrash? ==>
      var w := Run(EMPTY, steps); step.names == w.names && step.files == w.files && step.nextInode == w.nextInode
    ensures Reaches(steps + [step], t)
  {
    var w := Run(EMPTY, steps);
    RunFromEmpty(steps);
    assert Legal(w, step) by {
      if step.DoWrite? {
        assert DiskOk(w, step.d);
      }
      if step.DoCrash? {
        var u := Crash(w, step.names, step.files, step.nextInode);
        forall name ensures NameOk(u, name) { assert NameOk(w, name); }
        forall p: nat, name ensures StateKept(w, u, p, name) { }
      }
    }
    hide Run, LegalRun, Legal, Next, Inv, LogsOf;
    RunOneMore(EMPTY, steps, step);
    StepLogs(w, step);
  }

  const FIRST: seq<Byte> := [1]
  const SECOND: seq<Byte> := [2]
  const THIRD: seq<Byte> := [3]

  const ONE: seq<Record> := [Record(0, 1, FIRST)]
  const BOTH: seq<Record> := [Record(0, 1, FIRST), Record(0, 2, SECOND)]
  const OTHER: seq<Record> := [Record(0, 1, FIRST), Record(0, 2, THIRD)]

  /** One process writes a block twice, with a checkpoint after each write. */
  const CREATED: Logs := Logs(map[0 := []], [], 0, 1)
  const WRITTEN: Logs := Logs(map[0 := ONE], [], 0, 2)
  const TAKEN: Logs := Logs(map[0 := ONE], [Taken(ONE, 0)], 0, 2)
  const REWRITTEN: Logs := Logs(map[0 := BOTH], [Taken(ONE, 0)], 0, 3)
  const SAVED: Logs := Logs(map[0 := BOTH], [Taken(ONE, 0), Taken(BOTH, 0)], 0, 3)

  /** The next one reopens the first checkpoint, writes another block, and reopens the second beside it. */
  const CRASHED: Logs := Logs(map[], [Taken(ONE, 0), Taken(BOTH, 0)], 1, 1)
  const REOPENED: Logs := Logs(map[0 := ONE], [Taken(ONE, 0), Taken(BOTH, 0)], 1, 2)
  const DIVERGED: Logs := Logs(map[0 := OTHER], [Taken(ONE, 0), Taken(BOTH, 0)], 1, 3)
  const COLLIDED: Logs := Logs(map[0 := OTHER, 1 := BOTH], [Taken(ONE, 0), Taken(BOTH, 0)], 1, 3)

  predicate Leads(l: Logs, step: Step, t: Logs) {
    LogLegal(l, step) && LogStep(l, step) == t
  }

  lemma FirstProcessSteps()
    ensures Leads(NO_LOGS, DoCreate(0, 1), CREATED)
    ensures Leads(CREATED, DoWrite(0, 0, FIRST), WRITTEN)
    ensures Leads(WRITTEN, DoCheckpoint(0), TAKEN)
    ensures Leads(TAKEN, DoWrite(0, 0, SECOND), REWRITTEN)
    ensures Leads(REWRITTEN, DoCheckpoint(0), SAVED)
  {
    assert [] + [Record(0, 1, FIRST)] == ONE && ONE + [Record(0, 2, SECOND)] == BOTH;
  }

  lemma SecondProcessSteps(crash: Step)
    requires crash.DoCrash?
    ensures Leads(SAVED, crash, CRASHED)
    ensures Leads(CRASHED, DoRestore(0, 0), REOPENED)
    ensures Leads(REOPENED, DoWrite(0, 0, THIRD), DIVERGED)
    ensures Leads(DIVERGED, DoRestore(1, 1), COLLIDED)
  {
    assert ONE[..0] == [] && BOTH[..1] == ONE && ONE + [Record(0, 2, THIRD)] == OTHER;
    assert MaxId(ONE, 1) == 2 && MaxId(ONE, 3) == 3 && MaxId(BOTH, 3) == 3;
  }

  lemma Then(steps: seq<Step>, l: Logs, step: Step, t: Logs) returns (more: seq<Step>)
    requires Reaches(steps, l) && Leads(l, step, t) && !step.DoCrash?
    ensures Reaches(more, t)
  {
    hide Reaches;
    Advance(steps, l, step, t);
    more := steps + [step];
  }

  lemma FirstProcess() returns (steps: seq<Step>)
    ensures Reaches(steps, SAVED)
  {
    assert Reaches([], NO_LOGS) by { EmptyLogs(); }
    FirstProcessSteps();
    hide Reaches, Leads;
    steps := Then([], NO_LOGS, DoCreate(0, 1), CREATED);
    steps := Then(steps, CREATED, DoWrite(0, 0, FIRST), WRITTEN);
    steps := Then(steps, WRITTEN, DoCheckpoint(0), TAKEN);
    steps := Then(steps, TAKEN, DoWrite(0, 0, SECOND), REWRITTEN);
    steps := Then(steps, REWRITTEN, DoCheckpoint(0), SAVED);
  }

  lemma SecondProcess(before: seq<Step>) returns (steps: seq<Step>)
    requires Reaches(before, SAVED)
    ensures Reaches(steps, COLLIDED)
  {
    var w := Run(EMPTY, before);
    var crash := DoCrash(w.names, w.files, w.nextInode);
    SecondProcessSteps(crash);
    Advance(before, SAVED, crash, CRASHED);
    hide Reaches, Leads, Run, LegalRun;
    steps := before + [crash];
    steps := Then(steps, CRASHED, DoRestore(0, 0), REOPENED);
    steps := Then(steps, REOPENED, DoWrite(0, 0, THIRD), DIVERGED);
    steps := Then(steps, DIVERGED, DoRestore(1, 1), COLLIDED);
  }

  /**
   The next process reopens the first checkpoint, writes, and reopens the second
   beside it. The counter stood at the first checkpoint's ids, so both disks
   show a block of id 2, with different bytes.
   */
  lemma IdsCanCollide() returns (steps: seq<Step>)
    ensures LegalRun(EMPTY, steps)
    ensures var w := Run(EMPTY, steps);
      && 0 in w.disks && 1 in w.disks
      && G.Visible(w.disks[0].blocks) == map[0 := Block(2, THIRD)]
      && G.Visible(w.disks[1].blocks) == map[0 := Block(2, SECOND)]
  {
    var before := FirstProcess();
    steps := SecondProcess(before);
    ShowsLastRecord(steps, 0, Record(0, 1, FIRST), Record(0, 2, THIRD));
    ShowsLastRecord(steps, 1, Record(0, 1, FIRST), Record(0, 2, SECOND));
  }

  /** The last restore of that run is one that conflicts; another one breaks the rule on processes and does not. */
  lemma RuleIsNotNecessary()
    ensures !NoConflict(DIVERGED, 1)
    ensures !SafeRestore(DIVERGED, None, 0) && NoConflict(DIVERGED, 0)
  {
    assert 0 in DIVERGED.disks && OTHER[1].id == BOTH[1].id && OTHER[1].bytes[0] != BOTH[1].bytes[0];
    assert DIVERGED.disks[0] != [];
  }

  lemma ShowsLastRecord(steps: seq<Step>, d: DiskId, first: Record, last: Record)
    requires Reaches(steps, COLLIDED) && d in COLLIDED.disks && COLLIDED.disks[d] == [first, last]
    requires first.address == last.address == 0
    ensures LegalRun(EMPTY, steps)
    ensures var w := Run(EMPTY, steps);
      d in w.disks && G.Visible(w.disks[d].blocks) == map[0 := Block(last.id, last.bytes)]
  {
    var w := Run(EMPTY, steps);
    RunFromEmpty(steps);
    assert d in LogsOf(w).disks && LogOf(w, d) == [first, last];
    hide Inv, Run, LegalRun, LogOf, LogsOf, Reaches;
    LogReplays(w, d);
    assert [first, last][..1] == [first] && [first][..0] == [];
    assert Replay([first]) == map[0 := Block(first.id, first.bytes)];
  }
}
