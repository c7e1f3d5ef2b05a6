/** Which checkpoints load, alone and together, after any run. */
module DiskReload {
  import opened Basics
  import opened DiskLog
  import opened LayerCodec
  import opened DiskInvariant
  import opened DiskRestore
  import R = DiskRuns
  import I = DiskIds
  import S = DiskSharing

  /** The files of a checkpoint. */
  function FilesOf(w: World, p: nat): seq<Name>
    requires p < |w.published|
  {
    StateNames(w.published[p].layers, w.published[p].overlay)
  }

  /** With its files intact, a checkpoint loads exactly when its records contradict no known block and not each other. */
  lemma LoadsWhen(w: World, p: nat, objects: map<nat, Block>)
    requires Inv(w) && p < |w.published| && WellKeyed(objects)
    ensures LoadFailure(w, FilesOf(w, p), objects) == None <==> Consistent(objects, StateLog(w, p))
  {
    var state, names := w.published[p], FilesOf(w, p);
    assert StateOk(w, p);
    forall i | 0 <= i < |names| ensures FileOk(w, names[i]) {
      assert names[i].Layer? ==> names[i].number in state.layers;
    }
    hide Inv, FileOk, StateOk;
    NamedState(w, state.layers, state.overlay);
    LoadSucceedsWhen(w, names, objects);
  }

  // ---------------------------------------------------------------------
  // One checkpoint
  // ---------------------------------------------------------------------

  /** Every known block is one a checkpoint of `from` recorded. */
  ghost predicate KnownFrom(w: World, from: set<nat>, objects: map<nat, Block>) {
    forall id {:trigger objects[id]} :: id in objects ==> exists q: nat, i: nat ::
      q in from && q < |w.published| && Recorded(w, q, i, objects[id])
  }

  predicate Recorded(w: World, q: nat, i: nat, block: Block)
    requires q < |w.published|
  {
    i < |StateLog(w, q)| && block == Block(StateLog(w, q)[i].id, StateLog(w, q)[i].bytes)
  }

  /** A checkpoint that agrees with itself and with those loaded before it meets no missing, torn or conflicting file. */
  lemma CheckpointsLoad(w: World, p: nat, from: set<nat>, objects: map<nat, Block>)
    requires Inv(w) && p < |w.published| && I.Agree(StateLog(w, p), StateLog(w, p))
    requires WellKeyed(objects) && KnownFrom(w, from, objects)
    requires forall q :: q in from && q < |w.published| ==> I.Agree(StateLog(w, p), StateLog(w, q))
    ensures LoadFailure(w, FilesOf(w, p), objects) == None
  {
    hide Inv, StateLog;
    var log := StateLog(w, p);
    forall i | 0 <= i < |log| && log[i].id in objects ensures objects[log[i].id].bytes == log[i].bytes {
      var q: nat, j: nat :| q in from && q < |w.published| && Recorded(w, q, j, objects[log[i].id]);
    }
    LoadsWhen(w, p, objects);
  }

  /** The blocks a loaded checkpoint adds are recorded ones. */
  lemma {:induction false} LoadedStayKnown(w: World, p: nat, from: set<nat>, objects: map<nat, Block>, k: nat)
    requires p < |w.published| && k <= |StateLog(w, p)| && KnownFrom(w, from, objects)
    ensures KnownFrom(w, from + {p}, Interned(objects, StateLog(w, p)[..k]))
    decreases k
  {
    hide StateLog;
    if k > 0 {
      var upTo := StateLog(w, p)[..k];
      LoadedStayKnown(w, p, from, objects, k - 1);
      assert upTo[..k - 1] == StateLog(w, p)[..k - 1];
      assert Recorded(w, p, k - 1, Block(upTo[k - 1].id, upTo[k - 1].bytes));
    }
  }

  /** After any run every checkpoint loads on its own, whichever process took it and whatever was written since. */
  lemma AnyCheckpointLoads(steps: seq<R.Step>, p: nat)
    requires R.LegalRun(R.EMPTY, steps) && p < |R.Run(R.EMPTY, steps).published|
    ensures LoadFailure(R.Run(R.EMPTY, steps), FilesOf(R.Run(R.EMPTY, steps), p), map[]) == None
  {
    var w := R.Run(R.EMPTY, steps);
    S.RunFromEmpty(steps);
    assert I.TakenSound(I.LogsOf(w), p);
    CheckpointsLoad(w, p, {}, map[]);
  }

  // ---------------------------------------------------------------------
  // Several logs at once
  // ---------------------------------------------------------------------

  function Joined(logs: seq<seq<Record>>): seq<Record>
    decreases |logs|
  {
    if logs == [] then [] else Joined(logs[..|logs| - 1]) + logs[|logs| - 1]
  }

  predicate PairwiseAgree(logs: seq<seq<Record>>) {
    forall i, j :: 0 <= i < |logs| && 0 <= j < |logs| ==> I.Agree(logs[i], logs[j])
  }

  lemma AgreeConcat(a: seq<Record>, b: seq<Record>, c: seq<Record>)
    ensures I.Agree(a + b, c) <==> I.Agree(a, c) && I.Agree(b, c)
    ensures I.Agree(c, a) <==> I.Agree(a, c)
  {
    if I.Agree(a + b, c) {
      forall i, j | 0 <= i < |a| && 0 <= j < |c| && a[i].id == c[j].id ensures a[i].bytes == c[j].bytes {
        assert (a + b)[i] == a[i];
      }
      forall i, j | 0 <= i < |b| && 0 <= j < |c| && b[i].id == c[j].id ensures b[i].bytes == c[j].bytes {
        assert (a + b)[|a| + i] == b[i];
      }
    }
  }

  lemma {:induction false} JoinedAgrees(logs: seq<seq<Record>>, c: seq<Record>)
    ensures I.Agree(Joined(logs), c) <==> forall i :: 0 <= i < |logs| ==> I.Agree(logs[i], c)
    decreases |logs|
  {
    hide I.Agree;
    if logs == [] {
      assert I.Agree([], c) by { NothingAgrees(c); }
    } else {
      var n := |logs| - 1;
      JoinedAgrees(logs[..n], c);
      AgreeConcat(Joined(logs[..n]), logs[n], c);
      assert forall i :: 0 <= i < n ==> logs[..n][i] == logs[i];
    }
  }

  lemma NothingAgrees(c: seq<Record>)
    ensures I.Agree([], c)
  {
  }

  /** Logs loaded one after the other do not contradict each other exactly when they agree pairwise. */
  lemma JoinedConsistent(logs: seq<seq<Record>>)
    ensures Consistent(map[], Joined(logs)) <==> PairwiseAgree(logs)
  {
    var all := Joined(logs);
    SelfConsistent(all);
    JoinedAgrees(logs, all);
    hide I.Agree;
    forall i | 0 <= i < |logs| ensures I.Agree(logs[i], all) <==> forall j :: 0 <= j < |logs| ==> I.Agree(logs[j], logs[i]) {
      AgreeConcat(logs[i], [], all);
      AgreeConcat(all, [], logs[i]);
      JoinedAgrees(logs, logs[i]);
    }
  }

  // ---------------------------------------------------------------------
  // A batch of checkpoints
  // ---------------------------------------------------------------------

  predicate Batch(w: World, order: seq<nat>) {
    forall i :: 0 <= i < |order| ==> order[i] < |w.published|
  }

  function BatchLogs(w: World, order: seq<nat>): seq<seq<Record>>
    requires Batch(w, order)
  {
    seq(|order|, i requires 0 <= i < |order| => StateLog(w, order[i]))
  }

  /** Each checkpoint of the batch loads, with the blocks of those before it known. */
  predicate BatchLoads(w: World, order: seq<nat>)
    requires Batch(w, order)
    decreases |order|
  {
    order == [] ||
    var n := |order| - 1;
    && BatchLoads(w, order[..n])
    && LoadFailure(w, FilesOf(w, order[n]), Interned(map[], Joined(BatchLogs(w, order[..n])))) == None
  }

  lemma {:induction false} BatchConsistent(w: World, order: seq<nat>)
    requires Inv(w) && Batch(w, order)
    ensures BatchLoads(w, order) <==> Consistent(map[], Joined(BatchLogs(w, order)))
    decreases |order|
  {
    hide Inv, Interned, Consistent, StateLog, LoadFailure;
    if order == [] {
      LoadNothing(map[], 0);
    } else {
      var n := |order| - 1;
      var before, last := Joined(BatchLogs(w, order[..n])), StateLog(w, order[n]);
      BatchConsistent(w, order[..n]);
      assert BatchLogs(w, order)[..n] == BatchLogs(w, order[..n]);
      assert Joined(BatchLogs(w, order)) == before + last;
      InternedIsWellKeyed(map[], before);
      LoadsWhen(w, order[n], Interned(map[], before));
      ConsistentPrefix(map[], before + last, |before|);
      assert (before + last)[..|before|] == before;
      if Consistent(map[], before) {
        ConsistentConcat(map[], before, last);
      }
    }
  }

  /** Checkpoints load together exactly when their logs agree pairwise. */
  lemma BatchLoadsWhen(w: World, order: seq<nat>)
    requires Inv(w) && Batch(w, order)
    ensures BatchLoads(w, order) <==> PairwiseAgree(BatchLogs(w, order))
  {
    BatchConsistent(w, order);
    JoinedConsistent(BatchLogs(w, order));
  }

  /** After any run whose restores are safe, the checkpoints of one process load together. */
  lemma SameProcessLoads(steps: seq<R.Step>, order: seq<nat>, epoch: nat)
    requires R.LegalRun(R.EMPTY, steps) && I.SafeRun(I.NO_LOGS, None, steps)
    requires Batch(R.Run(R.EMPTY, steps), order)
    requires forall i :: 0 <= i < |order| ==> R.Run(R.EMPTY, steps).published[order[i]].epoch == epoch
    ensures BatchLoads(R.Run(R.EMPTY, steps), order)
  {
    var w := R.Run(R.EMPTY, steps);
    S.RunFromEmpty(steps);
    I.StartIsSound();
    I.SafeRunAgrees(I.NO_LOGS, None, steps);
    var l := I.LogsOf(w);
    var o :| I.FamilyInv(l, o);
    forall i, j | 0 <= i < |order| && 0 <= j < |order|
      ensures I.Agree(BatchLogs(w, order)[i], BatchLogs(w, order)[j])
    {
      assert I.TakenFit(l, o, order[i], order[j]);
    }
    hide Inv, BatchLoads;
    BatchLoadsWhen(w, order);
  }

  // ---------------------------------------------------------------------
  // Beside open disks
  // ---------------------------------------------------------------------

  predicate Open(w: World, ds: seq<nat>) {
    (forall i :: 0 <= i < |ds| ==> ds[i] in w.disks) && forall d :: d in w.disks ==> d in ds
  }

  function OpenLogs(w: World, ds: seq<nat>): seq<seq<Record>>
    requires Open(w, ds)
  {
    seq(|ds|, i requires 0 <= i < |ds| => LogOf(w, ds[i]))
  }

  /**
   A restore keeps ids apart exactly when the checkpoint would also load with
   the blocks of all open disks known, which the code does not ask.
   */
  lemma ConflictIsALoadError(w: World, ds: seq<nat>, p: nat)
    requires Inv(w) && I.Sound(I.LogsOf(w)) && I.AllAgree(I.LogsOf(w)) && Open(w, ds) && p < |w.published|
    ensures I.NoConflict(I.LogsOf(w), p) <==>
      LoadFailure(w, FilesOf(w, p), Interned(map[], Joined(OpenLogs(w, ds)))) == None
  {
    OpenFacts(w, ds, p);
    hide Inv, I.Sound, I.AllAgree, I.NoConflict, Interned, LogOf, StateLog, I.Agree, I.LogsOf, Open, Consistent, Joined;
    var logs, last := OpenLogs(w, ds), StateLog(w, p);
    var known := Joined(logs);
    JoinedConsistent(logs);
    JoinedAgrees(logs, last);
    assert WellKeyed(map[]);
    InternedIsWellKeyed(map[], known);
    LoadsWhen(w, p, Interned(map[], known));
    ConsistentConcat(map[], known, last);
    TwoConsistent(known, last);
  }

  lemma OpenFacts(w: World, ds: seq<nat>, p: nat)
    requires I.Sound(I.LogsOf(w)) && I.AllAgree(I.LogsOf(w)) && Open(w, ds) && p < |w.published|
    ensures PairwiseAgree(OpenLogs(w, ds)) && I.Agree(StateLog(w, p), StateLog(w, p))
    ensures I.NoConflict(I.LogsOf(w), p) <==> forall i :: 0 <= i < |ds| ==> I.Agree(OpenLogs(w, ds)[i], StateLog(w, p))
  {
    hide LogOf, StateLog, I.Agree;
    var l, logs := I.LogsOf(w), OpenLogs(w, ds);
    forall i, j | 0 <= i < |logs| && 0 <= j < |logs| ensures I.Agree(logs[i], logs[j]) {
      assert I.PairAgrees(l, ds[i], ds[j]);
    }
    assert I.TakenSound(l, p);
    if forall i :: 0 <= i < |ds| ==> I.Agree(logs[i], StateLog(w, p)) {
      forall d | d in l.disks ensures I.Agree(l.disks[d], l.taken[p].log) {
        var i :| 0 <= i < |ds| && ds[i] == d;
        assert I.Agree(logs[i], StateLog(w, p));
      }
    }
    if I.NoConflict(l, p) {
      forall i | 0 <= i < |ds| ensures I.Agree(logs[i], StateLog(w, p)) { assert ds[i] in l.disks; }
    }
  }

  lemma TwoConsistent(a: seq<Record>, b: seq<Record>)
    requires Consistent(map[], a) && I.Agree(b, b)
    ensures Consistent(map[], a + b) <==> I.Agree(a, b)
  {
    SelfConsistent(a);
    SelfConsistent(a + b);
    hide I.Agree, Consistent;
    AgreeConcat(a, b, a + b);
    AgreeConcat(a + b, [], a);
    AgreeConcat(a + b, [], b);
    AgreeConcat(a, b, a);
    AgreeConcat(a, b, b);
    AgreeConcat(b, [], a);
  }

  lemma SelfConsistent(log: seq<Record>)
    ensures Consistent(map[], log) <==> I.Agree(log, log)
  {
  }

  // ---------------------------------------------------------------------
  // Checkpoints that do not load together
  // ---------------------------------------------------------------------

  const FIRST_SAVED: I.Logs := S.COLLIDED.(taken := S.COLLIDED.taken + [I.Taken(S.OTHER, 1)])
  const BOTH_SAVED: I.Logs := S.COLLIDED.(taken := S.COLLIDED.taken + [I.Taken(S.OTHER, 1), I.Taken(S.BOTH, 1)])

  lemma SavingSteps()
    ensures S.Leads(S.COLLIDED, R.DoCheckpoint(0), FIRST_SAVED) && S.Leads(FIRST_SAVED, R.DoCheckpoint(1), BOTH_SAVED)
    ensures BOTH_SAVED.taken[2] == I.Taken(S.OTHER, 1) && BOTH_SAVED.taken[3] == I.Taken(S.BOTH, 1)
    ensures !I.Agree(S.OTHER, S.BOTH)
  {
    assert S.OTHER[1].id == S.BOTH[1].id && S.OTHER[1].bytes[0] != S.BOTH[1].bytes[0];
  }

  /** After the colliding run, checkpoints that one process takes of its two disks do not load together. */
  lemma OwnCheckpointsCanConflict() returns (steps: seq<R.Step>)
    ensures R.LegalRun(R.EMPTY, steps)
    ensures var w := R.Run(R.EMPTY, steps);
      && |w.published| == 4 && Batch(w, [2, 3]) && w.published[2].epoch == w.published[3].epoch == w.epoch
      && !BatchLoads(w, [2, 3])
  {
    SavingSteps();
    var before := S.FirstProcess();
    steps := S.SecondProcess(before);
    hide S.Reaches, S.Leads, I.Agree, R.Run, R.LegalRun;
    steps := S.Then(steps, S.COLLIDED, R.DoCheckpoint(0), FIRST_SAVED);
    steps := S.Then(steps, FIRST_SAVED, R.DoCheckpoint(1), BOTH_SAVED);
    BothSaved(steps);
  }

  lemma BothSaved(steps: seq<R.Step>)
    requires S.Reaches(steps, BOTH_SAVED)
    ensures R.LegalRun(R.EMPTY, steps)
    ensures var w := R.Run(R.EMPTY, steps);
      && |w.published| == 4 && Batch(w, [2, 3]) && w.published[2].epoch == w.published[3].epoch == w.epoch
      && !BatchLoads(w, [2, 3])
  {
    var w := R.Run(R.EMPTY, steps);
    S.RunFromEmpty(steps);
    SavingSteps();
    hide Inv, R.Run, R.LegalRun, I.Agree, StateLog, LogOf, BatchLoads;
    var l := I.LogsOf(w);
    assert |l.taken| == |w.published| == 4;
    assert l.taken[2].log == StateLog(w, 2) && l.taken[3].log == StateLog(w, 3);
    assert BatchLogs(w, [2, 3])[0] == S.OTHER && BatchLogs(w, [2, 3])[1] == S.BOTH;
    BatchLoadsWhen(w, [2, 3]);
  }
}
