/** How each request to the cache turns out, and how often a branch has each file open. */
module CacheOutcomes {
  import opened Basics
  import opened Identities
  import opened PageCache
  import opened CacheInvariant
  import opened CacheSteps
  import opened CacheRuns
  import opened DaxCache

  // ---------------------------------------------------------------------
  // Branches
  // ---------------------------------------------------------------------

  /** The branch holds a live mapping. */
  ghost predicate HoldsMapping(s: State, b: BranchId) {
    exists m {:trigger m in s.mappings} :: m in s.mappings && m.branch == b
  }

  /** The active counts of a branch are empty exactly while it holds no mapping. */
  lemma ActiveMeansHolding(s: State, b: BranchId)
    requires Inv(s) && b in s.branches
    ensures s.branches[b].active == map[] <==> !HoldsMapping(s, b)
  {
    var active := s.branches[b].active;
    if m :| m in s.mappings && m.branch == b {
      UnmapSucceeds(s, b, m);
    }
    forall page | page in active ensures HoldsMapping(s, b) {
      assert ActiveOk(s, b, page);
      var m :| m in MappingsOf(s, b, page);
      assert m in s.mappings;
    }
  }

  /** A branch forks exactly when it exists, holds no mapping, and an id is left; without one it still gives up its exclusive pages. */
  lemma ForkOutcome(s: State, source: BranchId)
    requires Inv(s)
    ensures Fork(s, source).1 ==
      if source !in s.branches then Err(BranchNotFound(source))
      else if HoldsMapping(s, source) then Err(ActiveMappings)
      else if s.nextBranch == U64_MAX then Err(InvalidMapping)
      else Ok(s.nextBranch)
    ensures var (t, r) := Fork(s, source);
      if source !in s.branches || HoldsMapping(s, source) then t == s
      else forall key :: key !in t.branches[source].exclusive
  {
    if source in s.branches {
      ActiveMeansHolding(s, source);
    }
  }

  /** A branch can be removed exactly when it exists and holds no mapping; otherwise nothing changes. */
  lemma RemoveOutcome(s: State, b: BranchId)
    requires Inv(s)
    ensures RemoveBranch(s, b).1 ==
      if b !in s.branches then Err(BranchNotFound(b))
      else if HoldsMapping(s, b) then Err(ActiveMappings)
      else Ok(())
    ensures RemoveBranch(s, b).1.Err? ==> RemoveBranch(s, b).0 == s
  {
    if b in s.branches {
      ActiveMeansHolding(s, b);
    }
  }

  /** Every way a request to map a page can turn out. */
  lemma MapOutcome(s: State, b: BranchId, node: NodeId, offset: nat, flags: MapFlags)
    requires Inv(s)
    ensures var key := PageKey(node, offset / PAGE_SIZE);
      var r := MapPage(s, b, node, offset, flags).1;
      if !Aligned(offset) || flags == MapFlags(false, false) then r == Err(InvalidMapping)
      else if b !in s.branches then r == Err(BranchNotFound(b))
      else if OpenCount(s.branches[b], node) == 0 then r == Err(NodeNotOpen(node))
      else if node !in s.branches[b].store.files then r == Err(Io)
      else if flags.write && key !in s.branches[b].exclusive && Mapped(s, b, key) then r == Err(PageBusy)
      else r.Ok? && r.value.branch == b && r.value.key == key && r.value.flags == flags
  {
    var key := PageKey(node, offset / PAGE_SIZE);
    if b in s.branches {
      FileHasName(s, b, key);
      if Ident(s, b, key).Some? {
        LoadKeepsInv(s, b, key);
        var t := LoadKnown(s, b, key);
        assert Resident(LoadPage(s, b, key), b, key) == Resident(t, b, key);
        ActiveIsMapped(t, b, key);
        assert Mapped(t, b, key) <==> Mapped(s, b, key);
      }
    }
  }

  // ---------------------------------------------------------------------
  // Opening and closing
  // ---------------------------------------------------------------------

  /** No other file of any branch is opened or closed. */
  ghost predicate OtherCounts(s: State, t: State, b: BranchId, node: NodeId) {
    && t.branches.Keys == s.branches.Keys
    && forall c, n :: c in s.branches && (c != b || n != node) ==> OpenCount(t.branches[c], n) == OpenCount(s.branches[c], n)
  }

  /** Opening counts one more, unless it is the first time and the store refuses. */
  lemma OpenOutcome(s: State, b: BranchId, node: NodeId, ok: bool)
    ensures var (t, r) := Open(s, b, node, ok);
      && OtherCounts(s, t, b, node)
      && if b !in s.branches then r == Err(BranchNotFound(b))
         else
           var count := OpenCount(s.branches[b], node);
           && node in t.branches[b].open
           && if count == 0 && !ok then r == Err(Io) && OpenCount(t.branches[b], node) == 0
              else r == Ok(()) && OpenCount(t.branches[b], node) == count + 1
  {
  }

  /** Closing counts one less, also when the store's hook fails on the last close. */
  lemma CloseOutcome(s: State, b: BranchId, node: NodeId, ok: bool)
    ensures var (t, r) := Close(s, b, node, ok);
      && OtherCounts(s, t, b, node)
      && if b !in s.branches then r == Err(BranchNotFound(b))
         else
           var count := OpenCount(s.branches[b], node);
           && t.branches[b].open.Keys == s.branches[b].open.Keys
           && if count == 0 then
                && r == Err(if node in s.branches[b].open then InvalidMapping else NodeNotOpen(node))
                && OpenCount(t.branches[b], node) == 0
              else
                && r == (if count == 1 && !ok then Err(Io) else Ok(()))
                && OpenCount(t.branches[b], node) == count - 1
  {
  }

  // ---------------------------------------------------------------------
  // Open counts over runs
  // ---------------------------------------------------------------------

  type Counts = map<BranchId, map<NodeId, nat>>

  function CountIn(c: Counts, b: BranchId, node: NodeId): nat {
    if b in c && node in c[b] then c[b][node] else 0
  }

  /** One file of one branch opened or closed. */
  function Counted(c: Counts, b: BranchId, node: NodeId, count: nat): Counts
    requires b in c
  {
    var nodes: map<NodeId, nat> := c[b][node := count];
    c[b := nodes]
  }

  /**
   The opens less the closes. Whether an open or a close counts is decided by
   the count so far and by what the store's hook said; a forked child starts
   with nothing open.
   */
  function Tally(c: Counts, s: State, step: Step): Counts {
    match step
    case DoOpen(b, node, ok) =>
      var count := CountIn(c, b, node);
      if b in c && (count > 0 || ok) then Counted(c, b, node, count + 1) else c
    case DoClose(b, node, _) =>
      var count := CountIn(c, b, node);
      if b in c && count > 0 then Counted(c, b, node, count - 1) else c
    case DoFork(source) =>
      (match Fork(s, source).1 case Ok(child) => c[child := map[]] case Err(_) => c)
    case DoRemove(b) => if RemoveBranch(s, b).1.Ok? then c - {b} else c
    case _ => c
  }

  function TallyAll(c: Counts, s: State, steps: seq<Step>): Counts
    decreases |steps|
  {
    if steps == [] then c else TallyAll(Tally(c, s, steps[0]), Next(s, steps[0]), steps[1..])
  }

  predicate CountIs(c: Counts, s: State, b: BranchId, node: NodeId) {
    b in s.branches ==> OpenCount(s.branches[b], node) == CountIn(c, b, node)
  }

  ghost predicate Tallies(c: Counts, s: State) {
    c.Keys == s.branches.Keys && forall b, node {:trigger CountIs(c, s, b, node)} :: CountIs(c, s, b, node)
  }

  /** Open counts of the branches, whatever else differs. */
  ghost predicate SameOpen(s: State, t: State) {
    t.branches.Keys == s.branches.Keys && forall c {:trigger t.branches[c]} :: c in s.branches ==> t.branches[c].open == s.branches[c].open
  }

  lemma {:induction false} SyncKeepsOpen(s: State, b: BranchId, keys: seq<PageKey>)
    requires b in s.branches
    ensures SameOpen(s, SyncPages(s, b, keys).0)
    decreases |keys|
  {
    if keys != [] {
      var (t, r) := SyncPage(s, b, keys[0]);
      assert SameOpen(s, t);
      if r.Ok? {
        SyncKeepsOpen(t, b, keys[1..]);
      }
    }
  }

  lemma MapKeepsOpen(s: State, b: BranchId, node: NodeId, offset: nat, flags: MapFlags)
    requires Inv(s)
    ensures SameOpen(s, MapPage(s, b, node, offset, flags).0)
  {
    hide MapPage, Inv, Prepared;
    if MapPage(s, b, node, offset, flags).1.Ok? {
      var key := PageKey(node, offset / PAGE_SIZE);
      MapPageIsGrant(s, b, node, offset, flags);
      var p := Prepared(s, b, key, flags);
      PreparedKeepsOpen(s, b, key, flags);
      assert SameOpen(p, Grant(p, b, key, flags).0);
    } else {
      FailedMapKeepsState(s, b, node, offset, flags);
    }
  }

  lemma PreparedKeepsOpen(s: State, b: BranchId, key: PageKey, flags: MapFlags)
    requires b in s.branches && Ident(s, b, key).Some?
    ensures SameOpen(s, Prepared(s, b, key, flags))
  {
    var t := LoadKnown(s, b, key);
    assert t.branches == s.branches && Resident(t, b, key).Some?;
    hide LoadKnown;
    CowKeepsOpen(t, b, key);
    hide CopyOnWrite;
  }

  lemma CowKeepsOpen(s: State, b: BranchId, key: PageKey)
    requires b in s.branches && Resident(s, b, key).Some?
    ensures SameOpen(s, CopyOnWrite(s, b, key))
  {
    var t := CopyOnWrite(s, b, key);
    assert t == s.(branches := t.branches, pages := t.pages, heap := t.heap, nextPage := t.nextPage, nextVersion := t.nextVersion);
  }

  lemma OtherStepsKeepOpen(s: State, step: Step)
    requires Inv(s) && Legal(s, step) && !step.DoOpen? && !step.DoClose? && !step.DoFork? && !step.DoRemove?
    ensures SameOpen(s, Next(s, step))
  {
    hide Inv;
    match step
    case DoMap(b, node, offset, flags) => MapKeepsOpen(s, b, node, offset, flags);
    case DoSync(b, keys) => SyncKeepsOpen(s, b, keys);
    case _ => hide MapPage, SyncPages;
  }

  lemma StepTallies(c: Counts, s: State, step: Step)
    requires Inv(s) && Legal(s, step) && Tallies(c, s)
    ensures Tallies(Tally(c, s, step), Next(s, step))
  {
    if step.DoFork? {
      ForkTallies(c, s, step.source);
    } else if step.DoRemove? {
      RemoveTallies(c, s, step.branch);
    } else if step.DoOpen? || step.DoClose? {
      OpenTallies(c, s, step);
    } else {
      OtherStepsKeepOpen(s, step);
      hide Inv, Next;
      forall b, n ensures CountIs(Tally(c, s, step), Next(s, step), b, n) { assert CountIs(c, s, b, n); }
    }
  }

  lemma OpenTallies(c: Counts, s: State, step: Step)
    requires Tallies(c, s) && (step.DoOpen? || step.DoClose?)
    ensures Tallies(Tally(c, s, step), Next(s, step))
  {
    hide Open, Close;
    var d, t := Tally(c, s, step), Next(s, step);
    if step.DoOpen? {
      OpenOutcome(s, step.branch, step.node, step.ok);
    } else {
      CloseOutcome(s, step.branch, step.node, step.ok);
    }
    assert CountIs(c, s, step.branch, step.node);
    forall b, n ensures CountIs(d, t, b, n) { assert CountIs(c, s, b, n); }
  }

  lemma RemoveTallies(c: Counts, s: State, b: BranchId)
    requires Tallies(c, s)
    ensures Tallies(Tally(c, s, DoRemove(b)), RemoveBranch(s, b).0)
  {
    var d, t := Tally(c, s, DoRemove(b)), RemoveBranch(s, b).0;
    forall e, n ensures CountIs(d, t, e, n) { assert CountIs(c, s, e, n); }
  }

  lemma ForkTallies(c: Counts, s: State, source: BranchId)
    requires Inv(s) && Tallies(c, s)
    ensures Tallies(Tally(c, s, DoFork(source)), Fork(s, source).0)
  {
    var d, t := Tally(c, s, DoFork(source)), Fork(s, source).0;
    assert BranchOk(s, s.nextBranch);
    hide Inv;
    forall b, n ensures CountIs(d, t, b, n) { assert CountIs(c, s, b, n); }
  }

  /** After any run a branch has a file open exactly as often as it was opened and not closed. */
  lemma {:induction false} RunTallies(c: Counts, s: State, steps: seq<Step>)
    requires Inv(s) && LegalRun(s, steps) && Tallies(c, s)
    ensures Tallies(TallyAll(c, s, steps), Run(s, steps))
    decreases |steps|
  {
    hide Inv, Legal, Next, Tally, Tallies;
    if steps != [] {
      StepRefines(s, steps[0]);
      StepTallies(c, s, steps[0]);
      RunTallies(Tally(c, s, steps[0]), Next(s, steps[0]), steps[1..]);
    }
  }

  /** The branches of a restored cache are numbered from one, and the first fork of any of them gets the next number. */
  lemma FirstForkOf(id: nat, stores: seq<Store>, nextObject: nat, nextVersion: nat, source: BranchId)
    requires Coherent(stores, nextObject, nextVersion) && 1 <= source <= |stores| && |stores| + 1 < U64_MAX
    ensures var s := Restored(id, stores, nextObject, nextVersion);
      (forall b :: b in s.branches <==> 1 <= b <= |stores|) && Fork(s, source).1 == Ok(|stores| + 1)
  {
    RestoredInv(id, stores, nextObject, nextVersion);
    ForkOutcome(Restored(id, stores, nextObject, nextVersion), source);
  }

  /** A restored cache has nothing open. */
  lemma NothingOpenAtFirst(id: nat, stores: seq<Store>, nextObject: nat, nextVersion: nat)
    ensures var s := Restored(id, stores, nextObject, nextVersion);
      Tallies(map b | b in s.branches :: map[], s)
  {
    var s := Restored(id, stores, nextObject, nextVersion);
    var c: Counts := map b | b in s.branches :: map[];
    forall b, n ensures CountIs(c, s, b, n) { }
  }
}
