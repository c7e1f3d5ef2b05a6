/** How many blocks the disks of a lineage hold and share, now and after a restart. */
module DiskAccounting {
  import opened Basics
  import opened DiskLog
  import opened DiskInvariant
  import opened DiskRecovery
  import opened DiskRuns
  import A = Accounting
  import S = DiskSharing
  import I = DiskIds
  import DS = DiskSteps
  import G = Generations

  function BlockIds(visible: map<nat, Block>): set<nat> {
    set a | a in visible :: visible[a].id
  }

  function DiskIds(disks: seq<Disk>): seq<set<nat>> {
    seq(|disks|, i requires 0 <= i < |disks| => BlockIds(G.Visible(disks[i].blocks)))
  }

  /** The blocks a disk shows, id and bytes. */
  ghost function BlocksOf(disk: Disk): set<Block> {
    set a | a in G.Visible(disk.blocks) :: G.Visible(disk.blocks)[a]
  }

  ghost function Blocks(disks: seq<Disk>): seq<set<Block>> {
    seq(|disks|, i requires 0 <= i < |disks| => BlocksOf(disks[i]))
  }

  /** Blocks with one id are one block. */
  ghost predicate IdsMeanBlocks(disks: seq<Disk>) {
    forall x, y :: x in A.AllOf(Blocks(disks)) && y in A.AllOf(Blocks(disks)) && x.id == y.id ==> x == y
  }

  /** Ids some disk shows and ids two disks show; where ids mean blocks, the blocks themselves. */
  method BlockAccounting(disks: seq<Disk>) returns (account: A.Account)
    ensures account == A.Account(|A.Resident(DiskIds(disks))|, |A.Shared(DiskIds(disks))|)
    ensures account.shared <= account.resident
    ensures IdsMeanBlocks(disks) ==> account == A.Account(|A.AllOf(Blocks(disks))|, |A.HeldTwice(Blocks(disks))|)
  {
    account := A.CountReferences(DiskIds(disks));
    A.SharedIsResident(DiskIds(disks));
    if IdsMeanBlocks(disks) {
      IdsCountBlocks(disks);
    }
  }

  lemma IdsCountBlocks(disks: seq<Disk>)
    requires IdsMeanBlocks(disks)
    ensures |A.Resident(DiskIds(disks))| == |A.AllOf(Blocks(disks))|
    ensures |A.Shared(DiskIds(disks))| == |A.HeldTwice(Blocks(disks))|
  {
    var parts: seq<set<Block>>, seen := Blocks(disks), DiskIds(disks);
    var name := map x: Block | x in A.AllOf(parts) :: x.id;
    forall i | 0 <= i < |parts| ensures A.NamedBy(parts[i], name, seen[i]) { DiskIsNamed(disks, name, i); }
    hide Blocks;
    A.NamesCountThings(parts, name, seen);
  }

  lemma DiskIsNamed(disks: seq<Disk>, name: map<Block, nat>, i: nat)
    requires i < |disks| && name == map x | x in A.AllOf(Blocks(disks)) :: x.id
    ensures A.NamedBy(Blocks(disks)[i], name, DiskIds(disks)[i])
  {
    var part, visible := Blocks(disks)[i], G.Visible(disks[i].blocks);
    forall x | x in part ensures x in name && name[x] in DiskIds(disks)[i] { }
    forall id | id in DiskIds(disks)[i] ensures exists x :: x in part && x in name && name[x] == id {
      var a :| a in visible && visible[a].id == id;
      assert visible[a] in part && name[visible[a]] == id;
    }
  }

  // ---------------------------------------------------------------------
  // The disks of a lineage
  // ---------------------------------------------------------------------

  /** The blocks of each open disk. */
  ghost function BlockMap(w: World): map<nat, set<Block>> {
    map d | d in w.disks :: BlocksOf(w.disks[d])
  }

  function DisksOf(w: World, order: seq<nat>): seq<Disk>
    requires forall i :: 0 <= i < |order| ==> order[i] in w.disks
  {
    seq(|order|, i requires 0 <= i < |order| => w.disks[order[i]])
  }

  /** After any safe run an id means one block, so the account over the open disks is one of blocks. */
  lemma SafeRunCountsBlocks(steps: seq<Step>, order: seq<nat>)
    requires LegalRun(EMPTY, steps) && I.SafeRun(I.NO_LOGS, None, steps) && A.Lists(BlockMap(Run(EMPTY, steps)), order)
    ensures var w := Run(EMPTY, steps);
      && (forall i :: 0 <= i < |order| ==> order[i] in w.disks)
      && IdsMeanBlocks(DisksOf(w, order))
      && A.AllOf(Blocks(DisksOf(w, order))) == A.HeldIn(BlockMap(w))
      && A.HeldTwice(Blocks(DisksOf(w, order))) == A.TwiceIn(BlockMap(w))
  {
    var w := Run(EMPTY, steps);
    assert forall i :: 0 <= i < |order| ==> order[i] in w.disks;
    var disks := DisksOf(w, order);
    assert Blocks(disks) == A.Listed(BlockMap(w), order);
    A.ListedHold(BlockMap(w), order);
    hide Run, LegalRun, I.SafeRun;
    forall x, y | x in A.AllOf(Blocks(disks)) && y in A.AllOf(Blocks(disks)) && x.id == y.id ensures x == y {
      var i :| 0 <= i < |disks| && x in Blocks(disks)[i];
      var j :| 0 <= j < |disks| && y in Blocks(disks)[j];
      var a :| a in G.Visible(disks[i].blocks) && G.Visible(disks[i].blocks)[a] == x;
      var b :| b in G.Visible(disks[j].blocks) && G.Visible(disks[j].blocks)[b] == y;
      S.SafeRunsShareBlocks(steps, order[i], a, order[j], b);
    }
  }

  /** A fork shows no block that was not shown, and shares everything the source shows besides what was shared. */
  lemma ForkConservesBlocks(w: World, d: nat, child: nat)
    requires Inv(w) && d in w.disks && child !in w.disks
    ensures var t := Fork(w, d, child);
      && A.HeldIn(BlockMap(t)) == A.HeldIn(BlockMap(w))
      && A.TwiceIn(BlockMap(t)) == A.TwiceIn(BlockMap(w)) + BlocksOf(w.disks[d])
  {
    hide Inv, Fork;
    var t := Fork(w, d, child);
    DS.ForkKeepsInv(w, d, child);
    assert BlockMap(t) == BlockMap(w)[child := BlockMap(w)[d]];
    A.CopyShares(BlockMap(w), d, child);
  }

  /** A write adds at most the one new block, which nobody else shows. */
  lemma WriteAddsOneBlock(w: World, d: nat, address: nat, bytes: seq<Byte>)
    requires Inv(w) && d in w.disks && w.disks[d].durable.handle in w.files
    ensures var t := WriteBlock(w, d, address, bytes);
      && d in t.disks && Block(w.nextBlock, bytes) in BlocksOf(t.disks[d])
      && BlocksOf(t.disks[d]) <= BlocksOf(w.disks[d]) + {Block(w.nextBlock, bytes)}
      && (forall e :: e in w.disks && e != d ==> e in t.disks && BlocksOf(t.disks[e]) == BlocksOf(w.disks[e]))
  {
    hide Inv, WriteBlock;
    DS.WriteKeepsInv(w, d, address, bytes);
    var t := WriteBlock(w, d, address, bytes);
    assert G.Visible(t.disks[d].blocks)[address] == Block(w.nextBlock, bytes);
  }

  // ---------------------------------------------------------------------
  // Restarting a lineage
  // ---------------------------------------------------------------------

  /** Reopen the checkpoints one after the other, as disks 0, 1, 2 and so on. */
  function RestoreAll(w: World, checkpoints: seq<nat>): World
    decreases |checkpoints|
  {
    if checkpoints == [] then w
    else
      var n := |checkpoints| - 1;
      var v := RestoreAll(w, checkpoints[..n]);
      if checkpoints[n] < |v.published| then Restore(v, n, checkpoints[n]) else v
  }

  predicate AllTaken(w: World, checkpoints: seq<nat>) {
    forall i :: 0 <= i < |checkpoints| ==> checkpoints[i] < |w.published|
  }

  /** Every reopened disk shows the blocks of its checkpoint, ids included, whichever process took it. */
  lemma {:induction false} RestoreAllShows(w: World, checkpoints: seq<nat>)
    requires Inv(w) && w.disks == map[] && AllTaken(w, checkpoints)
    ensures var t := RestoreAll(w, checkpoints);
      && Inv(t) && t.published == w.published
      && (forall d: nat :: d in t.disks <==> d < |checkpoints|)
      && (forall i: nat :: i < |checkpoints| ==> G.Visible(t.disks[i].blocks) == w.published[checkpoints[i]].visible)
    decreases |checkpoints|
  {
    hide Inv, Restore;
    if checkpoints != [] {
      var n := |checkpoints| - 1;
      RestoreAllShows(w, checkpoints[..n]);
      var v := RestoreAll(w, checkpoints[..n]);
      RestoreKeepsInv(v, n, checkpoints[n]);
    }
  }

  /** Counting blocks after a restart gives what counting them at the checkpoints would have given. */
  lemma AccountingSurvivesRestart(w: World, checkpoints: seq<nat>)
    requires Inv(w) && w.disks == map[] && AllTaken(w, checkpoints)
    ensures var t := RestoreAll(w, checkpoints);
      && (forall i: nat :: i < |checkpoints| ==> i in t.disks)
      && DiskIds(seq(|checkpoints|, i requires 0 <= i < |checkpoints| => t.disks[i]))
      == seq(|checkpoints|, i requires 0 <= i < |checkpoints| => BlockIds(w.published[checkpoints[i]].visible))
  {
    hide Inv;
    RestoreAllShows(w, checkpoints);
  }

  /** After the colliding run one shared block is counted where the disks show two different ones. */
  lemma SharingIsMiscounted() returns (steps: seq<Step>)
    ensures LegalRun(EMPTY, steps)
    ensures var w := Run(EMPTY, steps);
      && 0 in w.disks && 1 in w.disks
      && var ids := DiskIds([w.disks[0], w.disks[1]]);
         && |A.Resident(ids)| == 1 && |A.Shared(ids)| == 1
         && 0 in G.Visible(w.disks[0].blocks) && 0 in G.Visible(w.disks[1].blocks)
         && G.Visible(w.disks[0].blocks)[0] != G.Visible(w.disks[1].blocks)[0]
  {
    steps := S.IdsCanCollide();
    var w := Run(EMPTY, steps);
    var ids := DiskIds([w.disks[0], w.disks[1]]);
    hide Run, LegalRun;
    assert ids[0] == {2} && ids[1] == {2};
    assert A.Resident(ids) == {2};
    assert A.SeenTwice(ids, 2) by { assert 2 in ids[0] && 2 in ids[1]; }
    assert A.Shared(ids) == {2};
  }
}
