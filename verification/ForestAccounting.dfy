/**
 How many physical pages the VMs of a forest hold, and how sharing moves them:
 a fork allocates nothing and shares everything its source sees; a write
 allocates one page for each page it reaches that is not already private.
 */
module ForestAccounting {
  import opened Basics
  import opened PageBranches
  import G = Generations
  import A = Accounting

  /** One address space of every VM. */
  type Space = map<VmId, PageBranch>

  function Ids(pages: set<Page>): set<nat> {
    set p | p in pages :: p.id
  }

  /** The ids a branch keeps alive: its private pages and all of its generations. */
  function RetainedIds(b: PageBranch): set<nat> {
    Ids(G.Retained(b))
  }

  function BaseIds(b: PageBranch): set<nat> {
    Ids(G.RetainedIn(b.base))
  }

  function VisibleIds(b: PageBranch): set<nat> {
    Ids(Values(G.Visible(b)))
  }

  ghost function Resident(space: Space): set<nat> {
    set vm, id | vm in space && id in RetainedIds(space[vm]) :: id
  }

  ghost predicate SharedBy(space: Space, id: nat, a: VmId, b: VmId) {
    a != b && a in space && b in space && id in VisibleIds(space[a]) && id in VisibleIds(space[b])
  }

  ghost predicate IsShared(space: Space, id: nat) {
    exists a, b :: SharedBy(space, id, a, b)
  }

  // ---------------------------------------------------------------------
  // What keeps the counts honest
  // ---------------------------------------------------------------------

  /** A private page is held nowhere else, and ids are below the next one. */
  predicate PageOk(space: Space, nextPage: nat, vm: VmId, key: FilePage) {
    vm in space && key in space[vm].changes ==>
      space[vm].changes[key].id < nextPage && space[vm].changes[key].id !in BaseIds(space[vm])
  }

  predicate PagesApart(space: Space, vm: VmId, key: FilePage, other: FilePage) {
    vm in space && key in space[vm].changes && other in space[vm].changes && key != other ==>
      space[vm].changes[key].id != space[vm].changes[other].id
  }

  predicate VmsApart(space: Space, vm: VmId, key: FilePage, other: VmId) {
    vm in space && key in space[vm].changes && other in space && other != vm ==>
      space[vm].changes[key].id !in RetainedIds(space[other])
  }

  predicate IdsBelow(space: Space, nextPage: nat, vm: VmId) {
    vm in space ==> forall id :: id in RetainedIds(space[vm]) ==> id < nextPage
  }

  ghost predicate Inv(space: Space, nextPage: nat) {
    && (forall vm, key {:trigger PageOk(space, nextPage, vm, key)} :: PageOk(space, nextPage, vm, key))
    && (forall vm, key, other {:trigger PagesApart(space, vm, key, other)} :: PagesApart(space, vm, key, other))
    && (forall vm, key, other {:trigger VmsApart(space, vm, key, other)} :: VmsApart(space, vm, key, other))
    && (forall vm {:trigger IdsBelow(space, nextPage, vm)} :: IdsBelow(space, nextPage, vm))
  }

  lemma RetainedSplit(b: PageBranch)
    ensures RetainedIds(b) == BaseIds(b) + Ids(Values(b.changes))
    ensures forall key {:trigger b.changes[key]} :: key in b.changes ==> b.changes[key].id in RetainedIds(b)
  {
    forall key | key in b.changes ensures b.changes[key].id in RetainedIds(b) {
      assert b.changes[key] in Values(b.changes);
    }
  }

  lemma SealRetains(b: PageBranch)
    ensures RetainedIds(G.Seal(b)) == RetainedIds(b) == BaseIds(G.Seal(b))
    ensures VisibleIds(G.Seal(b)) == VisibleIds(b)
  {
    RetainedSplit(b);
    RetainedSplit(G.Seal(b));
    if b.changes != map[] {
      assert G.Retained(G.Seal(b)) == G.Retained(b);
    } else {
      assert Values(b.changes) == {};
    }
  }

  // ---------------------------------------------------------------------
  // Forking
  // ---------------------------------------------------------------------

  function ForkSpace(space: Space, source: VmId, child: VmId): Space
    requires source in space
  {
    space[source := G.Seal(space[source])][child := G.Seal(space[source])]
  }

  /** A fork holds the same pages and shares exactly what the source sees besides. */
  lemma ForkConserves(space: Space, nextPage: nat, source: VmId, child: VmId)
    requires Inv(space, nextPage) && source in space && child !in space
    ensures var t := ForkSpace(space, source, child);
      && Inv(t, nextPage)
      && Resident(t) == Resident(space)
      && forall id :: IsShared(t, id) <==> IsShared(space, id) || id in VisibleIds(space[source])
  {
    hide Inv, Resident, IsShared;
    ForkKeepsInv(space, nextPage, source, child);
    ForkResident(space, source, child);
    ForkShares(space, source, child);
  }

  lemma ForkResident(space: Space, source: VmId, child: VmId)
    requires source in space && child !in space
    ensures Resident(ForkSpace(space, source, child)) == Resident(space)
  {
    hide RetainedIds, VisibleIds, BaseIds;
    var t := ForkSpace(space, source, child);
    SealRetains(space[source]);
    forall id ensures id in Resident(t) <==> id in Resident(space) {
      if id in Resident(t) {
        var vm :| vm in t && id in RetainedIds(t[vm]);
        assert id in RetainedIds(space[if vm == child then source else vm]);
      }
      if id in Resident(space) {
        var vm :| vm in space && id in RetainedIds(space[vm]);
        assert id in RetainedIds(t[vm]);
      }
    }
  }

  lemma ForkShares(space: Space, source: VmId, child: VmId)
    requires source in space && child !in space
    ensures var t := ForkSpace(space, source, child);
      forall id :: IsShared(t, id) <==> IsShared(space, id) || id in VisibleIds(space[source])
  {
    hide RetainedIds, VisibleIds, BaseIds;
    var t := ForkSpace(space, source, child);
    SealRetains(space[source]);
    forall id ensures IsShared(t, id) <==> IsShared(space, id) || id in VisibleIds(space[source]) {
      if IsShared(t, id) {
        var a, b :| SharedBy(t, id, a, b);
        assert a != child && b != child ==> SharedBy(space, id, a, b);
      }
      if IsShared(space, id) {
        var a, b :| SharedBy(space, id, a, b);
        assert SharedBy(t, id, a, b);
      }
      if id in VisibleIds(space[source]) {
        assert SharedBy(t, id, source, child);
      }
    }
  }

  lemma ForkKeepsInv(space: Space, nextPage: nat, source: VmId, child: VmId)
    requires Inv(space, nextPage) && source in space && child !in space
    ensures Inv(ForkSpace(space, source, child), nextPage)
  {
    var t := ForkSpace(space, source, child);
    SealRetains(space[source]);
    forall vm, key ensures PageOk(t, nextPage, vm, key) { assert PageOk(space, nextPage, vm, key); }
    forall vm, key, other ensures PagesApart(t, vm, key, other) { assert PagesApart(space, vm, key, other); }
    forall vm, key, other ensures VmsApart(t, vm, key, other) {
      assert VmsApart(space, vm, key, other) && VmsApart(space, vm, key, source);
    }
    forall vm ensures IdsBelow(t, nextPage, vm) {
      assert IdsBelow(space, nextPage, vm) && IdsBelow(space, nextPage, source);
    }
  }

  // ---------------------------------------------------------------------
  // Writing
  // ---------------------------------------------------------------------

  /** One more private page, in place of the private page of its key if there is one. */
  function PutPage(b: PageBranch, key: FilePage, page: Page): PageBranch {
    G.Put(b, key, page)
  }

  lemma PutRetains(b: PageBranch, key: FilePage, page: Page)
    requires forall k :: k in b.changes && key in b.changes && k != key ==> b.changes[k].id != b.changes[key].id
    requires key in b.changes ==> b.changes[key].id !in BaseIds(b)
    requires page.id !in RetainedIds(b)
    ensures RetainedIds(PutPage(b, key, page))
         == RetainedIds(b) - (if key in b.changes then {b.changes[key].id} else {}) + {page.id}
    ensures BaseIds(PutPage(b, key, page)) == BaseIds(b)
  {
    var r := PutPage(b, key, page);
    RetainedSplit(b);
    RetainedSplit(r);
    forall id ensures id in Ids(Values(r.changes)) <==>
      id == page.id || (id in Ids(Values(b.changes)) && (key in b.changes ==> id != b.changes[key].id))
    {
      if id in Ids(Values(r.changes)) {
        var k :| k in r.changes && r.changes[k].id == id;
        assert k != key ==> b.changes[k] in Values(b.changes);
      }
      if id in Ids(Values(b.changes)) && (key in b.changes ==> id != b.changes[key].id) {
        var k :| k in b.changes && b.changes[k].id == id;
        assert r.changes[k] in Values(r.changes);
      }
      assert r.changes[key] in Values(r.changes);
    }
  }

  /** One page written: one more page held, unless it replaces a private one. */
  lemma PutConserves(space: Space, nextPage: nat, vm: VmId, key: FilePage, bytes: seq<Byte>)
    requires Inv(space, nextPage) && vm in space
    ensures var t := space[vm := PutPage(space[vm], key, Page(nextPage, bytes))];
      && Inv(t, nextPage + 1)
      && Resident(t) == Resident(space) - (if key in space[vm].changes then {space[vm].changes[key].id} else {}) + {nextPage}
      && |Resident(t)| == |Resident(space)| + (if key in space[vm].changes then 0 else 1)
  {
    hide Resident;
    var gone := if key in space[vm].changes then {space[vm].changes[key].id} else {};
    PutKeepsInv(space, nextPage, vm, key, bytes);
    PutResident(space, nextPage, vm, key, bytes);
    IdsAreResident(space, nextPage, vm, key);
    assert |Resident(space) - gone + {nextPage}| == |Resident(space) - gone| + 1;
    assert |Resident(space) - gone| == |Resident(space)| - |gone|;
  }

  lemma IdsAreResident(space: Space, nextPage: nat, vm: VmId, key: FilePage)
    requires Inv(space, nextPage) && vm in space
    ensures nextPage !in Resident(space)
    ensures key in space[vm].changes ==> space[vm].changes[key].id in Resident(space)
  {
    RetainedSplit(space[vm]);
    hide RetainedIds;
    forall v | v in space ensures nextPage !in RetainedIds(space[v]) { assert IdsBelow(space, nextPage, v); }
    if key in space[vm].changes {
      assert space[vm].changes[key].id in RetainedIds(space[vm]);
    }
  }

  lemma PutResident(space: Space, nextPage: nat, vm: VmId, key: FilePage, bytes: seq<Byte>)
    requires Inv(space, nextPage) && vm in space
    ensures Resident(space[vm := PutPage(space[vm], key, Page(nextPage, bytes))])
         == Resident(space) - (if key in space[vm].changes then {space[vm].changes[key].id} else {}) + {nextPage}
  {
    hide RetainedIds, BaseIds, PutPage;
    var t := space[vm := PutPage(space[vm], key, Page(nextPage, bytes))];
    var gone := if key in space[vm].changes then {space[vm].changes[key].id} else {};
    PutPreconditions(space, nextPage, vm, key);
    PutRetains(space[vm], key, Page(nextPage, bytes));
    forall id ensures id in Resident(t) <==> id in Resident(space) - gone + {nextPage} {
      if id in Resident(t) {
        var v :| v in t && id in RetainedIds(t[v]);
        assert VmsApart(space, vm, key, v) && (v != vm ==> id in RetainedIds(space[v]));
      }
      if id in Resident(space) - gone {
        var v :| v in space && id in RetainedIds(space[v]);
        assert id in RetainedIds(t[v]);
      }
      assert nextPage in RetainedIds(t[vm]);
    }
  }

  lemma PutPreconditions(space: Space, nextPage: nat, vm: VmId, key: FilePage)
    requires Inv(space, nextPage) && vm in space
    ensures forall k :: k in space[vm].changes && key in space[vm].changes && k != key ==>
      space[vm].changes[k].id != space[vm].changes[key].id
    ensures key in space[vm].changes ==> space[vm].changes[key].id !in BaseIds(space[vm])
    ensures nextPage !in RetainedIds(space[vm])
  {
    assert IdsBelow(space, nextPage, vm) && PageOk(space, nextPage, vm, key);
    forall k | k in space[vm].changes && key in space[vm].changes && k != key
      ensures space[vm].changes[k].id != space[vm].changes[key].id
    {
      assert PagesApart(space, vm, k, key);
    }
  }

  lemma PutKeepsInv(space: Space, nextPage: nat, vm: VmId, key: FilePage, bytes: seq<Byte>)
    requires Inv(space, nextPage) && vm in space
    ensures Inv(space[vm := PutPage(space[vm], key, Page(nextPage, bytes))], nextPage + 1)
  {
    hide RetainedIds, BaseIds;
    var t := space[vm := PutPage(space[vm], key, Page(nextPage, bytes))];
    PutPreconditions(space, nextPage, vm, key);
    PutRetains(space[vm], key, Page(nextPage, bytes));
    RetainedSplit(space[vm]);
    var next := nextPage + 1;
    forall v, k ensures PageOk(t, next, v, k) {
      assert PageOk(space, nextPage, v, k);
    }
    forall v, k, o ensures PagesApart(t, v, k, o) {
      assert PagesApart(space, v, k, o) && PageOk(space, nextPage, v, k) && PageOk(space, nextPage, v, o);
    }
    forall v, k, o ensures VmsApart(t, v, k, o) {
      assert VmsApart(space, v, k, o) && PageOk(space, nextPage, v, k) && IdsBelow(space, nextPage, o);
    }
    forall v ensures IdsBelow(t, next, v) { assert IdsBelow(space, nextPage, v); }
  }

  /** The page keys a write of `len` bytes at `cursor` reaches. */
  function TouchedKeys(path: string, cursor: nat, len: nat): set<FilePage> {
    set k | cursor / PAGE_SIZE <= k < cursor / PAGE_SIZE + PagesTouched(cursor, len) :: FilePage(path, k)
  }

  lemma TouchedKeysStep(path: string, cursor: nat, len: nat, n: nat, done: nat)
    requires len > 0 && n == OnPage(cursor, len) && done <= len - n
    ensures var first := FilePage(path, cursor / PAGE_SIZE);
      TouchedKeys(path, cursor, n + done) == {first} + TouchedKeys(path, cursor + n, done)
      && first !in TouchedKeys(path, cursor + n, done)
  {
    TouchedStep(cursor, n + done);
    assert OnPage(cursor, n + done) == n;
    if done == 0 {
      assert TouchedKeys(path, cursor + n, 0) == {};
      assert PagesTouched(cursor, n) == 1;
    } else {
      var whole, rest := TouchedKeys(path, cursor, n + done), TouchedKeys(path, cursor + n, done);
      forall key ensures key in whole <==> key in {FilePage(path, cursor / PAGE_SIZE)} + rest { }
    }
  }

  /** How many pages the VMs of a space hold. */
  ghost function PagesHeld(space: Space): nat {
    |Resident(space)|
  }

  /** How many of the pages a write reaches are not private to the branch yet. */
  function PagesNotPrivate(b: PageBranch, path: string, cursor: nat, len: nat): nat {
    NotIn(TouchedKeys(path, cursor, len), b.changes.Keys)
  }

  function NotIn<T(==)>(keys: set<T>, held: set<T>): nat {
    |keys - held|
  }

  lemma NotPrivateStep(b: PageBranch, put: PageBranch, path: string, cursor: nat, len: nat, done: nat)
    requires len > 0 && done <= len - OnPage(cursor, len)
    requires put.changes.Keys == b.changes.Keys + {FilePage(path, cursor / PAGE_SIZE)}
    ensures var n := OnPage(cursor, len);
      PagesNotPrivate(b, path, cursor, n + done)
      == PagesNotPrivate(put, path, cursor + n, done) + (if FilePage(path, cursor / PAGE_SIZE) in b.changes then 0 else 1)
  {
    hide TouchedKeys, OnPage, PagesTouched, NotIn;
    var n := OnPage(cursor, len);
    TouchedKeysStep(path, cursor, len, n, done);
    CountWithout(TouchedKeys(path, cursor + n, done), b.changes.Keys, FilePage(path, cursor / PAGE_SIZE));
  }

  lemma NotPrivateNone(b: PageBranch, path: string, cursor: nat)
    ensures PagesNotPrivate(b, path, cursor, 0) == 0
  {
    assert TouchedKeys(path, cursor, 0) == {};
    assert {} - b.changes.Keys == {};
  }

  /** A write of any length holds one more page for each page it reaches that was not private. */
  lemma {:induction false} WriteConserves(space: Space, nextPage: nat, vm: VmId, path: string, cursor: nat, bytes: seq<Byte>)
    requires Inv(space, nextPage) && vm in space && Sized(space[vm])
    ensures var w := Write(space[vm], nextPage, path, cursor, bytes);
      var t := space[vm := w.branch];
      Inv(t, w.nextPage) && PagesHeld(t) == PagesHeld(space) + PagesNotPrivate(space[vm], path, cursor, w.done)
    decreases |bytes|
  {
    hide Inv, PagesHeld, PagesNotPrivate, Sized, OnPage, PutChunk, Write;
    if bytes == [] || nextPage >= U64_MAX {
      WriteNone(space[vm], nextPage, path, cursor, bytes);
      SetAgain(space, vm, space[vm], space[vm]);
      NotPrivateNone(space[vm], path, cursor);
    } else {
      WriteFirst(space[vm], nextPage, path, cursor, bytes);
      var n := OnPage(cursor, |bytes|);
      var put := PutChunk(space[vm], nextPage, path, cursor, bytes[..n]);
      ChunkConserves(space, nextPage, vm, path, cursor, bytes[..n]);
      WriteConserves(space[vm := put], nextPage + 1, vm, path, cursor + n, bytes[n..]);
      var rest := Write(put, nextPage + 1, path, cursor + n, bytes[n..]);
      SetAgain(space, vm, put, rest.branch);
      NotPrivateStep(space[vm], put, path, cursor, |bytes|, rest.done);
    }
  }

  lemma ChunkConserves(space: Space, nextPage: nat, vm: VmId, path: string, cursor: nat, chunk: seq<Byte>)
    requires Inv(space, nextPage) && vm in space && Sized(space[vm]) && cursor % PAGE_SIZE + |chunk| <= PAGE_SIZE
    ensures var put, key := PutChunk(space[vm], nextPage, path, cursor, chunk), FilePage(path, cursor / PAGE_SIZE);
      && Inv(space[vm := put], nextPage + 1)
      && PagesHeld(space[vm := put]) == PagesHeld(space) + (if key in space[vm].changes then 0 else 1)
      && put.changes.Keys == space[vm].changes.Keys + {key}
  {
    hide Inv, Sized, PutChunk, PutPage;
    var page := ChunkIsPage(space[vm], nextPage, path, cursor, chunk);
    PutConserves(space, nextPage, vm, FilePage(path, cursor / PAGE_SIZE), page);
  }

  /** A written chunk is a new private page. */
  lemma ChunkIsPage(b: PageBranch, id: nat, path: string, cursor: nat, chunk: seq<Byte>) returns (bytes: seq<Byte>)
    requires Sized(b) && cursor % PAGE_SIZE + |chunk| <= PAGE_SIZE
    ensures var key := FilePage(path, cursor / PAGE_SIZE);
      && PutChunk(b, id, path, cursor, chunk) == PutPage(b, key, Page(id, bytes))
      && PutChunk(b, id, path, cursor, chunk).changes.Keys == b.changes.Keys + {key}
  {
    bytes := PutChunk(b, id, path, cursor, chunk).changes[FilePage(path, cursor / PAGE_SIZE)].bytes;
  }

  lemma SetAgain(space: Space, vm: VmId, a: PageBranch, b: PageBranch)
    requires vm in space
    ensures space[vm := a][vm := b] == space[vm := b] && space[vm := space[vm]] == space
  {
  }

  lemma CountWithout<T>(keys: set<T>, held: set<T>, key: T)
    requires key !in keys
    ensures NotIn({key} + keys, held) == NotIn(keys, held + {key}) + (if key in held then 0 else 1)
  {
    assert keys - (held + {key}) == keys - held;
    assert ({key} + keys) - held == (keys - held) + (if key in held then {} else {key});
  }

  /** Writing never makes two VMs share a page. */
  lemma PutSharesNoMore(space: Space, nextPage: nat, vm: VmId, key: FilePage, bytes: seq<Byte>, id: nat)
    requires Inv(space, nextPage) && vm in space
    ensures IsShared(space[vm := PutPage(space[vm], key, Page(nextPage, bytes))], id) ==> IsShared(space, id)
  {
    var t := space[vm := PutPage(space[vm], key, Page(nextPage, bytes))];
    if IsShared(t, id) {
      var a, b :| SharedBy(t, id, a, b);
      var other := if a == vm then b else a;
      assert IdsBelow(space, nextPage, other);
      VisibleIdsRetained(space[other]);
      PutVisibleIds(space[vm], key, Page(nextPage, bytes));
      assert SharedBy(space, id, a, b);
    }
  }

  lemma VisibleIdsRetained(b: PageBranch)
    ensures VisibleIds(b) <= RetainedIds(b)
  {
    G.VisibleIsRetained(b.base);
    forall id | id in VisibleIds(b) ensures id in RetainedIds(b) {
      var page :| page in Values(G.Visible(b)) && page.id == id;
      var key :| key in G.Visible(b) && G.Visible(b)[key] == page;
      assert key in b.changes ==> page in Values(b.changes);
      assert key !in b.changes ==> page in Values(G.VisibleIn(b.base));
      assert page in G.Retained(b);
    }
  }

  lemma PutVisibleIds(b: PageBranch, key: FilePage, page: Page)
    ensures VisibleIds(PutPage(b, key, page)) <= VisibleIds(b) + {page.id}
  {
    var r := PutPage(b, key, page);
    forall id | id in VisibleIds(r) && id != page.id ensures id in VisibleIds(b) {
      var p :| p in Values(G.Visible(r)) && p.id == id;
      var k :| k in G.Visible(r) && G.Visible(r)[k] == p;
      assert k in G.Visible(b) && G.Visible(b)[k] == p;
    }
  }

  lemma {:induction false} WriteSharesNoMore(space: Space, nextPage: nat, vm: VmId, path: string, cursor: nat,
                                             bytes: seq<Byte>, id: nat)
    requires Inv(space, nextPage) && vm in space && Sized(space[vm])
    ensures IsShared(space[vm := Write(space[vm], nextPage, path, cursor, bytes).branch], id) ==> IsShared(space, id)
    decreases |bytes|
  {
    hide Inv, IsShared, Sized, OnPage, PutChunk, PutPage, Resident, Write;
    if bytes == [] || nextPage >= U64_MAX {
      WriteNone(space[vm], nextPage, path, cursor, bytes);
      SetAgain(space, vm, space[vm], space[vm]);
    } else {
      WriteFirst(space[vm], nextPage, path, cursor, bytes);
      var n := OnPage(cursor, |bytes|);
      var key := FilePage(path, cursor / PAGE_SIZE);
      var put := PutChunk(space[vm], nextPage, path, cursor, bytes[..n]);
      var mid := space[vm := put];
      var page := ChunkIsPage(space[vm], nextPage, path, cursor, bytes[..n]);
      PutConserves(space, nextPage, vm, key, page);
      PutSharesNoMore(space, nextPage, vm, key, page, id);
      WriteSharesNoMore(mid, nextPage + 1, vm, path, cursor + n, bytes[n..], id);
      var rest := Write(put, nextPage + 1, path, cursor + n, bytes[n..]);
      SetAgain(space, vm, put, rest.branch);
    }
  }

  // ---------------------------------------------------------------------
  // Counting
  // ---------------------------------------------------------------------

  /** Collect the ids of every page a branch keeps alive, generation by generation. */
  method AddRetainedIds(b: PageBranch, retained: set<nat>) returns (r: set<nat>)
    ensures r == retained + RetainedIds(b)
  {
    r := retained + Ids(Values(b.changes));
    var generation := Some(b.base);
    while generation.Some?
      invariant r + (if generation.Some? then Ids(G.RetainedIn(generation.value)) else {}) == retained + RetainedIds(b)
      decreases generation
    {
      r := r + Ids(Values(generation.value.changes));
      generation := generation.value.parent;
    }
  }

  /** Retained pages over all branches, and pages at least two branches see. */
  method AccountPages(branches: seq<PageBranch>) returns (account: A.Account)
    ensures account == A.Account(|A.Resident(seq(|branches|, i requires 0 <= i < |branches| => RetainedIds(branches[i])))|,
                                 |A.Shared(seq(|branches|, i requires 0 <= i < |branches| => VisibleIds(branches[i])))|)
  {
    ghost var retains := seq(|branches|, i requires 0 <= i < |branches| => RetainedIds(branches[i]));
    var seen: seq<set<nat>> := [];
    var resident: set<nat> := {};
    for i := 0 to |branches|
      invariant |seen| == i && forall j :: 0 <= j < i ==> seen[j] == VisibleIds(branches[j])
      invariant resident == A.Resident(retains[..i])
    {
      resident := AddRetainedIds(branches[i], resident);
      var visible := G.FlattenNewestFirst(branches[i]);
      seen := seen + [Ids(Values(visible))];
      A.ResidentStep(retains, i);
    }
    assert retains[..|branches|] == retains;
    assert seen == seq(|branches|, i requires 0 <= i < |branches| => VisibleIds(branches[i]));
    var references := A.CountReferences(seen);
    account := A.Account(|resident|, references.shared);
  }
}
