/** The page account of the fork forest, in terms of the pages themselves. */
module ForestPages {
  import opened Basics
  import opened PageBranches
  import opened ForestRuns
  import opened ForestObject
  import opened ForestCounts
  import A = Accounting
  import FA = ForestAccounting
  import G = Generations

  // ---------------------------------------------------------------------
  // An id means one page
  // ---------------------------------------------------------------------

  predicate OnePage(space: FA.Space, v: VmId, u: VmId, p: Page, q: Page) {
    v in space && u in space && p in G.Retained(space[v]) && q in G.Retained(space[u]) && p.id == q.id ==> p == q
  }

  ghost predicate IdsMeanPages(space: FA.Space) {
    forall v, u, p, q {:trigger OnePage(space, v, u, p, q)} :: OnePage(space, v, u, p, q)
  }

  /** Every page of `t` is one of `space` or has the new id. */
  predicate OldOrNew(space: FA.Space, t: FA.Space, page: Page, v: VmId, p: Page) {
    v in t && p in G.Retained(t[v]) ==> p == page || exists u :: u in space && p in G.Retained(space[u])
  }

  lemma FewerPages(space: FA.Space, nextPage: nat, t: FA.Space, page: Page)
    requires FA.Inv(space, nextPage) && IdsMeanPages(space) && page.id >= nextPage
    requires forall v, p {:trigger OldOrNew(space, t, page, v, p)} :: OldOrNew(space, t, page, v, p)
    ensures IdsMeanPages(t)
  {
    forall v, u, p, q ensures OnePage(t, v, u, p, q) {
      assert OldOrNew(space, t, page, v, p) && OldOrNew(space, t, page, u, q);
      if v in t && u in t && p in G.Retained(t[v]) && q in G.Retained(t[u]) && p.id == q.id {
        if p != page { BelowNext(space, nextPage, p); }
        if q != page { BelowNext(space, nextPage, q); }
        if p != page && q != page {
          var a :| a in space && p in G.Retained(space[a]);
          var b :| b in space && q in G.Retained(space[b]);
          assert OnePage(space, a, b, p, q);
        }
      }
    }
  }

  lemma BelowNext(space: FA.Space, nextPage: nat, p: Page)
    requires FA.Inv(space, nextPage) && exists u :: u in space && p in G.Retained(space[u])
    ensures p.id < nextPage
  {
    var u :| u in space && p in G.Retained(space[u]);
    assert FA.IdsBelow(space, nextPage, u);
    assert p.id in FA.RetainedIds(space[u]);
  }

  lemma SealKeepsPages(b: PageBranch)
    ensures G.Retained(G.Seal(b)) == G.Retained(b)
  {
    if b.changes == map[] {
      assert Values(b.changes) == {};
    }
  }

  lemma ForkKeepsPages(space: FA.Space, nextPage: nat, source: VmId, child: VmId)
    requires FA.Inv(space, nextPage) && IdsMeanPages(space) && source in space
    ensures IdsMeanPages(FA.ForkSpace(space, source, child))
  {
    var t, page := FA.ForkSpace(space, source, child), Page(nextPage, []);
    SealKeepsPages(space[source]);
    forall v, p ensures OldOrNew(space, t, page, v, p) {
      if v in t && p in G.Retained(t[v]) {
        assert p in G.Retained(space[if v == child then source else v]);
      }
    }
    FewerPages(space, nextPage, t, page);
  }

  lemma PutKeepsPages(space: FA.Space, nextPage: nat, vm: VmId, key: FilePage, bytes: seq<Byte>)
    requires FA.Inv(space, nextPage) && IdsMeanPages(space) && vm in space
    ensures IdsMeanPages(space[vm := FA.PutPage(space[vm], key, Page(nextPage, bytes))])
  {
    var page := Page(nextPage, bytes);
    var t := space[vm := FA.PutPage(space[vm], key, page)];
    forall v, p ensures OldOrNew(space, t, page, v, p) {
      if v in t && p in G.Retained(t[v]) && p != page {
        if v == vm {
          PutRetains(space[vm], key, page, p);
        }
        assert p in G.Retained(space[v]);
      }
    }
    FewerPages(space, nextPage, t, page);
  }

  lemma PutRetains(b: PageBranch, key: FilePage, page: Page, p: Page)
    requires p in G.Retained(FA.PutPage(b, key, page)) && p != page
    ensures p in G.Retained(b)
  {
    var r := FA.PutPage(b, key, page);
    if p in Values(r.changes) {
      var k :| k in r.changes && r.changes[k] == p;
      assert b.changes[k] == p;
    }
  }

  lemma {:induction false} WriteKeepsPages(space: FA.Space, nextPage: nat, vm: VmId, path: string, cursor: nat, bytes: seq<Byte>)
    requires FA.Inv(space, nextPage) && IdsMeanPages(space) && vm in space && Sized(space[vm])
    ensures IdsMeanPages(space[vm := Write(space[vm], nextPage, path, cursor, bytes).branch])
    decreases |bytes|
  {
    hide FA.Inv, IdsMeanPages, Sized, OnPage, PutChunk, FA.PutPage, FA.Resident, Write;
    if bytes == [] || nextPage >= U64_MAX {
      WriteNone(space[vm], nextPage, path, cursor, bytes);
      FA.SetAgain(space, vm, space[vm], space[vm]);
    } else {
      WriteFirst(space[vm], nextPage, path, cursor, bytes);
      var n := OnPage(cursor, |bytes|);
      var key := FilePage(path, cursor / PAGE_SIZE);
      var put := PutChunk(space[vm], nextPage, path, cursor, bytes[..n]);
      var page := FA.ChunkIsPage(space[vm], nextPage, path, cursor, bytes[..n]);
      FA.PutConserves(space, nextPage, vm, key, page);
      PutKeepsPages(space, nextPage, vm, key, page);
      WriteKeepsPages(space[vm := put], nextPage + 1, vm, path, cursor + n, bytes[n..]);
      var rest := Write(put, nextPage + 1, path, cursor + n, bytes[n..]);
      FA.SetAgain(space, vm, put, rest.branch);
    }
  }

  lemma EmptyKeepsPages(space: FA.Space, nextPage: nat, vm: VmId)
    requires FA.Inv(space, nextPage) && IdsMeanPages(space)
    ensures IdsMeanPages(space[vm := G.EmptyBranch()])
  {
    var t, page := space[vm := G.EmptyBranch()], Page(nextPage, []);
    assert G.Retained(t[vm]) == {};
    forall v, p ensures OldOrNew(space, t, page, v, p) { }
    FewerPages(space, nextPage, t, page);
  }

  lemma StepKeepsPages(f: Forest, step: Step, space: Space)
    requires Valid(f) && Counted(f) && Legal(f, step) && IdsMeanPages(SpaceOf(f.vms, space))
    ensures IdsMeanPages(SpaceOf(Next(f, step).vms, space))
  {
    hide FA.Inv, IdsMeanPages, Sized, Write;
    var s := SpaceOf(f.vms, space);
    assert FA.Inv(s, f.nextPage) by { assert space == Memory || space == Files; }
    match step
    case DoCreate(vm) =>
      SpaceAfterCreate(f, space);
      EmptyKeepsPages(s, f.nextPage, f.nextVm);
    case DoFork(source, child) =>
      SpaceAfterFork(f, source, space);
      ForkKeepsPages(s, f.nextPage, source, f.nextVm);
    case DoRemove(vm) =>
      assert SpaceOf(Remove(f, vm).vms, space) == s - {vm};
      RemoveKeepsPages(s, vm);
    case DoWrite(vm, written, path, offset, bytes) =>
      SpaceAfterWrite(f, vm, written, Write(Branch(f.vms[vm], written), f.nextPage, path, offset, bytes), space);
      if written == space {
        WriteKeepsPages(s, f.nextPage, vm, path, offset, bytes);
      }
  }

  lemma RemoveKeepsPages(space: FA.Space, vm: VmId)
    requires IdsMeanPages(space)
    ensures IdsMeanPages(space - {vm})
  {
    forall v, u, p, q ensures OnePage(space - {vm}, v, u, p, q) { assert OnePage(space, v, u, p, q); }
  }

  /** Over every run an id means one page, in all VMs and generations. */
  lemma {:induction false} RunIdsMeanPages(steps: seq<Step>, space: Space)
    requires LegalRun(steps)
    ensures IdsMeanPages(SpaceOf(Run(steps).vms, space))
    decreases |steps|
  {
    if steps == [] {
      assert SpaceOf(EMPTY.vms, space) == map[];
    } else {
      hide Legal, Next, Valid, Counted, IdsMeanPages;
      var before := steps[..|steps| - 1];
      RunIsValid(before);
      RunIsCounted(before);
      RunIdsMeanPages(before, space);
      StepKeepsPages(Run(before), steps[|steps| - 1], space);
    }
  }

  // ---------------------------------------------------------------------
  // The account
  // ---------------------------------------------------------------------

  /** Some address of the branch reads this page. */
  ghost predicate Shows(b: PageBranch, p: Page) {
    exists key :: G.Lookup(b, key) == Some(p)
  }

  /** The pages each VM keeps alive, and the pages each VM shows. */
  ghost function Kept(space: FA.Space): map<VmId, set<Page>> {
    map vm | vm in space :: G.Retained(space[vm])
  }

  ghost function Shown(space: FA.Space): map<VmId, set<Page>> {
    map vm | vm in space :: Values(G.Visible(space[vm]))
  }

  lemma ShownIs(b: PageBranch, p: Page)
    ensures p in Values(G.Visible(b)) <==> Shows(b, p)
  {
    forall key ensures G.Lookup(b, key) == if key in G.Visible(b) then Some(G.Visible(b)[key]) else None {
      G.LookupIsVisible(b, key);
    }
    if p in Values(G.Visible(b)) {
      var key :| key in G.Visible(b) && G.Visible(b)[key] == p;
      assert G.Lookup(b, key) == Some(p);
    }
  }

  lemma ShownIsKept(b: PageBranch)
    ensures Values(G.Visible(b)) <= G.Retained(b)
  {
    G.VisibleIsRetained(b.base);
    forall p | p in Values(G.Visible(b)) ensures p in G.Retained(b) {
      var key :| key in G.Visible(b) && G.Visible(b)[key] == p;
      assert key !in b.changes ==> p in Values(G.VisibleIn(b.base));
    }
  }

  lemma ResidentIsKept(space: FA.Space)
    requires IdsMeanPages(space)
    ensures |FA.Resident(space)| == |A.HeldIn(Kept(space))|
  {
    var held := A.HeldIn(Kept(space));
    var name := map p | p in held :: p.id;
    hide G.Retained;
    forall p, q | p in name && q in name && name[p] == name[q] ensures p == q {
      var a :| a in space && p in G.Retained(space[a]);
      var b :| b in space && q in G.Retained(space[b]);
      assert OnePage(space, a, b, p, q);
    }
    InjectiveSize(name);
    forall id ensures id in FA.Resident(space) <==> id in Values(name) {
      if id in FA.Resident(space) {
        var vm :| vm in space && id in FA.RetainedIds(space[vm]);
        var p :| p in G.Retained(space[vm]) && p.id == id;
        assert p in Kept(space)[vm] && p in held;
        assert name[p] == id;
      }
      if p :| p in name && name[p] == id {
        var vm :| vm in Kept(space) && p in Kept(space)[vm];
        assert id in FA.RetainedIds(space[vm]);
      }
    }
    assert FA.Resident(space) == Values(name) && name.Keys == held;
    assert |name| == |name.Keys|;
  }

  lemma SharedIsShown(space: FA.Space, id: nat)
    requires IdsMeanPages(space)
    ensures id in SharedIds(space) <==> exists p :: p in A.TwiceIn(Shown(space)) && p.id == id
  {
    hide G.Retained, G.Visible;
    SharedIffSeen(space, id);
    if FA.IsShared(space, id) {
      var a, b :| FA.SharedBy(space, id, a, b);
      var p :| p in Values(G.Visible(space[a])) && p.id == id;
      var q :| q in Values(G.Visible(space[b])) && q.id == id;
      ShownIsKept(space[a]);
      ShownIsKept(space[b]);
      assert OnePage(space, a, b, p, q);
      assert p in Shown(space)[a] && p in Shown(space)[b];
      assert A.TwoHave(Shown(space), p) && p in A.HeldIn(Shown(space));
    }
    if p :| p in A.TwiceIn(Shown(space)) && p.id == id {
      var a, b :| a in Shown(space) && b in Shown(space) && a != b && p in Shown(space)[a] && p in Shown(space)[b];
      assert FA.SharedBy(space, id, a, b);
    }
  }

  lemma SharedCount(space: FA.Space)
    requires IdsMeanPages(space)
    ensures |SharedIds(space)| == |A.TwiceIn(Shown(space))|
  {
    var twice := A.TwiceIn(Shown(space));
    var name := map p | p in twice :: p.id;
    forall p, q | p in name && q in name && name[p] == name[q] ensures p == q { ShownOnce(space, p, q); }
    hide A.TwiceIn, SharedIds, IdsMeanPages;
    InjectiveSize(name);
    forall id ensures id in SharedIds(space) <==> id in Values(name) {
      SharedIsShown(space, id);
      if p :| p in twice && p.id == id {
        assert p in name && name[p] == id;
      }
    }
    assert SharedIds(space) == Values(name) && name.Keys == twice;
    assert |name| == |name.Keys|;
  }

  lemma ShownOnce(space: FA.Space, p: Page, q: Page)
    requires IdsMeanPages(space) && p in A.TwiceIn(Shown(space)) && q in A.TwiceIn(Shown(space)) && p.id == q.id
    ensures p == q
  {
    hide G.Retained, G.Visible;
    var a :| a in Shown(space) && p in Shown(space)[a];
    var b :| b in Shown(space) && q in Shown(space)[b];
    ShownIsKept(space[a]);
    ShownIsKept(space[b]);
    assert OnePage(space, a, b, p, q);
  }

  /** Two VMs each read the page somewhere. */
  ghost predicate ReadByTwo(space: FA.Space, p: Page) {
    exists a, b :: a in space && b in space && a != b && Shows(space[a], p) && Shows(space[b], p)
  }

  lemma TwiceIsReadByTwo(space: FA.Space, p: Page)
    ensures p in A.TwiceIn(Shown(space)) <==> ReadByTwo(space, p)
  {
    forall vm | vm in space ensures p in Shown(space)[vm] <==> Shows(space[vm], p) { ShownIs(space[vm], p); }
    hide Shows, G.Visible;
    var m := Shown(space);
    if p in A.TwiceIn(m) {
      var a, b :| a in m && b in m && a != b && p in m[a] && p in m[b];
      assert Shows(space[a], p) && Shows(space[b], p);
    }
    if ReadByTwo(space, p) {
      var a, b :| a in space && b in space && a != b && Shows(space[a], p) && Shows(space[b], p);
      assert p in m[a] && p in m[b];
      assert A.TwoHave(m, p) && p in A.HeldIn(m);
    }
  }

  /** After any run the resident pages are the distinct pages VMs keep alive, and the shared ones those two VMs read somewhere. */
  lemma AccountIsOfPages(steps: seq<Step>, space: Space)
    requires LegalRun(steps)
    ensures var s := SpaceOf(Run(steps).vms, space);
      && |FA.Resident(s)| == |A.HeldIn(Kept(s))| && |SharedIds(s)| == |A.TwiceIn(Shown(s))|
      && forall p :: p in A.TwiceIn(Shown(s)) <==> ReadByTwo(s, p)
  {
    hide IdsMeanPages, SharedIds, FA.Resident, Shown, Kept, ReadByTwo, A.TwiceIn, A.HeldIn, SpaceOf;
    var s := SpaceOf(Run(steps).vms, space);
    RunIdsMeanPages(steps, space);
    ResidentIsKept(s);
    SharedCount(s);
    forall p ensures p in A.TwiceIn(Shown(s)) <==> ReadByTwo(s, p) { TwiceIsReadByTwo(s, p); }
  }
}
