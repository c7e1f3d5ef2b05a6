/** Counting the cached pages that branches see, and those that several of them share. */
module CacheAccounting {
  import opened Basics
  import opened Identities
  import opened PageCache
  import opened CacheInvariant
  import opened CacheRuns
  import opened SharedCache
  import A = Accounting

  /** The cached pages each requested branch sees. */
  ghost function Seen(s: State, requested: seq<BranchId>): seq<set<nat>>
    requires forall i :: 0 <= i < |requested| ==> requested[i] in s.branches
  {
    seq(|requested|, i requires 0 <= i < |requested| => PagesInBranch(s, requested[i]))
  }

  /** The cached pages one branch sees at known keys. */
  method CollectPages(cache: SharedPageCache, b: BranchId) returns (pages: set<nat>)
    requires b in cache.branches
    ensures b in cache.Value().branches && pages == PagesInBranch(cache.Value(), b)
  {
    hide DirtyKeys, NamesOf;
    ghost var s := cache.Value();
    pages := {};
    var todo := cache.known;
    while todo != {}
      invariant todo <= cache.known
      invariant forall p :: p in pages <==>
        exists key {:trigger Resident(s, b, key)} :: key in cache.known - todo && Resident(s, b, key) == Some(p)
      decreases todo
    {
      var key :| key in todo;
      var identity := PageIdentityOf(cache.branches[b].store.identities, key.node, key.page * PAGE_SIZE);
      LookedUp(cache.branches, b, key.node, key.page * PAGE_SIZE);
      assert identity == Ident(s, b, key);
      ghost var before := pages;
      if identity.Some? && identity.value in cache.pages {
        pages := pages + {cache.pages[identity.value]};
      }
      forall p ensures p in pages <==>
        exists k {:trigger Resident(s, b, k)} :: k in cache.known - (todo - {key}) && Resident(s, b, k) == Some(p)
      {
        if p in before {
          var k :| k in cache.known - todo && Resident(s, b, k) == Some(p);
        }
        assert Resident(s, b, key) == (if identity.Some? && identity.value in cache.pages then Some(cache.pages[identity.value]) else None);
      }
      todo := todo - {key};
    }
  }

  /** Two branches see the identity at some page. */
  ghost predicate SharedIdentity(s: State, id: PageIdentity) {
    exists b, c, key :: b in s.branches && c in s.branches && b != c
      && Ident(s, b, key) == Some(id) && Ident(s, c, key) == Some(id)
  }

  ghost function SharedIdentities(s: State): set<PageIdentity> {
    set id | id in s.pages && SharedIdentity(s, id)
  }

  /** All branches, each once. */
  ghost predicate ListsBranches(s: State, requested: seq<BranchId>) {
    Distinct(requested) && forall b :: b in requested <==> b in s.branches
  }

  /** Over all branches the counts are those of the whole cache: its pages, and the identities two branches see. */
  lemma WholeAccount(s: State, requested: seq<BranchId>)
    requires Inv(s) && ListsBranches(s, requested)
    ensures |A.Resident(Seen(s, requested))| == |s.pages|
    ensures |A.Shared(Seen(s, requested))| == |SharedIdentities(s)|
  {
    var seen := Seen(s, requested);
    AccountingIsExact(s);
    SharedCount(s);
    hide Inv, PagesInBranch, SharedIdentities, SharedPage;
    forall p ensures p in A.Resident(seen) <==> p in Values(s.pages) { ResidentSomewhere(s, requested, p); }
    assert A.Resident(seen) == Values(s.pages);
    forall p ensures p in A.Shared(seen) <==> p in SharedPages(s) { SeenTwiceIsShared(s, requested, p); }
    assert A.Shared(seen) == SharedPages(s);
  }

  ghost function SharedPages(s: State): set<nat> {
    set p | p in Values(s.pages) && SharedPage(s, p)
  }

  /** There is one shared page for each shared identity. */
  lemma SharedCount(s: State)
    requires Inv(s)
    ensures |SharedPages(s)| == |SharedIdentities(s)|
  {
    var shared := map id | id in SharedIdentities(s) :: s.pages[id];
    InjectiveSize(shared);
    assert shared.Keys == SharedIdentities(s);
    forall id | id in s.pages ensures SharedPage(s, s.pages[id]) <==> SharedIdentity(s, id) {
      SharedPageIsSharedIdentity(s, id);
    }
    hide Inv, SharedIdentity, SharedPage;
    forall p ensures p in SharedPages(s) <==> p in Values(shared) {
      if p in SharedPages(s) {
        var id :| id in s.pages && s.pages[id] == p;
        assert shared[id] == p;
      }
      if p in Values(shared) {
        var id :| id in shared && shared[id] == p;
      }
    }
    assert SharedPages(s) == Values(shared);
  }

  lemma ResidentSomewhere(s: State, requested: seq<BranchId>, p: nat)
    requires ListsBranches(s, requested)
    ensures p in A.Resident(Seen(s, requested)) <==> exists b :: b in s.branches && p in PagesInBranch(s, b)
  {
    hide PagesInBranch;
    var seen := Seen(s, requested);
    if b :| b in s.branches && p in PagesInBranch(s, b) {
      var i :| 0 <= i < |requested| && requested[i] == b;
      assert p in seen[i];
    }
    if p in A.Resident(seen) {
      var i :| 0 <= i < |seen| && p in seen[i];
      assert requested[i] in s.branches;
    }
  }

  lemma SeenTwiceIsShared(s: State, requested: seq<BranchId>, p: nat)
    requires ListsBranches(s, requested)
    ensures A.SeenTwice(Seen(s, requested), p) <==> SharedPage(s, p)
  {
    hide PagesInBranch;
    var seen := Seen(s, requested);
    if A.SeenTwice(seen, p) {
      var i, j :| 0 <= i < j < |seen| && p in seen[i] && p in seen[j];
      assert requested[i] != requested[j];
    }
    if SharedPage(s, p) {
      var b, c :| b in s.branches && c in s.branches && b != c && p in PagesInBranch(s, b) && p in PagesInBranch(s, c);
      var i :| 0 <= i < |requested| && requested[i] == b;
      var j :| 0 <= j < |requested| && requested[j] == c;
      assert p in seen[i] && p in seen[j];
    }
  }

  lemma ValueBranches(cache: SharedPageCache)
    ensures cache.Value().branches.Keys == cache.branches.Keys
  {
  }

  /** Distinct pages the requested branches see, and pages two of them see; an unknown branch is an error. */
  method PageAccounting(cache: SharedPageCache, requested: seq<BranchId>) returns (r: Result<A.Account, CacheError>)
    ensures (exists i :: 0 <= i < |requested| && requested[i] !in cache.Value().branches) ==>
      exists i :: 0 <= i < |requested| && requested[i] !in cache.Value().branches && r == Err(BranchNotFound(requested[i]))
        && forall j :: 0 <= j < i ==> requested[j] in cache.Value().branches
    ensures (forall i :: 0 <= i < |requested| ==> requested[i] in cache.Value().branches) ==>
      r == Ok(A.Account(|A.Resident(Seen(cache.Value(), requested))|, |A.Shared(Seen(cache.Value(), requested))|))
    ensures Inv(cache.Value()) && ListsBranches(cache.Value(), requested) ==>
      r == Ok(A.Account(|cache.Value().pages|, |SharedIdentities(cache.Value())|))
  {
    hide PagesInBranch, Inv, SharedIdentities, SharedPageCache.Value;
    ghost var s := cache.Value();
    ValueBranches(cache);
    var seen: seq<set<nat>> := [];
    while |seen| < |requested|
      invariant |seen| <= |requested|
      invariant forall i :: 0 <= i < |seen| ==> requested[i] in s.branches && seen[i] == PagesInBranch(s, requested[i])
    {
      var b := requested[|seen|];
      if b !in cache.branches {
        return Err(BranchNotFound(b));
      }
      var pages := CollectPages(cache, b);
      seen := seen + [pages];
    }
    assert seen == Seen(s, requested);
    if Inv(s) && ListsBranches(s, requested) {
      WholeAccount(s, requested);
    }
    var account := A.CountReferences(seen);
    return Ok(account);
  }
}
