/**
 The invariant of the shared page cache, and its preservation by every
 critical section.
 */
module CacheInvariant {
  import opened Basics
  import opened Identities
  import opened PageCache

  function Objects(s: State, b: BranchId): map<NodeId, nat>
    requires b in s.branches
  {
    s.branches[b].store.names.objects
  }

  /** Names are issued by the counters, and every named file exists. */
  ghost predicate BranchOk(s: State, b: BranchId) {
    b in s.branches ==>
      && Issued(s.branches[b].store.names, s.nextObject, s.nextVersion)
      && s.branches[b].store.files.Keys == Objects(s, b).Keys
      && b < s.nextBranch
  }

  /** A file object belongs to one node and has one length, whichever branch looks at it. */
  ghost predicate ObjectOk(s: State, b: BranchId, c: BranchId, n: NodeId, m: NodeId) {
    b in s.branches && c in s.branches && n in Objects(s, b) && m in Objects(s, c)
    && Objects(s, b)[n] == Objects(s, c)[m] ==>
      n == m && |FileOf(s, b, n)| == |FileOf(s, c, m)|
  }

  ghost predicate NamesInv(s: State) {
    && (forall b {:trigger BranchOk(s, b)} :: BranchOk(s, b))
    && (forall b, c, n, m {:trigger ObjectOk(s, b, c, n, m)} :: ObjectOk(s, b, c, n, m))
  }

  /** Cached pages are allocated, page-sized and held under one identity each. */
  ghost predicate HeapInv(s: State) {
    && (forall p {:trigger p in s.heap} :: p in s.heap ==> p < s.nextPage && |s.heap[p]| == PAGE_SIZE)
    && (forall id {:trigger id in s.pages} :: id in s.pages ==> s.pages[id] in s.heap)
    && (forall i, j {:trigger s.pages[i], s.pages[j]} ::
          i in s.pages && j in s.pages && s.pages[i] == s.pages[j] ==> i == j)
  }

  /** A live branch sees the identity at a known key. */
  ghost predicate Seen(s: State, id: PageIdentity) {
    exists b, key {:trigger Ident(s, b, key)} :: b in s.branches && key in s.known && Ident(s, b, key) == Some(id)
  }

  ghost predicate KnownInv(s: State) {
    forall id {:trigger Seen(s, id)} :: id in s.pages ==> Seen(s, id)
  }

  /** A live mapping names the page its branch currently sees; a writable one is exclusive. */
  ghost predicate MappingOk(s: State, m: Mapping) {
    && m.cache == s.id && m.handle < s.nextHandle
    && m.branch in s.branches && m.key in s.known
    && Resident(s, m.branch, m.key) == Some(m.page)
    && (m.flags.write ==> m.key in s.branches[m.branch].exclusive)
  }

  ghost predicate MappingInv(s: State) {
    forall m {:trigger MappingOk(s, m)} :: m in s.mappings ==> MappingOk(s, m)
  }

  ghost function MappingsOf(s: State, b: BranchId, page: PageId): set<Mapping> {
    set m {:trigger m in s.mappings} | m in s.mappings && m.branch == b && m.page == page
  }

  /** An active count is exactly the number of live mappings. */
  ghost predicate ActiveOk(s: State, b: BranchId, page: PageId) {
    b in s.branches ==>
      && Active(s.branches[b], page) == |MappingsOf(s, b, page)|
      && (page in s.branches[b].active ==> 0 < s.branches[b].active[page])
  }

  ghost predicate ActiveInv(s: State) {
    forall b, page {:trigger ActiveOk(s, b, page)} :: ActiveOk(s, b, page)
  }

  /** An exclusive page is resident, and no other branch `c` sees it. */
  ghost predicate ExclusiveOk(s: State, b: BranchId, key: PageKey, c: BranchId) {
    b in s.branches && key in s.branches[b].exclusive ==>
      && key in s.known
      && Resident(s, b, key).Some?
      && (c in s.branches && c != b ==> Ident(s, c, key) != Ident(s, b, key))
  }

  ghost predicate ExclusiveInv(s: State) {
    forall b, key, c {:trigger ExclusiveOk(s, b, key, c)} :: ExclusiveOk(s, b, key, c)
  }

  ghost predicate WriteMapped(s: State, b: BranchId, key: PageKey) {
    exists m {:trigger m in s.mappings} :: m in s.mappings && m.branch == b && m.key == key && m.flags.write
  }

  ghost predicate DirtyOk(s: State, b: BranchId, key: PageKey) {
    b in s.branches && key in s.branches[b].dirty ==> key in s.known && Resident(s, b, key).Some?
  }

  ghost predicate DirtyInv(s: State) {
    forall b, key {:trigger DirtyOk(s, b, key)} :: DirtyOk(s, b, key)
  }

  /** The store holds what the page shows, below the end of the file. */
  ghost predicate Agrees(page: seq<Byte>, file: seq<Byte>, key: PageKey) {
    forall j {:trigger page[j]} :: 0 <= j < |page| && Offset(key) + j < |file| ==> page[j] == file[Offset(key) + j]
  }

  /** A resident page that is neither dirty nor mapped for writing is what its store holds. */
  ghost predicate CleanOk(s: State, b: BranchId, key: PageKey) {
    b in s.branches && Resident(s, b, key).Some? && key !in s.branches[b].dirty && !WriteMapped(s, b, key) ==>
      Agrees(Heap(s, Resident(s, b, key).value), FileOf(s, b, key.node), key)
  }

  ghost predicate CleanInv(s: State) {
    forall b, key {:trigger CleanOk(s, b, key)} :: CleanOk(s, b, key)
  }

  /** Branches that see the same page, neither through the cache, hold the same bytes for it. */
  ghost predicate ColdOk(s: State, b: BranchId, c: BranchId, key: PageKey) {
    b in s.branches && c in s.branches && Ident(s, b, key).Some? && Ident(s, b, key) == Ident(s, c, key)
    && Ident(s, b, key).value !in s.pages ==>
      StorePage(FileOf(s, b, key.node), key) == StorePage(FileOf(s, c, key.node), key)
  }

  ghost predicate ColdInv(s: State) {
    forall b, c, key {:trigger ColdOk(s, b, c, key)} :: ColdOk(s, b, c, key)
  }

  ghost predicate Inv(s: State) {
    && NamesInv(s) && HeapInv(s) && KnownInv(s) && MappingInv(s) && ActiveInv(s)
    && ExclusiveInv(s) && DirtyInv(s) && CleanInv(s) && ColdInv(s)
  }

  /** The page reads the same for the branch, whatever the cache now holds. */
  ghost predicate SamePage(s: State, t: State, b: BranchId, key: PageKey) {
    b in s.branches && b in t.branches ==> PageBytes(s, b, key) == PageBytes(t, b, key)
  }

  ghost predicate SameFiles(s: State, t: State, b: BranchId) {
    b in s.branches && b in t.branches ==>
      && Objects(s, b) == Objects(t, b)
      && (forall n {:trigger FileOf(s, b, n)} :: |FileOf(s, b, n)| == |FileOf(t, b, n)|)
  }

  /** No page of any branch reads differently. */
  ghost predicate SameBytes(s: State, t: State) {
    && (forall b {:trigger SameFiles(s, t, b)} :: SameFiles(s, t, b))
    && (forall b, key {:trigger SamePage(s, t, b, key)} :: SamePage(s, t, b, key))
  }

  /** An identity names one page of one file: two keys with the same identity are the same key. */
  lemma IdentityNamesKey(s: State, b: BranchId, key: PageKey, c: BranchId, key': PageKey)
    requires NamesInv(s)
    requires b in s.branches && c in s.branches
    requires Ident(s, b, key).Some? && Ident(s, b, key) == Ident(s, c, key')
    ensures key == key' && |FileOf(s, b, key.node)| == |FileOf(s, c, key.node)|
  {
    assert ObjectOk(s, b, c, key.node, key'.node);
  }

  // ---------------------------------------------------------------------
  // Loading a page
  // ---------------------------------------------------------------------

  function LoadKnown(s: State, b: BranchId, key: PageKey): State
    requires b in s.branches && Ident(s, b, key).Some?
  {
    LoadPage(s, b, key).(known := s.known + {key})
  }

  lemma LoadKeepsInv(s: State, b: BranchId, key: PageKey)
    requires Inv(s) && b in s.branches && Ident(s, b, key).Some?
    ensures var t := LoadKnown(s, b, key);
      && Inv(t) && SameBytes(s, t) && t.branches == s.branches && Resident(t, b, key).Some? && key in t.known
  {
    hide HeapInv, CleanOk, WriteMapped;
    var t := LoadKnown(s, b, key);
    assert t == s.(pages := t.pages, heap := t.heap, nextPage := t.nextPage, known := s.known + {key});
    LoadKeepsHeap(s, b, key);
    LoadKeepsNames(s, b, key);
    hide NamesInv, KnownInv;
    forall m | m in t.mappings ensures MappingOk(t, m) { assert MappingOk(s, m); }
    forall c, p ensures ActiveOk(t, c, p) {
      assert MappingsOf(t, c, p) == MappingsOf(s, c, p);
      assert ActiveOk(s, c, p);
    }
    forall c, k, d ensures ExclusiveOk(t, c, k, d) { assert ExclusiveOk(s, c, k, d); }
    forall c, k ensures DirtyOk(t, c, k) { assert DirtyOk(s, c, k); }
    forall c, k ensures CleanOk(t, c, k) && SamePage(s, t, c, k) { LoadKeepsPage(s, b, key, c, k); }
    forall c, d, k ensures ColdOk(t, c, d, k) { assert ColdOk(s, c, d, k); }
    forall c ensures SameFiles(s, t, c) {}
  }

  lemma LoadKeepsNames(s: State, b: BranchId, key: PageKey)
    requires Inv(s) && b in s.branches && Ident(s, b, key).Some?
    ensures NamesInv(LoadKnown(s, b, key)) && KnownInv(LoadKnown(s, b, key))
  {
    var t := LoadKnown(s, b, key);
    forall c ensures BranchOk(t, c) { assert BranchOk(s, c); }
    forall c, d, n, m ensures ObjectOk(t, c, d, n, m) { assert ObjectOk(s, c, d, n, m); }
    forall i | i in t.pages ensures Seen(t, i) { LoadKeepsSeen(s, b, key, i); }
  }

  lemma LoadKeepsHeap(s: State, b: BranchId, key: PageKey)
    requires HeapInv(s) && b in s.branches && Ident(s, b, key).Some?
    ensures HeapInv(LoadKnown(s, b, key))
  {
  }

  lemma LoadKeepsSeen(s: State, b: BranchId, key: PageKey, i: PageIdentity)
    requires KnownInv(s) && b in s.branches && Ident(s, b, key).Some? && i in LoadKnown(s, b, key).pages
    ensures Seen(LoadKnown(s, b, key), i)
  {
    var t := LoadKnown(s, b, key);
    if Ident(s, b, key) == Some(i) {
      assert Ident(t, b, key) == Some(i);
    } else {
      assert Seen(s, i);
      var c, k :| c in s.branches && k in s.known && Ident(s, c, k) == Some(i);
      assert Ident(t, c, k) == Some(i);
    }
  }

  lemma LoadKeepsPage(s: State, b: BranchId, key: PageKey, c: BranchId, k: PageKey)
    requires Inv(s) && b in s.branches && Ident(s, b, key).Some?
    ensures var t := LoadKnown(s, b, key);
      CleanOk(t, c, k) && SamePage(s, t, c, k)
  {
    var t := LoadKnown(s, b, key);
    var id := Ident(s, b, key).value;
    assert CleanOk(s, c, k);
    assert WriteMapped(t, c, k) == WriteMapped(s, c, k);
    if c in s.branches && id !in s.pages && Ident(s, c, k) == Some(id) {
      IdentityNamesKey(s, b, key, c, k);
      assert ColdOk(s, b, c, key);
    }
  }

  // ---------------------------------------------------------------------
  // Copy on write
  // ---------------------------------------------------------------------

  ghost predicate CowReady(s: State, b: BranchId, key: PageKey) {
    && Inv(s) && b in s.branches && Resident(s, b, key).Some? && key in s.known
    && Active(s.branches[b], Resident(s, b, key).value) == 0
  }

  /** Copy on write renames one page of one branch, to a name nobody has. */
  lemma CowNames(s: State, b: BranchId, key: PageKey, c: BranchId, k: PageKey)
    requires CowReady(s, b, key)
    ensures var t := CopyOnWrite(s, b, key);
      && (c in s.branches <==> c in t.branches)
      && (c in s.branches && (c != b || k != key) ==> Ident(t, c, k) == Ident(s, c, k))
      && Ident(t, b, key).Some? && Ident(t, b, key).value.version == s.nextVersion
      && (c in s.branches ==> Ident(s, c, k) != Ident(t, b, key))
  {
    assert BranchOk(s, b) && BranchOk(s, c);
  }

  /** The cache holds the new name, and the old one exactly while some branch sees it. */
  lemma CowPages(s: State, b: BranchId, key: PageKey, c: BranchId, k: PageKey)
    requires CowReady(s, b, key) && c in s.branches && Ident(s, c, k).Some? && (c != b || k != key)
    ensures var t := CopyOnWrite(s, b, key);
      && (Ident(s, c, k).value in s.pages <==> Ident(s, c, k).value in t.pages)
      && Resident(t, c, k) == Resident(s, c, k)
  {
    var t := CopyOnWrite(s, b, key);
    CowNames(s, b, key, c, k);
    if Ident(s, c, k) == Ident(s, b, key) {
      IdentityNamesKey(s, c, k, b, key);
      assert NameOf(t.branches[c].store.names, key) == Ident(s, b, key);
    }
  }

  lemma CowKeepsInv(s: State, b: BranchId, key: PageKey)
    requires CowReady(s, b, key)
    ensures var t := CopyOnWrite(s, b, key);
      && Inv(t) && SameBytes(s, t) && Resident(t, b, key).Some? && key in t.known
      && key in t.branches[b].exclusive
  {
    hide NamesInv, HeapInv, ActiveInv, CleanOk, ColdOk, ExclusiveOk, DirtyOk, MappingOk, Seen;
    var t := CopyOnWrite(s, b, key);
    CowNames(s, b, key, b, key);
    CowKeepsNames(s, b, key);
    CowKeepsHeap(s, b, key);
    CowKeepsCounts(s, b, key);
    forall i | i in t.pages ensures Seen(t, i) { CowKeepsSeen(s, b, key, i); }
    forall m | m in t.mappings ensures MappingOk(t, m) { CowKeepsMapping(s, b, key, m); }
    forall c, k, d ensures ExclusiveOk(t, c, k, d) { CowKeepsExclusive(s, b, key, c, k, d); }
    forall c, k ensures DirtyOk(t, c, k) && CleanOk(t, c, k) && SamePage(s, t, c, k) { CowKeepsPage(s, b, key, c, k); }
    forall c, d, k ensures ColdOk(t, c, d, k) { CowKeepsCold(s, b, key, c, d, k); }
    forall c ensures SameFiles(s, t, c) {}
  }

  lemma CowKeepsNames(s: State, b: BranchId, key: PageKey)
    requires CowReady(s, b, key)
    ensures NamesInv(CopyOnWrite(s, b, key))
  {
    var t := CopyOnWrite(s, b, key);
    forall c ensures BranchOk(t, c) { assert BranchOk(s, c); }
    forall c, d, n, m ensures ObjectOk(t, c, d, n, m) { assert ObjectOk(s, c, d, n, m); }
  }

  lemma CowKeepsCounts(s: State, b: BranchId, key: PageKey)
    requires CowReady(s, b, key)
    ensures ActiveInv(CopyOnWrite(s, b, key))
  {
    var t := CopyOnWrite(s, b, key);
    forall c, p ensures ActiveOk(t, c, p) {
      assert MappingsOf(t, c, p) == MappingsOf(s, c, p);
      assert ActiveOk(s, c, p);
    }
  }

  lemma CowKeepsHeap(s: State, b: BranchId, key: PageKey)
    requires CowReady(s, b, key)
    ensures HeapInv(CopyOnWrite(s, b, key))
  {
  }

  lemma CowKeepsSeen(s: State, b: BranchId, key: PageKey, i: PageIdentity)
    requires CowReady(s, b, key) && i in CopyOnWrite(s, b, key).pages
    ensures Seen(CopyOnWrite(s, b, key), i)
  {
    var t := CopyOnWrite(s, b, key);
    CowNames(s, b, key, b, key);
    if Ident(t, b, key) != Some(i) {
      assert Seen(s, i);
      var c, k :| c in s.branches && k in s.known && Ident(s, c, k) == Some(i);
      if c == b && k == key {
        var d :| d in t.branches && NameOf(t.branches[d].store.names, key) == Some(i);
        assert Ident(t, d, key) == Some(i);
      } else {
        CowNames(s, b, key, c, k);
        assert Ident(t, c, k) == Some(i);
      }
    }
  }

  lemma CowKeepsMapping(s: State, b: BranchId, key: PageKey, m: Mapping)
    requires CowReady(s, b, key) && m in s.mappings
    ensures MappingOk(CopyOnWrite(s, b, key), m)
  {
    assert MappingOk(s, m);
    assert ActiveOk(s, m.branch, m.page);
    assert m in MappingsOf(s, m.branch, m.page);
    CowPages(s, b, key, m.branch, m.key);
  }

  lemma CowKeepsExclusive(s: State, b: BranchId, key: PageKey, c: BranchId, k: PageKey, d: BranchId)
    requires CowReady(s, b, key)
    ensures ExclusiveOk(CopyOnWrite(s, b, key), c, k, d)
  {
    assert ExclusiveOk(s, c, k, d);
    CowNames(s, b, key, c, k);
    CowNames(s, b, key, d, k);
    if c in s.branches && (c != b || k != key) && Ident(s, c, k).Some? {
      CowPages(s, b, key, c, k);
    }
  }

  lemma CowKeepsPage(s: State, b: BranchId, key: PageKey, c: BranchId, k: PageKey)
    requires CowReady(s, b, key)
    ensures var t := CopyOnWrite(s, b, key);
      DirtyOk(t, c, k) && CleanOk(t, c, k) && SamePage(s, t, c, k)
  {
    var t := CopyOnWrite(s, b, key);
    assert CleanOk(s, c, k) && DirtyOk(s, c, k);
    assert WriteMapped(t, c, k) == WriteMapped(s, c, k);
    CowNames(s, b, key, c, k);
    if c in s.branches && (c != b || k != key) && Ident(s, c, k).Some? {
      CowPages(s, b, key, c, k);
    }
  }

  lemma CowKeepsCold(s: State, b: BranchId, key: PageKey, c: BranchId, d: BranchId, k: PageKey)
    requires CowReady(s, b, key)
    ensures ColdOk(CopyOnWrite(s, b, key), c, d, k)
  {
    assert ColdOk(s, c, d, k);
    CowNames(s, b, key, c, k);
    CowNames(s, b, key, d, k);
    if c in s.branches && (c != b || k != key) && Ident(s, c, k).Some? {
      CowPages(s, b, key, c, k);
    }
  }

  // ---------------------------------------------------------------------
  // Steps that touch neither stores nor pages
  // ---------------------------------------------------------------------

  ghost predicate Quiet(s: State, t: State) {
    && t.branches.Keys == s.branches.Keys
    && (forall b {:trigger t.branches[b]} :: b in s.branches ==> t.branches[b].store == s.branches[b].store)
    && s.known <= t.known
    && t.id == s.id && t.nextBranch == s.nextBranch && t.nextPage == s.nextPage
    && t.nextObject == s.nextObject && t.nextVersion == s.nextVersion
    && t.pages == s.pages && t.heap == s.heap
  }

  lemma QuietKeepsPages(s: State, t: State)
    requires Inv(s) && Quiet(s, t)
    ensures NamesInv(t) && HeapInv(t) && KnownInv(t) && ColdInv(t) && SameBytes(s, t)
    ensures forall b, key {:trigger Ident(t, b, key)} :: b in s.branches ==> Ident(t, b, key) == Ident(s, b, key)
    ensures forall b, key {:trigger Resident(t, b, key)} :: b in s.branches ==> Resident(t, b, key) == Resident(s, b, key)
  {
    forall c ensures BranchOk(t, c) { assert BranchOk(s, c); }
    forall c, d, n, m ensures ObjectOk(t, c, d, n, m) { assert ObjectOk(s, c, d, n, m); }
    forall i | i in t.pages ensures Seen(t, i) {
      assert Seen(s, i);
      var c, k :| c in s.branches && k in s.known && Ident(s, c, k) == Some(i);
      assert Ident(t, c, k) == Some(i);
    }
    forall c, d, k ensures ColdOk(t, c, d, k) { assert ColdOk(s, c, d, k); }
    forall c ensures SameFiles(s, t, c) {}
    forall c, k ensures SamePage(s, t, c, k) {}
  }

  // ---------------------------------------------------------------------
  // Granting and returning mappings
  // ---------------------------------------------------------------------

  lemma GrantKeepsInv(s: State, b: BranchId, key: PageKey, flags: MapFlags)
    requires Inv(s) && b in s.branches && Resident(s, b, key).Some? && key in s.known
    requires flags.write ==> key in s.branches[b].exclusive
    ensures var (t, m) := Grant(s, b, key, flags);
      Inv(t) && SameBytes(s, t) && m in t.mappings
  {
    var (t, g) := Grant(s, b, key, flags);
    QuietKeepsPages(s, t);
    forall m | m in t.mappings ensures MappingOk(t, m) { if m != g { assert MappingOk(s, m); } }
    forall c, p ensures ActiveOk(t, c, p) { GrantCounts(s, b, key, flags, c, p); }
    forall c, k, d ensures ExclusiveOk(t, c, k, d) { assert ExclusiveOk(s, c, k, d); }
    forall c, k ensures DirtyOk(t, c, k) { assert DirtyOk(s, c, k); }
    forall c, k ensures CleanOk(t, c, k) {
      assert CleanOk(s, c, k);
      assert WriteMapped(s, c, k) ==> WriteMapped(t, c, k);
    }
  }

  lemma GrantCounts(s: State, b: BranchId, key: PageKey, flags: MapFlags, c: BranchId, p: PageId)
    requires Inv(s) && b in s.branches && Resident(s, b, key).Some?
    ensures ActiveOk(Grant(s, b, key, flags).0, c, p)
  {
    var (t, g) := Grant(s, b, key, flags);
    assert ActiveOk(s, c, p);
    assert g in s.mappings ==> MappingOk(s, g);
    if c == b && p == g.page {
      assert MappingsOf(t, c, p) == MappingsOf(s, c, p) + {g};
    } else {
      assert MappingsOf(t, c, p) == MappingsOf(s, c, p);
    }
  }

  /** A mapping that is still out can be returned, by its own branch and no other. */
  lemma UnmapSucceeds(s: State, b: BranchId, m: Mapping)
    requires Inv(s) && m in s.mappings
    ensures Unmap(s, b, m).1.Ok? <==> b == m.branch
    ensures m.branch in s.branches && 0 < Active(s.branches[m.branch], m.page)
  {
    assert MappingOk(s, m);
    assert ActiveOk(s, m.branch, m.page);
    assert m in MappingsOf(s, m.branch, m.page);
  }

  lemma UnmapKeepsInv(s: State, m: Mapping)
    requires Inv(s) && m in s.mappings
    ensures m.branch in s.branches
    ensures var t := Unmap(s, m.branch, m).0;
      && Inv(t) && SameBytes(s, t) && t.branches.Keys == s.branches.Keys
      && t.mappings == s.mappings - {m}
      && t.branches[m.branch].dirty == s.branches[m.branch].dirty + (if m.flags.write then {m.key} else {})
  {
    var t := Unmap(s, m.branch, m).0;
    UnmapSucceeds(s, m.branch, m);
    QuietKeepsPages(s, t);
    forall l | l in t.mappings ensures MappingOk(t, l) { assert MappingOk(s, l); }
    forall c, p ensures ActiveOk(t, c, p) { UnmapCounts(s, m, c, p); }
    forall c, k, d ensures ExclusiveOk(t, c, k, d) { assert ExclusiveOk(s, c, k, d); }
    forall c, k ensures DirtyOk(t, c, k) {
      assert DirtyOk(s, c, k);
      assert MappingOk(s, m);
    }
    forall c, k ensures CleanOk(t, c, k) { UnmapKeepsClean(s, m, c, k); }
  }

  lemma UnmapCounts(s: State, m: Mapping, c: BranchId, p: PageId)
    requires Inv(s) && m in s.mappings
    ensures ActiveOk(Unmap(s, m.branch, m).0, c, p)
  {
    var t := Unmap(s, m.branch, m).0;
    UnmapSucceeds(s, m.branch, m);
    assert ActiveOk(s, c, p);
    if c == m.branch && p == m.page {
      assert MappingsOf(t, c, p) == MappingsOf(s, c, p) - {m};
    } else {
      assert MappingsOf(t, c, p) == MappingsOf(s, c, p);
    }
  }

  lemma UnmapKeepsClean(s: State, m: Mapping, c: BranchId, k: PageKey)
    requires Inv(s) && m in s.mappings
    ensures CleanOk(Unmap(s, m.branch, m).0, c, k)
  {
    var t := Unmap(s, m.branch, m).0;
    UnmapSucceeds(s, m.branch, m);
    assert CleanOk(s, c, k);
    if WriteMapped(s, c, k) {
      var l :| l in s.mappings && l.branch == c && l.key == k && l.flags.write;
      assert l == m || l in t.mappings;
    }
  }

  // ---------------------------------------------------------------------
  // Opening and closing
  // ---------------------------------------------------------------------

  /** Open counts are not part of the invariant. */
  lemma HandlesKeepInv(s: State, t: State)
    requires Inv(s) && Quiet(s, t) && t.known == s.known && t.nextHandle == s.nextHandle && t.mappings == s.mappings
    requires forall b {:trigger t.branches[b]} :: b in s.branches ==>
      && t.branches[b].active == s.branches[b].active
      && t.branches[b].exclusive <= s.branches[b].exclusive
      && t.branches[b].dirty == s.branches[b].dirty
      && (t.branches[b].exclusive == s.branches[b].exclusive || s.branches[b].active == map[])
    ensures Inv(t) && SameBytes(s, t)
  {
    QuietKeepsPages(s, t);
    forall m | m in t.mappings ensures MappingOk(t, m) {
      UnmapSucceeds(s, m.branch, m);
      assert MappingOk(s, m);
    }
    forall c, p ensures ActiveOk(t, c, p) {
      assert MappingsOf(t, c, p) == MappingsOf(s, c, p);
      assert ActiveOk(s, c, p);
    }
    forall c, k, d ensures ExclusiveOk(t, c, k, d) { assert ExclusiveOk(s, c, k, d); }
    forall c, k ensures DirtyOk(t, c, k) { assert DirtyOk(s, c, k); }
    forall c, k ensures CleanOk(t, c, k) {
      assert CleanOk(s, c, k);
      assert WriteMapped(t, c, k) == WriteMapped(s, c, k);
    }
  }

  lemma OpenKeepsInv(s: State, b: BranchId, node: NodeId, ok: bool)
    requires Inv(s)
    ensures var t := Open(s, b, node, ok).0;
      Inv(t) && SameBytes(s, t) && t.branches.Keys == s.branches.Keys
  {
    hide Inv, SameBytes;
    var t := Open(s, b, node, ok).0;
    assert t == s.(branches := t.branches);
    HandlesKeepInv(s, t);
  }

  lemma CloseKeepsInv(s: State, b: BranchId, node: NodeId, ok: bool)
    requires Inv(s)
    ensures var t := Close(s, b, node, ok).0;
      Inv(t) && SameBytes(s, t) && t.branches.Keys == s.branches.Keys
  {
    hide Inv, SameBytes;
    var t := Close(s, b, node, ok).0;
    assert t == s.(branches := t.branches);
    HandlesKeepInv(s, t);
  }

  // ---------------------------------------------------------------------
  // Forking
  // ---------------------------------------------------------------------

  /** The last half of a fork: the child appears beside a source with nothing exclusive. */
  function AddChild(s: State, source: BranchId): State
    requires source in s.branches
  {
    var br := s.branches[source];
    s.(nextBranch := s.nextBranch + 1, branches := s.branches[s.nextBranch := FreshBranch(br.store).(dirty := br.dirty)])
  }

  /** The child sees exactly what the source sees. */
  ghost predicate Copied(s: State, t: State, source: BranchId, child: BranchId) {
    && source in s.branches && child !in s.branches && t.branches.Keys == s.branches.Keys + {child}
    && t.branches[child].store == s.branches[source].store
    && (forall key {:trigger PageBytes(t, child, key)} :: PageBytes(t, child, key) == PageBytes(s, source, key))
  }

  /** Reading a branch of the forked state through the branch it came from. */
  function Origin(s: State, source: BranchId, b: BranchId): BranchId {
    if b == s.nextBranch then source else b
  }

  lemma AddChildKeepsNames(s: State, source: BranchId)
    requires Inv(s) && source in s.branches
    ensures var t := AddChild(s, source);
      NamesInv(t) && KnownInv(t) && s.nextBranch !in s.branches
  {
    var t := AddChild(s, source);
    assert BranchOk(s, s.nextBranch);
    forall c ensures BranchOk(t, c) { assert BranchOk(s, Origin(s, source, c)); }
    forall c, d, n, m ensures ObjectOk(t, c, d, n, m) {
      assert ObjectOk(s, Origin(s, source, c), Origin(s, source, d), n, m);
    }
    forall i | i in t.pages ensures Seen(t, i) {
      assert Seen(s, i);
      var c, k :| c in s.branches && k in s.known && Ident(s, c, k) == Some(i);
      assert Ident(t, c, k) == Some(i);
    }
  }

  lemma AddChildKeepsInv(s: State, source: BranchId)
    requires Inv(s) && source in s.branches && s.branches[source].exclusive == {} && s.branches[source].active == map[]
    ensures var t := AddChild(s, source);
      Inv(t) && SameBytes(s, t) && Copied(s, t, source, s.nextBranch)
  {
    var t := AddChild(s, source);
    AddChildKeepsNames(s, source);
    hide NamesInv, KnownInv;
    forall m | m in t.mappings ensures MappingOk(t, m) { assert MappingOk(s, m); }
    forall c, p ensures ActiveOk(t, c, p) { AddChildCounts(s, source, c, p); }
    forall c, k, d ensures ExclusiveOk(t, c, k, d) {
      assert ExclusiveOk(s, c, k, d);
      assert ExclusiveOk(s, c, k, source);
    }
    forall c, k ensures DirtyOk(t, c, k) { assert DirtyOk(s, Origin(s, source, c), k); }
    forall c, k ensures CleanOk(t, c, k) { AddChildKeepsClean(s, source, c, k); }
    forall c, d, k ensures ColdOk(t, c, d, k) { assert ColdOk(s, Origin(s, source, c), Origin(s, source, d), k); }
    forall c ensures SameFiles(s, t, c) {}
    forall c, k ensures SamePage(s, t, c, k) {}
  }

  lemma AddChildCounts(s: State, source: BranchId, c: BranchId, p: PageId)
    requires Inv(s) && source in s.branches
    ensures ActiveOk(AddChild(s, source), c, p)
  {
    var t := AddChild(s, source);
    assert MappingsOf(t, c, p) == MappingsOf(s, c, p);
    assert ActiveOk(s, c, p);
    forall m | m in s.mappings ensures m.branch < s.nextBranch {
      assert MappingOk(s, m) && BranchOk(s, m.branch);
    }
  }

  lemma AddChildKeepsClean(s: State, source: BranchId, c: BranchId, k: PageKey)
    requires Inv(s) && source in s.branches && s.branches[source].active == map[]
    ensures CleanOk(AddChild(s, source), c, k)
  {
    var t := AddChild(s, source);
    assert CleanOk(s, Origin(s, source, c), k);
    if c == s.nextBranch && WriteMapped(s, source, k) {
      var m :| m in s.mappings && m.branch == source && m.key == k && m.flags.write;
      UnmapSucceeds(s, source, m);
    } else if c != s.nextBranch && WriteMapped(s, c, k) {
      var m :| m in s.mappings && m.branch == c && m.key == k && m.flags.write;
      assert m in t.mappings;
    }
  }

  lemma ForkKeepsInv(s: State, source: BranchId)
    requires Inv(s)
    ensures var (t, r) := Fork(s, source);
      && Inv(t) && SameBytes(s, t)
      && (r.Ok? ==> r.value == s.nextBranch && Copied(s, t, source, r.value))
      && (r.Err? ==> t.branches.Keys == s.branches.Keys)
  {
    var (t, r) := Fork(s, source);
    if source in s.branches && s.branches[source].active == map[] {
      var s1 := s.(branches := s.branches[source := s.branches[source].(exclusive := {})]);
      HandlesKeepInv(s, s1);
      if s.nextBranch != U64_MAX {
        assert t == AddChild(s1, source);
        AddChildKeepsInv(s1, source);
        SameBytesTransitive(s, s1, t);
        assert SamePage(s, s1, source, PageKey(0, 0));
        forall key ensures PageBytes(t, s.nextBranch, key) == PageBytes(s, source, key) {
          assert SamePage(s, s1, source, key);
        }
      }
    } else {
      HandlesKeepInv(s, s);
    }
  }

  lemma SameBytesTransitive(s: State, t: State, u: State)
    requires SameBytes(s, t) && SameBytes(t, u) && s.branches.Keys <= t.branches.Keys
    ensures SameBytes(s, u)
  {
    forall b ensures SameFiles(s, u, b) { assert SameFiles(s, t, b) && SameFiles(t, u, b); }
    forall b, key ensures SamePage(s, u, b, key) { assert SamePage(s, t, b, key) && SamePage(t, u, b, key); }
  }
}
