/** When a request for window pages succeeds, whatever its length. */
module DaxSetup {
  import opened Basics
  import opened Identities
  import opened PageCache
  import opened DaxCache
  import opened DaxWindow
  import opened DaxFork
  import CI = CacheInvariant

  /** A request: which pages of which file, and where in the window. */
  datatype Request = Request(node: NodeId, fileOffset: nat, len: nat, writable: bool, start: nat)

  function Count(q: Request): nat {
    q.len / PAGE_SIZE
  }

  /** The window offset and the file offset of page `k` of a request. */
  function WindowAt(q: Request, k: nat): nat {
    q.start + k * PAGE_SIZE
  }

  function FileAt(q: Request, k: nat): nat {
    q.fileOffset + k * PAGE_SIZE
  }

  function FileKey(q: Request, k: nat): PageKey {
    PageKey(q.node, FileAt(q, k) / PAGE_SIZE)
  }

  /** The request is page-aligned, not empty, and inside the window and 64 bits. */
  predicate WellFormed(w: Window, q: Request) {
    && q.len > 0 && Aligned(q.fileOffset) && Aligned(q.start) && Aligned(q.len)
    && w.len.Some? && q.start + q.len <= Min(w.len.value, U64_MAX) && q.fileOffset + q.len <= U64_MAX
  }

  predicate FreePage(w: Window, q: Request, k: nat) {
    WindowAt(q, k) !in w.specs
  }

  /** Page `k` is past the end of the file, or can be mapped by cache and host. */
  ghost predicate PageWorks(w: Window, q: Request, failing: set<nat>, k: nat) {
    w.branch in w.cache.branches && FileAt(q, k) < |FileOf(w.cache, w.branch, q.node)| ==>
      CanMap(w.cache, w.branch, q.node, FileAt(q, k), q.writable) && WindowAt(q, k) !in failing
  }

  /** The request can be granted. */
  ghost predicate Grantable(w: Window, q: Request, failing: set<nat>) {
    && WellFormed(w, q) && (forall k: nat {:trigger FreePage(w, q, k)} :: k < Count(q) ==> FreePage(w, q, k))
    && w.branch in w.cache.branches && q.node in w.cache.branches[w.branch].store.files
    && forall k: nat {:trigger PageWorks(w, q, failing, k)} :: k < Count(q) ==> PageWorks(w, q, failing, k)
  }

  // ---------------------------------------------------------------------
  // The checks
  // ---------------------------------------------------------------------

  /** Among aligned pages, an overlap is a page in common. */
  lemma OverlapIsAPage(w: Window, q: Request)
    requires WindowOk(w) && WellFormed(w, q)
    ensures Overlaps(w, q.start, q.len) <==> exists k: nat :: k < Count(q) && !FreePage(w, q, k)
  {
    hide CI.Inv, TableOk;
    if o :| o in w.specs && o < q.start + q.len && q.start < o + PAGE_SIZE {
      assert SpecOk(w, o);
      var k := (o - q.start) / PAGE_SIZE;
      assert WindowAt(q, k) == o && k < Count(q);
      assert !FreePage(w, q, k);
    }
    if k: nat :| k < Count(q) && !FreePage(w, q, k) {
      assert WindowAt(q, k) in w.specs && q.start < WindowAt(q, k) + PAGE_SIZE && WindowAt(q, k) < q.start + q.len;
    }
  }

  lemma ChecksPassWhen(w: Window, q: Request)
    requires WindowOk(w)
    ensures SetupError(w, q.fileOffset, q.len, q.start) == None <==>
      WellFormed(w, q) && forall k: nat {:trigger FreePage(w, q, k)} :: k < Count(q) ==> FreePage(w, q, k)
  {
    hide WindowOk, Overlaps;
    if WellFormed(w, q) {
      OverlapIsAPage(w, q);
    }
  }

  /** Which check fails: the form of the request, the window, its size, or the pages already taken. */
  lemma WhichCheckFails(w: Window, q: Request)
    requires WindowOk(w)
    ensures var e := SetupError(w, q.fileOffset, q.len, q.start);
      var formed := q.len > 0 && q.fileOffset % PAGE_SIZE == 0 && q.start % PAGE_SIZE == 0 && q.len % PAGE_SIZE == 0;
      && (e == Some(ENODEV) <==> formed && w.len.None?)
      && (e == Some(EBUSY) <==> WellFormed(w, q) && exists k: nat :: k < Count(q) && !FreePage(w, q, k))
      && (e == Some(EINVAL) <==> !formed || (w.len.Some? && !WellFormed(w, q)))
  {
    hide WindowOk, Overlaps;
    if WellFormed(w, q) {
      OverlapIsAPage(w, q);
    }
  }

  // ---------------------------------------------------------------------
  // Mapping page by page
  // ---------------------------------------------------------------------

  /** The window with the request's specs noted. */
  function Noted(w: Window, q: Request): Window {
    w.(specs := w.specs + NewSpecs(q.node, q.fileOffset, q.len, q.writable, q.start))
  }

  lemma NotedSpec(w: Window, q: Request, k: nat)
    requires SetupError(w, q.fileOffset, q.len, q.start) == None && k < Count(q)
    ensures |Pages(q.start, q.len)| == Count(q) && Pages(q.start, q.len)[k] == WindowAt(q, k)
    ensures WindowAt(q, k) in Noted(w, q).specs
    ensures Noted(w, q).specs[WindowAt(q, k)] == Spec(q.node, FileAt(q, k), q.writable)
    ensures Aligned(FileAt(q, k)) && w.len.Some? && WindowAt(q, k) + PAGE_SIZE <= w.len.value
  {
    PagesAreNew(w, q.node, q.fileOffset, q.len, q.writable, q.start);
    assert Pages(q.start, q.len)[k] in Elements(Pages(q.start, q.len));
  }

  /** What the pages from `k` on will meet is what they would have met at the start. */
  predicate PageAsBefore(w: Window, u: Window, q: Request, j: nat) {
    && WindowAt(q, j) !in u.active
    && (FileKey(q, j) in Exclusive(u) <==> FileKey(q, j) in Exclusive(w))
  }

  ghost predicate MappedAsBefore(w: Window, u: Window, q: Request, j: nat) {
    Mapped(u.cache, u.branch, FileKey(q, j)) <==> Mapped(w.cache, w.branch, FileKey(q, j))
  }

  ghost predicate Pending(w: Window, u: Window, q: Request, k: nat) {
    && TableOk(u) && SameTable(Noted(w, q), u)
    && (forall j: nat {:trigger PageAsBefore(w, u, q, j)} :: k <= j < Count(q) ==> PageAsBefore(w, u, q, j))
    && (forall j: nat {:trigger MappedAsBefore(w, u, q, j)} :: k <= j < Count(q) ==> MappedAsBefore(w, u, q, j))
  }

  /** The file is there. */
  predicate HasFile(w: Window, q: Request) {
    w.branch in w.cache.branches && q.node in w.cache.branches[w.branch].store.files
  }

  /** The next page maps exactly when its file is there and it works. */
  lemma NextPageMaps(w: Window, u: Window, q: Request, k: nat, failing: set<nat>)
    requires SetupError(w, q.fileOffset, q.len, q.start) == None && k < Count(q) && Pending(w, u, q, k)
    ensures WindowAt(q, k) in u.specs && u.len.Some?
    ensures ActivateOne(u, WindowAt(q, k), failing).1.Ok? <==> HasFile(w, q) && PageWorks(w, q, failing, k)
  {
    hide CI.Inv, CI.SameBytes, SetupError;
    var v, o := Noted(w, q), WindowAt(q, k);
    NotedSpec(w, q, k);
    SameSpecs(v, u);
    assert PageAsBefore(w, u, q, k) && MappedAsBefore(w, u, q, k);
    assert u.specs[o].node == q.node && o + PAGE_SIZE <= u.len.value;
    assert HasFile(w, q) <==> HasFile(u, q);
    if HasFile(w, q) {
      var spec := u.specs[o];
      assert InFile(v, o) <==> FileAt(q, k) < |FileOf(w.cache, w.branch, q.node)|;
      assert InFile(u, o) <==> InFile(v, o);
      if InFile(u, o) {
        MapSucceedsWhen(u.cache, u.branch, spec.node, spec.offset, spec.writable);
        CacheMaps(u.cache, u.branch, spec);
        hide MapPage, Unmap, Mapped;
        assert CanMap(u.cache, u.branch, q.node, FileAt(q, k), q.writable)
          <==> CanMap(w.cache, w.branch, q.node, FileAt(q, k), q.writable);
      }
    }
  }

  lemma NextPending(w: Window, u: Window, q: Request, k: nat, failing: set<nat>)
    requires SetupError(w, q.fileOffset, q.len, q.start) == None && k < Count(q) && Pending(w, u, q, k)
    requires WindowAt(q, k) in u.specs && u.len.Some? && ActivateOne(u, WindowAt(q, k), failing).1.Ok?
    ensures Pending(w, ActivateOne(u, WindowAt(q, k), failing).0, q, k + 1)
  {
    hide CI.Inv, CI.SameBytes, ActivateOne, SetupError;
    var o := WindowAt(q, k);
    var (t, r) := ActivateOne(u, o, failing);
    NotedSpec(w, q, k);
    SameSpecs(Noted(w, q), u);
    assert PageAsBefore(w, u, q, k);
    ActivateOneMaps(u, o, failing);
    SameTableTwice(Noted(w, q), u, t);
    assert EntryOk(t, o);
    forall j: nat | k + 1 <= j < Count(q) ensures PageAsBefore(w, t, q, j) && MappedAsBefore(w, t, q, j) {
      assert PageAsBefore(w, u, q, j) && MappedAsBefore(w, u, q, j);
      KeysDiffer(q, k, j);
      NotedSpec(w, q, j);
      OtherStaysMapped(u, t, o, r.value, FileKey(q, j));
    }
  }

  lemma KeysDiffer(q: Request, k: nat, j: nat)
    requires k < j
    ensures FileKey(q, k) != FileKey(q, j) && WindowAt(q, k) != WindowAt(q, j)
  {
    assert FileAt(q, j) >= FileAt(q, k) + PAGE_SIZE;
  }

  lemma OtherStaysMapped(u: Window, t: Window, o: nat, mapped: bool, key: PageKey)
    requires t.branch == u.branch && (!mapped ==> t == u)
    requires mapped ==> o in t.active && t.cache.mappings == u.cache.mappings + {t.active[o]} && t.active[o].key != key
    ensures Mapped(t.cache, t.branch, key) <==> Mapped(u.cache, u.branch, key)
  {
    if m :| m in u.cache.mappings && m.branch == u.branch && m.key == key {
      assert m in t.cache.mappings;
    }
  }

  lemma {:induction false} MapsFrom(w: Window, u: Window, q: Request, k: nat, failing: set<nat>, activated: seq<nat>)
    requires SetupError(w, q.fileOffset, q.len, q.start) == None && k <= Count(q) && Pending(w, u, q, k)
    requires |Pages(q.start, q.len)| == Count(q) && u.len.Some?
    requires forall i :: k <= i < Count(q) ==> Pages(q.start, q.len)[i] in u.specs
    ensures Activate(u, Pages(q.start, q.len)[k..], failing, activated).1.Ok? <==>
      k == Count(q) || (HasFile(w, q) && forall j: nat {:trigger PageWorks(w, q, failing, j)} :: k <= j < Count(q) ==> PageWorks(w, q, failing, j))
    decreases Count(q) - k
  {
    hide Pending, ActivateOne, RollBack, SetupError, PageWorks, Pages, HasFile;
    var pages := Pages(q.start, q.len);
    if k < Count(q) {
      NotedSpec(w, q, k);
      assert pages[k..][0] == WindowAt(q, k) && pages[k..][1..] == pages[k + 1..];
      NextPageMaps(w, u, q, k, failing);
      NotActive(w, u, q, k);
      var (t, r) := ActivateOne(u, WindowAt(q, k), failing);
      if r.Ok? {
        NextPending(w, u, q, k, failing);
        PendingSpecs(w, u, q, k);
        PendingSpecs(w, t, q, k + 1);
        MapsFrom(w, t, q, k + 1, failing, if r.value then activated + [WindowAt(q, k)] else activated);
      }
    }
  }

  lemma NotActive(w: Window, u: Window, q: Request, k: nat)
    requires Pending(w, u, q, k) && k < Count(q)
    ensures WindowAt(q, k) !in u.active
  {
    assert PageAsBefore(w, u, q, k);
  }

  lemma PendingSpecs(w: Window, u: Window, q: Request, k: nat)
    requires Pending(w, u, q, k)
    ensures u.specs == Noted(w, q).specs && u.len == w.len
  {
  }

  /** A request of any length succeeds exactly when it can be granted. */
  lemma SetupSucceedsWhen(w: Window, q: Request, failing: set<nat>)
    requires WindowOk(w)
    ensures Setup(w, q.node, q.fileOffset, q.len, q.writable, q.start, failing).1.Ok? <==> Grantable(w, q, failing)
  {
    ChecksPassWhen(w, q);
    if SetupError(w, q.fileOffset, q.len, q.start) == None {
      var pages := Pages(q.start, q.len);
      assert |pages| == Count(q) && Count(q) > 0;
      forall i: nat | i < Count(q) ensures pages[i] in Noted(w, q).specs { NotedSpec(w, q, i); }
      StartPending(w, q);
      hide WindowOk, Pending, Activate, PageWorks, SetupError;
      MapsFrom(w, Noted(w, q), q, 0, failing, []);
      assert pages[0..] == pages;
    }
  }

  lemma StartPending(w: Window, q: Request)
    requires WindowOk(w) && SetupError(w, q.fileOffset, q.len, q.start) == None
    ensures Pending(w, Noted(w, q), q, 0)
  {
    hide CI.Inv, CI.SameBytes;
    var v := Noted(w, q);
    PagesAreNew(w, q.node, q.fileOffset, q.len, q.writable, q.start);
    MoreSpecs(w, NewSpecs(q.node, q.fileOffset, q.len, q.writable, q.start));
    SameTableRefl(v);
    forall j: nat | j < Count(q) ensures PageAsBefore(w, v, q, j) && MappedAsBefore(w, v, q, j) {
      NotedSpec(w, q, j);
      assert Pages(q.start, q.len)[j] in Elements(Pages(q.start, q.len));
      EntriesHaveSpecs(w, WindowAt(q, j));
    }
  }
}
