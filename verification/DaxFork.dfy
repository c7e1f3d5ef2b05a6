/** Setting up, taking down, suspending and resuming the pages of a window, and forking under it. */
module DaxFork {
  import opened Basics
  import opened Identities
  import opened PageCache
  import opened DaxCache
  import opened DaxWindow
  import opened DaxResume
  import CI = CacheInvariant

  // ---------------------------------------------------------------------
  // Removing pages
  // ---------------------------------------------------------------------

  /** Remove pages one after the other, stopping at the first that has no spec. */
  function RemoveEach(w: Window, offsets: seq<nat>, removeSpec: bool): (Window, Result<(), DaxError>)
    decreases |offsets|
  {
    if offsets == [] then (w, Ok(()))
    else
      var (t, r) := RemoveOffset(w, offsets[0], removeSpec);
      if r.Err? then (t, r) else RemoveEach(t, offsets[1..], removeSpec)
  }

  /** Same window, over a cache whose branch reads the same and has the same files and open counts. */
  ghost predicate SameCache(w: Window, t: Window) {
    && t.branch == w.branch && t.len == w.len
    && (t.cache == w.cache || SameBranch(w.cache, t.cache, w.branch))
    && CI.SameBytes(w.cache, t.cache) && Exclusive(t) == Exclusive(w)
  }

  lemma RemoveOne(w: Window, o: nat, removeSpec: bool)
    requires TableOk(w) && o in w.specs
    ensures var (t, r) := RemoveOffset(w, o, removeSpec);
      && r.Ok? && TableOk(t) && SameCache(w, t)
      && t.active == w.active - {o} && t.specs == (if removeSpec then w.specs - {o} else w.specs)
      && t.cache.mappings == w.cache.mappings - MappingsAt(w, {o})
  {
    hide Unmap, CI.Inv, CI.SameBytes;
    var (t, r) := RemoveOffset(w, o, removeSpec);
    if o in w.active {
      RemoveUnmaps(w, o);
      assert MappingsAt(w, {o}) == {w.active[o]};
      var v := RemoveOffset(w, o, false).0;
      forall p ensures EntryOk(t, p) { assert EntryOk(v, p); }
      forall p, p' ensures EntriesApart(t, p, p') { assert EntriesApart(v, p, p'); }
    } else {
      SameBytesRefl(w.cache);
      assert MappingsAt(w, {o}) == {} && w.active - {o} == w.active;
      forall p ensures EntryOk(t, p) { assert EntryOk(w, p); }
      forall p, p' ensures EntriesApart(t, p, p') { assert EntriesApart(w, p, p'); }
    }
  }

  lemma SameCacheTwice(a: Window, b: Window, c: Window)
    requires SameCache(a, b) && SameCache(b, c)
    ensures SameCache(a, c)
  {
    CI.SameBytesTransitive(a.cache, b.cache, c.cache);
  }

  /** Removing pages that all have specs removes exactly them and returns their mappings. */
  lemma {:induction false} RemoveEachRemoves(w: Window, offsets: seq<nat>, removeSpec: bool)
    requires TableOk(w) && Distinct(offsets) && Elements(offsets) <= w.specs.Keys
    ensures var (t, r) := RemoveEach(w, offsets, removeSpec);
      && r.Ok? && TableOk(t) && SameCache(w, t)
      && t.active == w.active - Elements(offsets)
      && t.specs == (if removeSpec then w.specs - Elements(offsets) else w.specs)
      && t.cache.mappings == w.cache.mappings - MappingsAt(w, Elements(offsets))
    decreases |offsets|
  {
    hide TableOk, SameCache, RemoveOffset;
    if offsets == [] {
      SameCacheRefl(w);
      assert w.active - Elements(offsets) == w.active && w.specs - Elements(offsets) == w.specs;
    } else {
      var o, rest := offsets[0], offsets[1..];
      ElementsStep(offsets);
      var t := RemoveOffset(w, o, removeSpec).0;
      RemoveOne(w, o, removeSpec);
      assert o !in Elements(rest);
      RemoveEachRemoves(t, rest, removeSpec);
      SameCacheTwice(w, t, RemoveEach(t, rest, removeSpec).0);
      assert MappingsAt(w, Elements(offsets)) == MappingsAt(w, {o}) + MappingsAt(t, Elements(rest));
      assert w.active - Elements(offsets) == t.active - Elements(rest);
      assert w.specs - Elements(offsets) == (w.specs - {o}) - Elements(rest);
    }
  }

  lemma SameCacheRefl(w: Window)
    ensures SameCache(w, w)
  {
    SameBytesRefl(w.cache);
  }

  /** A removal fails exactly at the first page without a spec; the pages before it are gone. */
  lemma {:induction false} RemoveEachFails(w: Window, offsets: seq<nat>, removeSpec: bool, k: nat)
    requires TableOk(w) && Distinct(offsets) && k < |offsets|
    requires Elements(offsets[..k]) <= w.specs.Keys && offsets[k] !in w.specs
    ensures RemoveEach(w, offsets, removeSpec) == (RemoveEach(w, offsets[..k], removeSpec).0, Err(ENOENT))
    decreases k
  {
    hide TableOk, SameCache;
    if k == 0 {
      EntriesHaveSpecs(w, offsets[0]);
    } else {
      var o, rest := offsets[0], offsets[1..];
      ElementsStep(offsets[..k]);
      assert offsets[..k][0] == o && offsets[..k][1..] == rest[..k - 1];
      RemoveOne(w, o, removeSpec);
      assert o !in Elements(rest[..k - 1]) by {
        assert forall i :: 0 <= i < k - 1 ==> rest[i] != o;
      }
      RemoveEachFails(RemoveOffset(w, o, removeSpec).0, rest, removeSpec, k - 1);
    }
  }

  lemma EntriesHaveSpecs(w: Window, o: nat)
    requires TableOk(w)
    ensures o in w.active ==> o in w.specs
  {
    assert EntryOk(w, o);
  }

  lemma SpecsStay(w: Window, t: Window)
    requires WindowOk(w) && TableOk(t) && SameCache(w, t)
    requires forall o :: o in t.specs ==> o in w.specs && t.specs[o] == w.specs[o]
    ensures WindowOk(t)
  {
    hide CI.Inv, CI.SameBytes, TableOk;
    forall o ensures SpecOk(t, o) { assert SpecOk(w, o); }
  }

  // ---------------------------------------------------------------------
  // Setting pages up
  // ---------------------------------------------------------------------

  /** The window offsets of a range of pages. */
  function Pages(start: nat, len: nat): seq<nat> {
    seq(len / PAGE_SIZE, i requires 0 <= i => start + i * PAGE_SIZE)
  }

  /** Some page of the window overlaps the range. */
  predicate Overlaps(w: Window, start: nat, len: nat) {
    exists o :: o in w.specs && o < start + len && start < o + PAGE_SIZE
  }

  function NewSpecs(node: NodeId, fileOffset: nat, len: nat, writable: bool, start: nat): map<nat, Spec> {
    map o | o in Elements(Pages(start, len)) && start <= o :: Spec(node, fileOffset + (o - start), writable)
  }

  /** The checks a request must pass before anything is changed. */
  function SetupError(w: Window, fileOffset: nat, len: nat, start: nat): Option<DaxError> {
    if len == 0 || !Aligned(fileOffset) || !Aligned(start) || !Aligned(len) then Some(EINVAL)
    else if w.len.None? then Some(ENODEV)
    else if start + len > U64_MAX || start + len > w.len.value then Some(EINVAL)
    else if fileOffset + len > U64_MAX then Some(EINVAL)
    else if Overlaps(w, start, len) then Some(EBUSY)
    else None
  }

  lemma PagesAreNew(w: Window, node: NodeId, fileOffset: nat, len: nat, writable: bool, start: nat)
    requires SetupError(w, fileOffset, len, start) == None
    ensures var specs := NewSpecs(node, fileOffset, len, writable, start);
      && Elements(Pages(start, len)) == specs.Keys && Distinct(Pages(start, len))
      && (forall o :: o in specs ==> o !in w.specs && Aligned(o) && Aligned(specs[o].offset) && o + PAGE_SIZE <= start + len)
  {
    var specs, pages := NewSpecs(node, fileOffset, len, writable, start), Pages(start, len);
    forall o | o in Elements(pages)
      ensures start <= o && o !in w.specs && Aligned(o) && Aligned(fileOffset + (o - start)) && o + PAGE_SIZE <= start + len
    {
      var i :| 0 <= i < |pages| && pages[i] == o;
      assert (o - start) % PAGE_SIZE == 0 && o < start + len && start < o + PAGE_SIZE;
    }
  }

  /** Write the specs and map their pages, or leave everything as it was. */
  function Setup(w: Window, node: NodeId, fileOffset: nat, len: nat, writable: bool, start: nat, failing: set<nat>)
    : (Window, Result<(), DaxError>)
  {
    match SetupError(w, fileOffset, len, start)
    case Some(e) => (w, Err(e))
    case None =>
      PagesAreNew(w, node, fileOffset, len, writable, start);
      var specs := NewSpecs(node, fileOffset, len, writable, start);
      var v := w.(specs := w.specs + specs);
      assert forall i :: 0 <= i < |Pages(start, len)| ==> Pages(start, len)[i] in Elements(Pages(start, len));
      var (t, r) := Activate(v, Pages(start, len), failing, []);
      (if r.Err? then t.(specs := t.specs - specs.Keys) else t, r)
  }

  /** A request that fails leaves both tables and the live mappings as they were. */
  lemma SetupIsAllOrNothing(w: Window, node: NodeId, fileOffset: nat, len: nat, writable: bool, start: nat, failing: set<nat>)
    requires WindowOk(w)
    ensures var (t, r) := Setup(w, node, fileOffset, len, writable, start, failing);
      && WindowOk(t) && t.branch == w.branch && t.len == w.len && CI.SameBytes(w.cache, t.cache)
      && (r.Err? ==> t.specs == w.specs && t.active == w.active && t.cache.mappings == w.cache.mappings)
      && (r.Ok? ==>
            && SetupError(w, fileOffset, len, start) == None
            && t.specs == w.specs + NewSpecs(node, fileOffset, len, writable, start)
            && (forall o :: o in w.active ==> o in t.active && t.active[o] == w.active[o])
            && (forall o :: o in NewSpecs(node, fileOffset, len, writable, start) ==> Settled(t, o)))
  {
    SameBytesRefl(w.cache);
    if SetupError(w, fileOffset, len, start) == None {
      hide CI.Inv, CI.SameBytes, Activate, InFile, SetupError, TableOk, SameTable;
      var specs := NewSpecs(node, fileOffset, len, writable, start);
      PagesAreNew(w, node, fileOffset, len, writable, start);
      SetupActivates(w, node, fileOffset, len, writable, start, failing);
      var (t, r) := Setup(w, node, fileOffset, len, writable, start, failing);
      assert (w.specs + specs) - specs.Keys == w.specs;
      forall o ensures SpecOk(t, o) { assert SpecOk(w, o); }
    }
  }

  lemma SetupActivates(w: Window, node: NodeId, fileOffset: nat, len: nat, writable: bool, start: nat, failing: set<nat>)
    requires TableOk(w) && SetupError(w, fileOffset, len, start) == None
    ensures var specs := NewSpecs(node, fileOffset, len, writable, start);
      var (t, r) := Setup(w, node, fileOffset, len, writable, start, failing);
      && TableOk(t) && t.branch == w.branch && t.len == w.len && CI.SameBytes(w.cache, t.cache)
      && (t.cache == w.cache || SameBranch(w.cache, t.cache, w.branch))
      && (r.Err? ==> t.specs == (w.specs + specs) - specs.Keys && t.active == w.active && t.cache.mappings == w.cache.mappings)
      && (r.Ok? ==>
            && t.specs == w.specs + specs
            && (forall o :: o in w.active ==> o in t.active && t.active[o] == w.active[o])
            && (forall o :: o in specs ==> Settled(t, o) && Fits(t, o)))
  {
    hide CI.Inv, CI.SameBytes, Activate, InFile, TableOk;
    var specs, pages := NewSpecs(node, fileOffset, len, writable, start), Pages(start, len);
    PagesAreNew(w, node, fileOffset, len, writable, start);
    var v := w.(specs := w.specs + specs);
    forall i | 0 <= i < |pages| ensures pages[i] in v.specs && Aligned(v.specs[pages[i]].offset) {
      assert pages[i] in Elements(pages);
    }
    MoreSpecs(w, specs);
    assert Elements([]) == {} && v.active - {} == v.active;
    ActivateSettles(v, pages, failing, []);
    var (u, q) := Activate(v, pages, failing, []);
    var (t, r) := Setup(w, node, fileOffset, len, writable, start, failing);
    forall o | o in w.active ensures o in w.specs { EntriesHaveSpecs(w, o); }
    if r.Err? {
      FewerSpecs(u, specs.Keys);
    }
    forall o | o in specs && r.Ok? ensures Settled(t, o) && Fits(t, o) {
      var i :| 0 <= i < |pages| && pages[i] == o;
    }
  }

  /** A request leaves every live mapping of the branch in the table. */
  lemma SetupOwns(w: Window, node: NodeId, fileOffset: nat, len: nat, writable: bool, start: nat, failing: set<nat>)
    requires WindowOk(w) && OwnsAll(w)
    ensures OwnsAll(Setup(w, node, fileOffset, len, writable, start, failing).0)
  {
    if SetupError(w, fileOffset, len, start) == None {
      hide CI.Inv, CI.SameBytes, Activate, InFile, TableOk;
      var specs, pages := NewSpecs(node, fileOffset, len, writable, start), Pages(start, len);
      PagesAreNew(w, node, fileOffset, len, writable, start);
      var v := w.(specs := w.specs + specs);
      forall i | 0 <= i < |pages| ensures pages[i] in v.specs && Aligned(v.specs[pages[i]].offset) {
        assert pages[i] in Elements(pages);
      }
      MoreSpecs(w, specs);
      SameOwner(w, v);
      ActivateOwns(v, pages, failing, []);
      SameOwner(Activate(v, pages, failing, []).0, Setup(w, node, fileOffset, len, writable, start, failing).0);
    }
  }

  lemma SameOwner(w: Window, t: Window)
    requires OwnsAll(w) && t.branch == w.branch && t.active == w.active && t.cache.mappings == w.cache.mappings
    ensures OwnsAll(t)
  {
    forall m ensures Owned(t, m) { assert Owned(w, m); }
  }

  lemma MoreSpecs(w: Window, specs: map<nat, Spec>)
    requires TableOk(w) && specs.Keys !! w.specs.Keys
    ensures TableOk(w.(specs := w.specs + specs))
  {
    hide CI.Inv;
    var v := w.(specs := w.specs + specs);
    forall o ensures EntryOk(v, o) { assert EntryOk(w, o); }
    forall o, p ensures EntriesApart(v, o, p) { assert EntriesApart(w, o, p); }
  }

  lemma FewerSpecs(w: Window, gone: set<nat>)
    requires TableOk(w) && gone !! w.active.Keys
    ensures TableOk(w.(specs := w.specs - gone))
  {
    hide CI.Inv;
    var v := w.(specs := w.specs - gone);
    forall o ensures EntryOk(v, o) { assert EntryOk(w, o); }
    forall o, p ensures EntriesApart(v, o, p) { assert EntriesApart(w, o, p); }
  }

  // ---------------------------------------------------------------------
  // Suspending and resuming
  // ---------------------------------------------------------------------

  /** A list of the mapped offsets. */
  predicate Holds(w: Window, held: seq<nat>) {
    Distinct(held) && Elements(held) == w.active.Keys
  }

  function Suspend(w: Window, held: seq<nat>): Window {
    RemoveEach(w, held, false).0
  }

  /** Suspending unmaps every page and keeps every spec. */
  lemma SuspendUnmaps(w: Window, held: seq<nat>)
    requires WindowOk(w) && OwnsAll(w) && Holds(w, held)
    ensures var t := Suspend(w, held);
      && RemoveEach(w, held, false).1.Ok? && WindowOk(t) && Unmapped(t) && t.specs == w.specs && SameCache(w, t)
  {
    hide CI.Inv, CI.SameBytes;
    var t := Suspend(w, held);
    forall o | o in w.active ensures o in w.specs { EntriesHaveSpecs(w, o); }
    RemoveEachRemoves(w, held, false);
    SpecsStay(w, t);
    forall m ensures !(m in t.cache.mappings && m.branch == t.branch) { assert Owned(w, m); }
  }

  lemma SameShows(w: Window, t: Window)
    requires t.specs == w.specs && t.branch == w.branch
    requires t.cache == w.cache || SameBranch(w.cache, t.cache, w.branch)
    ensures forall o {:trigger InFile(t, o)} :: InFile(t, o) <==> InFile(w, o)
    ensures forall o, failing {:trigger Ready(t, o, failing)} :: Ready(t, o, failing) <==> Ready(w, o, failing)
  {
  }

  /**
   A suspended window resumes exactly when it has no specs, or is attached and
   no page is blocked or has its file closed; with every page settled before,
   none is blocked and the same pages are mapped again.
   */
  lemma SuspendThenResume(w: Window, held: seq<nat>, offsets: seq<nat>, failing: set<nat>)
    requires WindowOk(w) && OwnsAll(w) && Holds(w, held) && Enumerates(offsets, w)
    ensures var t := Suspend(w, held);
      && (forall i :: 0 <= i < |offsets| ==> offsets[i] in t.specs)
      && var (u, r) := Resume(t, offsets, failing);
         && (r.Ok? <==> CanResume(w, failing))
         && (r.Ok? ==> forall o :: o in u.active <==> o in w.specs && InFile(w, o))
         && (r.Err? ==> u.active == map[])
         && (r.Err? && w.len.None? ==> r.error == ENODEV)
         && ((forall o :: o in w.specs ==> Settled(w, o)) ==>
               && (CanResume(w, failing) <==> w.specs == map[] || (w.len.Some? && forall o :: o in w.specs ==> Ready(w, o, failing)))
               && (r.Ok? ==> u.active.Keys == w.active.Keys))
  {
    hide CI.Inv, CI.SameBytes, Resume, Blocked, Ready, CanResume, InFile;
    var t := Suspend(w, held);
    SuspendUnmaps(w, held);
    hide Suspend;
    SameShows(w, t);
    ResumesWhen(t, offsets, failing);
    ResumedPages(t, offsets, failing);
    SameCanResume(w, t, failing);
    if forall o :: o in w.specs ==> Settled(w, o) {
      forall o ensures o in w.active <==> o in w.specs && InFile(w, o) {
        assert EntryOk(w, o);
        EntriesHaveSpecs(w, o);
      }
      forall p | p in w.specs ensures !Blocked(w, p) { WritableIsExclusive(w, w, p); }
      assert CanResume(w, failing) <==> w.specs == map[] || (w.len.Some? && forall o :: o in w.specs ==> Ready(w, o, failing)) by {
        hide *;
        UnblockedResumes(w, failing);
      }
    }
  }

  lemma UnblockedResumes(w: Window, failing: set<nat>)
    requires forall p :: p in w.specs ==> !Blocked(w, p)
    ensures CanResume(w, failing) <==> w.specs == map[] || (w.len.Some? && forall o :: o in w.specs ==> Ready(w, o, failing))
  {
    hide Blocked, Ready;
  }

  /** Whether a window can resume depends on its specs, its files and what is exclusive. */
  lemma SameCanResume(w: Window, t: Window, failing: set<nat>)
    requires t.specs == w.specs && t.len == w.len && Exclusive(t) == Exclusive(w)
    requires forall o {:trigger InFile(t, o)} :: InFile(t, o) <==> InFile(w, o)
    requires forall o, failing {:trigger Ready(t, o, failing)} :: Ready(t, o, failing) <==> Ready(w, o, failing)
    ensures CanResume(t, failing) <==> CanResume(w, failing)
  {
    hide Ready, InFile, Exclusive;
    forall p ensures Blocked(t, p) <==> Blocked(w, p) { SameBlocked(w, t, p); }
    hide Blocked;
    forall p ensures Passes(t, p, failing) <==> Passes(w, p, failing) {
      assert Ready(t, p, failing) <==> Ready(w, p, failing);
    }
  }

  lemma SameBlocked(w: Window, t: Window, p: nat)
    requires t.specs == w.specs && Exclusive(t) == Exclusive(w)
    requires forall o {:trigger InFile(t, o)} :: InFile(t, o) <==> InFile(w, o)
    ensures Blocked(t, p) <==> Blocked(w, p)
  {
    hide Exclusive;
    assert InFile(t, p) <==> InFile(w, p);
    if p in w.specs {
      var key := KeyOf(w.specs[p]);
      forall o: nat ensures (Shows(t, o, key) <==> Shows(w, o, key)) && (ShowsWritable(t, o, key) <==> ShowsWritable(w, o, key)) {
        assert InFile(t, o) <==> InFile(w, o);
      }
    }
  }

  /** A page mapped writable is exclusive, so it does not block. */
  lemma WritableIsExclusive(w: Window, t: Window, p: nat)
    requires WindowOk(w) && p in w.specs && Settled(w, p)
    requires t.specs == w.specs && Exclusive(t) == Exclusive(w) && (InFile(t, p) <==> InFile(w, p))
    ensures !Blocked(t, p)
  {
    if InFile(w, p) && w.specs[p].writable {
      assert EntryOk(w, p);
      assert CI.MappingOk(w.cache, w.active[p]);
    }
  }

  /** A resumed window maps exactly the pages inside their files. */
  lemma ResumedPages(w: Window, offsets: seq<nat>, failing: set<nat>)
    requires WindowOk(w) && w.active == map[] && Enumerates(offsets, w)
    requires forall i :: 0 <= i < |offsets| ==> offsets[i] in w.specs
    ensures var (u, r) := Resume(w, offsets, failing);
      && WindowOk(u) && CI.SameBytes(w.cache, u.cache)
      && (r.Ok? ==> forall o :: o in u.active <==> o in w.specs && InFile(w, o))
      && (r.Err? ==> u.active == map[])
      && (OwnsAll(w) ==> OwnsAll(u))
  {
    hide CI.Inv, CI.SameBytes, Activate, InFile, OwnsAll;
    SameBytesRefl(w.cache);
    forall o | o in w.specs ensures o in Elements(offsets) { }
    if offsets != [] && w.len.Some? {
      var (u, r) := Activate(w, offsets, failing, []);
      forall i | 0 <= i < |offsets| ensures Aligned(w.specs[offsets[i]].offset) { assert SpecOk(w, offsets[i]); }
      ActivateSettles(w, offsets, failing, []);
      SameSpecs(w, u);
      ActivatedWindow(w, u);
      if OwnsAll(w) {
        ActivateOwns(w, offsets, failing, []);
      }
      forall o ensures r.Ok? ==> (o in u.active <==> o in w.specs && InFile(w, o)) {
        assert EntryOk(u, o) && (InFile(u, o) <==> InFile(w, o));
        EntriesHaveSpecs(u, o);
        if o in w.specs && r.Ok? {
          var i :| 0 <= i < |offsets| && offsets[i] == o;
          assert Settled(u, offsets[i]);
        }
      }
    }
  }

  lemma ActivatedWindow(w: Window, u: Window)
    requires WindowOk(w) && TableOk(u) && SameTable(w, u)
    ensures WindowOk(u)
  {
    hide CI.Inv, CI.SameBytes, TableOk;
    forall o ensures SpecOk(u, o) { assert SpecOk(w, o); }
  }

  // ---------------------------------------------------------------------
  // Forking
  // ---------------------------------------------------------------------

  /** The window's branch forks, and nothing of it is exclusive any more. */
  function ForkUnder(w: Window): Window {
    w.(cache := PageCache.Fork(w.cache, w.branch).0)
  }

  /** The first writable mapping of a file page comes after a read-only one. */
  ghost predicate ReadBeforeWrite(w: Window, p: nat) {
    && InFile(w, p) && w.specs[p].writable
    && (exists o: nat {:trigger Shows(w, o, KeyOf(w.specs[p]))} :: o < p && Shows(w, o, KeyOf(w.specs[p])))
    && (forall o: nat {:trigger ShowsWritable(w, o, KeyOf(w.specs[p]))} :: o < p ==> !ShowsWritable(w, o, KeyOf(w.specs[p])))
  }

  lemma NoActiveCounts(w: Window)
    requires WindowOk(w) && Unmapped(w) && w.branch in w.cache.branches
    ensures w.cache.branches[w.branch].active == map[]
  {
    var active := w.cache.branches[w.branch].active;
    forall page ensures page !in active {
      assert CI.ActiveOk(w.cache, w.branch, page);
      var held := CI.MappingsOf(w.cache, w.branch, page);
      forall m ensures m !in held { assert !Mapped(w.cache, w.branch, m.key); }
      assert held == {};
    }
  }

  lemma ForkUnderKeeps(w: Window)
    requires WindowOk(w) && Unmapped(w)
    ensures PageCache.Fork(w.cache, w.branch).1.Ok? <==> w.branch in w.cache.branches && w.cache.nextBranch != U64_MAX
    ensures var v := ForkUnder(w);
      && WindowOk(v) && Unmapped(v) && Exclusive(v) == {}
      && (forall o {:trigger InFile(v, o)} :: InFile(v, o) <==> InFile(w, o))
      && (forall o, failing {:trigger Ready(v, o, failing)} :: Ready(v, o, failing) <==> Ready(w, o, failing))
  {
    if w.branch in w.cache.branches {
      NoActiveCounts(w);
      ForkIsNew(w);
    }
    CI.ForkKeepsInv(w.cache, w.branch);
    hide CI.Inv, CI.SameBytes;
    var v := ForkUnder(w);
    forall o ensures SpecOk(v, o) { assert SpecOk(w, o); }
    forall o ensures EntryOk(v, o) { }
    forall o, p ensures EntriesApart(v, o, p) { }
    forall key ensures !Mapped(v.cache, v.branch, key) { assert !Mapped(w.cache, w.branch, key); }
  }

  lemma ForkIsNew(w: Window)
    requires CI.Inv(w.cache) && w.branch in w.cache.branches
    ensures w.branch < w.cache.nextBranch
  {
    assert CI.BranchOk(w.cache, w.branch);
  }

  /** A shared window blocks exactly where a page is read before it is written. */
  lemma SharedBlocks(w: Window, p: nat)
    requires Exclusive(w) == {}
    ensures Blocked(w, p) <==> ReadBeforeWrite(w, p)
  {
  }

  lemma SameReadBeforeWrite(w: Window, v: Window, p: nat)
    requires v.specs == w.specs && (forall o {:trigger InFile(v, o)} :: InFile(v, o) <==> InFile(w, o))
    ensures ReadBeforeWrite(v, p) <==> ReadBeforeWrite(w, p)
  {
    assert InFile(v, p) <==> InFile(w, p);
    if p in w.specs {
      var key := KeyOf(w.specs[p]);
      forall o: nat ensures (Shows(v, o, key) <==> Shows(w, o, key)) && (ShowsWritable(v, o, key) <==> ShowsWritable(w, o, key)) {
        assert InFile(v, o) <==> InFile(w, o);
      }
    }
  }

  /** A window that is no longer exclusive can show its specs. */
  ghost predicate CanResumeShared(w: Window, failing: set<nat>) {
    w.specs == map[] || (w.len.Some? && forall o :: o in w.specs ==> Ready(w, o, failing) && !ReadBeforeWrite(w, o))
  }

  /**
   A fork under a window maps its pages again exactly when it has none, or it is
   attached, their files are open and no page is first written after being
   read; otherwise it maps none of them. The cache branch itself forks whenever
   it exists and ids are left, also when the window does not come back.
   */
  lemma ForkResumesWhen(w: Window, held: seq<nat>, offsets: seq<nat>, failing: set<nat>)
    requires WindowOk(w) && OwnsAll(w) && Holds(w, held) && Enumerates(offsets, w)
    ensures var t := Suspend(w, held);
      && (PageCache.Fork(t.cache, t.branch).1.Ok? <==> w.branch in w.cache.branches && w.cache.nextBranch != U64_MAX)
      && (forall i :: 0 <= i < |offsets| ==> offsets[i] in ForkUnder(t).specs)
      && var (u, r) := Resume(ForkUnder(t), offsets, failing);
         && WindowOk(u) && OwnsAll(u)
         && (r.Ok? <==> CanResumeShared(w, failing))
         && (r.Ok? ==> forall o :: o in u.active <==> o in w.specs && InFile(w, o))
         && (r.Err? ==> u.active == map[])
         && (r.Err? ==> if w.len.None? then r.error == ENODEV
                        else exists o :: FailsAt(ForkUnder(t), o, failing, r.error))
  {
    hide CI.Inv, CI.SameBytes, Resume, Blocked, Ready, ReadBeforeWrite, InFile, Exclusive, OwnsAll, FailsAt, CanResume;
    var t := Suspend(w, held);
    SuspendUnmaps(w, held);
    hide Suspend;
    SameShows(w, t);
    assert (t.branch in t.cache.branches <==> w.branch in w.cache.branches) && t.cache.nextBranch == w.cache.nextBranch;
    ForkUnderKeeps(t);
    var v := ForkUnder(t);
    hide PageCache.Fork;
    UnmappedOwnsAll(v);
    ResumesWhen(v, offsets, failing);
    ResumedPages(v, offsets, failing);
    forall p ensures (InFile(v, p) <==> InFile(w, p)) && (Passes(v, p, failing) <==> Ready(w, p, failing) && !ReadBeforeWrite(w, p)) {
      assert InFile(t, p) <==> InFile(w, p);
      assert Ready(v, p, failing) <==> Ready(t, p, failing);
      SharedBlocks(v, p);
      SameReadBeforeWrite(t, v, p);
      SameReadBeforeWrite(w, t, p);
    }
    SharedResumes(w, v, failing);
  }

  lemma SharedResumes(w: Window, v: Window, failing: set<nat>)
    requires v.specs == w.specs && v.len == w.len
    requires forall p :: Passes(v, p, failing) <==> Ready(w, p, failing) && !ReadBeforeWrite(w, p)
    ensures CanResume(v, failing) <==> CanResumeShared(w, failing)
  {
    hide Passes, Ready, ReadBeforeWrite;
  }

  lemma UnmappedOwnsAll(w: Window)
    requires Unmapped(w)
    ensures OwnsAll(w)
  {
    forall m ensures Owned(w, m) { assert !Mapped(w.cache, w.branch, m.key); }
  }

  // ---------------------------------------------------------------------
  // A fork that loses the window's pages
  // ---------------------------------------------------------------------

  /** One page of an open file is set up when it can be mapped. */
  lemma SetupOnePage(w: Window, node: NodeId, writable: bool, start: nat)
    requires WindowOk(w) && SetupError(w, 0, PAGE_SIZE, start) == None
    requires w.branch in w.cache.branches && 0 < |FileOf(w.cache, w.branch, node)|
    requires CanMap(w.cache, w.branch, node, 0, writable)
    ensures Setup(w, node, 0, PAGE_SIZE, writable, start, {}).1.Ok?
  {
    PagesAreNew(w, node, 0, PAGE_SIZE, writable, start);
    var specs := NewSpecs(node, 0, PAGE_SIZE, writable, start);
    var v := w.(specs := w.specs + specs);
    assert Pages(start, PAGE_SIZE) == [start];
    assert [start][0] in Elements([start]) && v.specs[start] == Spec(node, 0, writable);
    MapSucceedsWhen(w.cache, w.branch, node, 0, writable);
    hide MapPage, Unmap, CI.Inv;
    EntriesHaveSpecs(w, start);
    var (t, r) := ActivateOne(v, start, {});
    assert [start][1..] == [] && [] + [start] == [start];
    assert Activate(t, [], {}, [start]).1.Ok?;
    assert Activate(v, [start], {}, []).1.Ok?;
  }

  /** A branch with one open file of one page, and an empty window of two pages. */
  const CACHE: State := State(0, 1,
    map[0 := CacheBranch(Store(Names(map[7 := 1], map[]), map[7 := Zeros(PAGE_SIZE)]), map[7 := 1], map[], {}, {})],
    map[], {}, map[], 0, 2, 1, 0, {})

  const EMPTY_WINDOW: Window := Window(CACHE, 0, Some(2 * PAGE_SIZE), map[], map[])

  lemma EmptyWindowOk()
    ensures WindowOk(EMPTY_WINDOW)
  {
    forall b, page ensures CI.ActiveOk(CACHE, b, page) { assert CI.MappingsOf(CACHE, b, page) == {}; }
    forall b, c, n, m ensures CI.ObjectOk(CACHE, b, c, n, m) { }
    forall b ensures CI.BranchOk(CACHE, b) { }
  }

  /** After a request for the upper page of the window to be writable. */
  const UPPER_WRITABLE: Window := Setup(EMPTY_WINDOW, 7, 0, PAGE_SIZE, true, PAGE_SIZE, {}).0

  /** After another for the lower page to show the same file page for reading. */
  const LOWER_READ: Window := Setup(UPPER_WRITABLE, 7, 0, PAGE_SIZE, false, 0, {}).0

  const BOTH: seq<nat> := [0, PAGE_SIZE]

  /** A fork of that window fails with the page busy, and the window shows nothing any more. */
  lemma ForkCanLoseThePages()
    ensures Setup(EMPTY_WINDOW, 7, 0, PAGE_SIZE, true, PAGE_SIZE, {}).1.Ok?
    ensures Setup(UPPER_WRITABLE, 7, 0, PAGE_SIZE, false, 0, {}).1.Ok?
    ensures var w := LOWER_READ;
      && WindowOk(w) && OwnsAll(w) && w.active.Keys == {0, PAGE_SIZE}
      && Holds(w, BOTH) && Enumerates(BOTH, w)
      && (forall i :: 0 <= i < |BOTH| ==> BOTH[i] in ForkUnder(Suspend(w, BOTH)).specs)
      && var (u, r) := Resume(ForkUnder(Suspend(w, BOTH)), BOTH, {});
         r == Err(CacheFailed(PageBusy)) && u.active == map[]
  {
    hide Setup, WindowOk, OwnsAll, SetupError, CanMap;
    FirstPage();
    var v, w := UPPER_WRITABLE, LOWER_READ;
    assert SetupError(v, 0, PAGE_SIZE, 0) == None && CanMap(v.cache, 0, 7, 0, false) by { LowerPageIsFree(v); }
    SetupOnePage(v, 7, false, 0);
    SecondPage(v);
    LosingFork(w);
  }

  lemma LowerPageIsFree(v: Window)
    requires HasOneFile(v) && v.specs == map[PAGE_SIZE := Spec(7, 0, true)]
    ensures SetupError(v, 0, PAGE_SIZE, 0) == None && CanMap(v.cache, 0, 7, 0, false)
  {
  }

  ghost predicate ShowsBoth(w: Window) {
    HasOneFile(w) && w.specs == map[0 := Spec(7, 0, false), PAGE_SIZE := Spec(7, 0, true)] && w.active.Keys == {0, PAGE_SIZE}
  }

  lemma LosingFork(w: Window)
    requires WindowOk(w) && OwnsAll(w) && ShowsBoth(w)
    ensures Holds(w, BOTH) && Enumerates(BOTH, w)
    ensures (forall i :: 0 <= i < |BOTH| ==> BOTH[i] in ForkUnder(Suspend(w, BOTH)).specs)
    ensures var (u, r) := Resume(ForkUnder(Suspend(w, BOTH)), BOTH, {});
      r == Err(CacheFailed(PageBusy)) && u.active == map[]
  {
    hide WindowOk, OwnsAll, Resume, Suspend, ForkUnder, PageCache.Fork;
    assert BOTH[0] in Elements(BOTH) && BOTH[1] in Elements(BOTH);
    assert Elements(BOTH) == {0, PAGE_SIZE};
    ForkResumesWhen(w, BOTH, BOTH, {});
    var v := ForkUnder(Suspend(w, BOTH));
    ForkKeepsOpen(w, BOTH);
    var (u, r) := Resume(v, BOTH, {});
    assert ReadBeforeWrite(w, PAGE_SIZE) by {
      assert Shows(w, 0, KeyOf(w.specs[PAGE_SIZE]));
      forall o: nat | o < PAGE_SIZE ensures !ShowsWritable(w, o, KeyOf(w.specs[PAGE_SIZE])) { }
    }
    assert PAGE_SIZE in w.specs && !CanResumeShared(w, {});
    var o :| FailsAt(v, o, {}, r.error);
    assert r.error == Refusal(v, o);
    assert v.specs[o].node == 7;
  }

  lemma ForkKeepsOpen(w: Window, held: seq<nat>)
    requires WindowOk(w) && OwnsAll(w) && Holds(w, held) && w.branch in w.cache.branches
    ensures var v := ForkUnder(Suspend(w, held));
      && v.specs == w.specs && v.branch == w.branch && v.branch in v.cache.branches
      && v.cache.branches[v.branch].open == w.cache.branches[w.branch].open
  {
    hide CI.Inv, CI.SameBytes;
    SuspendUnmaps(w, held);
    hide Suspend;
    ForkIsNew(Suspend(w, held));
  }

  ghost predicate HasOneFile(w: Window) {
    && w.branch == 0 && w.len == Some(2 * PAGE_SIZE) && 0 in w.cache.branches
    && w.cache.branches[0].open == map[7 := 1] && w.cache.branches[0].store.files == map[7 := Zeros(PAGE_SIZE)]
  }

  lemma FirstPage()
    ensures Setup(EMPTY_WINDOW, 7, 0, PAGE_SIZE, true, PAGE_SIZE, {}).1.Ok?
    ensures var v := UPPER_WRITABLE;
      WindowOk(v) && OwnsAll(v) && HasOneFile(v) && v.specs == map[PAGE_SIZE := Spec(7, 0, true)] && v.active.Keys == {PAGE_SIZE}
  {
    EmptyWindowOk();
    assert OwnsAll(EMPTY_WINDOW);
    assert CanMap(CACHE, 0, 7, 0, true);
    SetupOnePage(EMPTY_WINDOW, 7, true, PAGE_SIZE);
    OnePageAdded(EMPTY_WINDOW, 7, true, PAGE_SIZE);
  }

  /** A page of the one file, once set up, is mapped. */
  lemma OnePageAdded(w: Window, node: NodeId, writable: bool, start: nat)
    requires WindowOk(w) && OwnsAll(w) && HasOneFile(w) && SetupError(w, 0, PAGE_SIZE, start) == None && node == 7
    requires Setup(w, node, 0, PAGE_SIZE, writable, start, {}).1.Ok?
    ensures var t := Setup(w, node, 0, PAGE_SIZE, writable, start, {}).0;
      && WindowOk(t) && OwnsAll(t) && HasOneFile(t)
      && t.specs == w.specs[start := Spec(node, 0, writable)]
      && (forall o :: o in w.active ==> o in t.active) && start in t.active
  {
    hide Setup, WindowOk, OwnsAll;
    var t := Setup(w, node, 0, PAGE_SIZE, writable, start, {}).0;
    OnePage(node, writable, start);
    SetupIsAllOrNothing(w, node, 0, PAGE_SIZE, writable, start, {});
    SetupOwns(w, node, 0, PAGE_SIZE, writable, start, {});
    assert WindowOk(w) && TableOk(w) by { TableOf(w); }
    SetupActivates(w, node, 0, PAGE_SIZE, writable, start, {});
    assert start in NewSpecs(node, 0, PAGE_SIZE, writable, start) && Settled(t, start);
  }

  lemma TableOf(w: Window)
    requires WindowOk(w)
    ensures TableOk(w) && forall o :: o in w.active ==> o in w.specs
  {
    forall o | o in w.active ensures o in w.specs { EntriesHaveSpecs(w, o); }
  }

  lemma SecondPage(v: Window)
    requires WindowOk(v) && OwnsAll(v) && HasOneFile(v) && v.specs == map[PAGE_SIZE := Spec(7, 0, true)]
    requires v.active.Keys == {PAGE_SIZE} && SetupError(v, 0, PAGE_SIZE, 0) == None
    requires Setup(v, 7, 0, PAGE_SIZE, false, 0, {}).1.Ok?
    ensures var w := Setup(v, 7, 0, PAGE_SIZE, false, 0, {}).0;
      WindowOk(w) && OwnsAll(w) && ShowsBoth(w)
  {
    hide Setup, WindowOk, OwnsAll, SetupError;
    OnePageAdded(v, 7, false, 0);
    var w := Setup(v, 7, 0, PAGE_SIZE, false, 0, {}).0;
    TableOf(w);
    assert PAGE_SIZE in w.active && 0 in w.active;
  }

  lemma OnePage(node: NodeId, writable: bool, start: nat)
    requires Aligned(start)
    ensures NewSpecs(node, 0, PAGE_SIZE, writable, start) == map[start := Spec(node, 0, writable)]
  {
    assert Pages(start, PAGE_SIZE) == [start];
    assert [start][0] in Elements([start]);
  }
}
