/** One guest's filesystem branch and the table of its DAX window. */
module DaxObject {
  import opened Basics
  import opened Identities
  import opened PageCache
  import opened DaxWindow
  import opened DaxResume
  import opened DaxFork
  import opened DaxSnapshot
  import CI = CacheInvariant
  import CR = CacheRuns

  class VirtioFsBranch {
    var cache: State
    const branch: BranchId
    /** The host address of the window, while one is attached, and its length. */
    var base: nat
    var len: Option<nat>
    var specs: map<nat, Spec>
    var active: map<nat, Mapping>

    /** A branch whose window is not attached yet. */
    constructor (cache: State, branch: BranchId, specs: map<nat, Spec>)
      ensures Value() == Window(cache, branch, None, specs, map[])
    {
      this.cache, this.branch, base, len, this.specs, active := cache, branch, 0, None, specs, map[];
    }

    function Value(): Window
      reads this
    {
      Window(cache, branch, len, specs, active)
    }

    method RemoveAt(o: nat, removeSpec: bool) returns (r: Result<(), DaxError>)
      modifies `cache, `specs, `active
      ensures (Value(), r) == RemoveOffset(old(Value()), o, removeSpec)
    {
      hide Unmap;
      if o in active {
        var mapping := active[o];
        active := active - {o};
        if len.None? {
          return Err(ENODEV);
        }
        var (t, q) := Unmap(cache, branch, mapping);
        cache := t;
        if q.Err? {
          return Err(CacheFailed(q.error));
        }
      } else if o !in specs {
        return Err(ENOENT);
      }
      if removeSpec {
        specs := specs - {o};
      }
      return Ok(());
    }

    method MapAt(o: nat, failing: set<nat>) returns (r: Result<bool, DaxError>)
      requires o in specs && len.Some?
      modifies `cache, `active
      ensures (Value(), r) == ActivateOne(old(Value()), o, failing)
    {
      hide MapPage, Unmap;
      var spec := specs[o];
      if o + PAGE_SIZE > len.value {
        return Err(EINVAL);
      }
      if branch !in cache.branches {
        return Err(CacheFailed(BranchNotFound(branch)));
      }
      if spec.node !in cache.branches[branch].store.files {
        return Err(CacheFailed(Io));
      }
      if spec.offset >= |cache.branches[branch].store.files[spec.node]| {
        return Ok(false);
      }
      var (t, q) := MapPage(cache, branch, spec.node, spec.offset, MapFlags(true, spec.writable));
      cache := t;
      if q.Err? {
        return Err(CacheFailed(q.error));
      }
      if o in failing {
        var (u, p) := Unmap(cache, branch, q.value);
        cache := u;
        return Err(if p.Err? then CacheFailed(p.error) else MmapFailed);
      }
      active := active[o := q.value];
      return Ok(true);
    }

    /** Unmap newest first, whatever the outcomes. */
    method Undo(activated: seq<nat>)
      modifies `cache, `specs, `active
      ensures Value() == RollBack(old(Value()), activated)
    {
      hide RemoveOffset;
      var k := |activated|;
      assert activated[..k] == activated;
      while k > 0
        invariant k <= |activated| && RollBack(Value(), activated[..k]) == RollBack(old(Value()), activated)
      {
        k := k - 1;
        assert activated[..k + 1][..k] == activated[..k];
        var _ := RemoveAt(activated[k], false);
      }
    }

    /** Map pages in order; on an error, unmap those this call mapped. */
    method ActivateOffsets(offsets: seq<nat>, failing: set<nat>) returns (r: Result<(), DaxError>)
      requires forall i :: 0 <= i < |offsets| ==> offsets[i] in specs
      modifies `cache, `specs, `active
      ensures (Value(), r) == Resume(old(Value()), offsets, failing)
    {
      if offsets == [] {
        return Ok(());
      }
      if len.None? {
        return Err(ENODEV);
      }
      hide ActivateOne, RollBack;
      ghost var w := Value();
      var activated, k := [], 0;
      assert offsets[0..] == offsets;
      while k < |offsets|
        invariant k <= |offsets| && specs == w.specs && len == w.len
        invariant Activate(Value(), offsets[k..], failing, activated) == Activate(w, offsets, failing, [])
      {
        var o := offsets[k];
        assert offsets[k..][0] == o && offsets[k..][1..] == offsets[k + 1..];
        if o !in active {
          ActivateOneKeepsSpecs(Value(), o, failing);
          var mapped := MapAt(o, failing);
          if mapped.Err? {
            Undo(activated);
            return Err(mapped.error);
          }
          if mapped.value {
            activated := activated + [o];
          }
        }
        k := k + 1;
      }
      return Ok(());
    }

    method ResumeMappings(failing: set<nat>) returns (r: Result<(), DaxError>, ghost offsets: seq<nat>)
      modifies `cache, `specs, `active
      ensures Enumerates(offsets, old(Value())) && forall i :: 0 <= i < |offsets| ==> offsets[i] in old(specs)
      ensures (Value(), r) == Resume(old(Value()), offsets, failing)
    {
      var order := InOrder(specs.Keys);
      forall i | 0 <= i < |order| ensures order[i] in specs { assert order[i] in Elements(order); }
      offsets := order;
      r := ActivateOffsets(order, failing);
    }

    /** Remove pages in order, stopping at the first error. */
    method RemoveAll(offsets: seq<nat>, removeSpec: bool) returns (r: Result<(), DaxError>)
      modifies `cache, `specs, `active
      ensures (Value(), r) == RemoveEach(old(Value()), offsets, removeSpec)
    {
      hide RemoveOffset;
      var k := 0;
      assert offsets[0..] == offsets;
      while k < |offsets|
        invariant k <= |offsets|
        invariant RemoveEach(Value(), offsets[k..], removeSpec) == RemoveEach(old(Value()), offsets, removeSpec)
      {
        assert offsets[k..][0] == offsets[k] && offsets[k..][1..] == offsets[k + 1..];
        r := RemoveAt(offsets[k], removeSpec);
        if r.Err? {
          return;
        }
        k := k + 1;
      }
      return Ok(());
    }

    method SuspendMappings() returns (r: Result<(), DaxError>, ghost held: seq<nat>)
      modifies `cache, `specs, `active
      ensures Holds(old(Value()), held)
      ensures (Value(), r) == RemoveEach(old(Value()), held, false)
    {
      var order := InOrder(active.Keys);
      held := order;
      r := RemoveAll(order, false);
    }

    /** Note what each page of the range should show. */
    method InsertSpecs(node: NodeId, fileOffset: nat, size: nat, writable: bool, start: nat) returns (inserted: seq<nat>)
      modifies `specs
      ensures inserted == Pages(start, size)
      ensures specs == old(specs) + NewSpecs(node, fileOffset, size, writable, start)
    {
      inserted := [];
      assert SpecsAt(node, fileOffset, writable, start, []) == map[];
      hide SpecsAt, Pages;
      while |inserted| < size / PAGE_SIZE
        invariant |inserted| <= size / PAGE_SIZE
        invariant forall i :: 0 <= i < |inserted| ==> inserted[i] == start + i * PAGE_SIZE
        invariant specs == old(specs) + SpecsAt(node, fileOffset, writable, start, inserted)
      {
        var o := start + |inserted| * PAGE_SIZE;
        SpecsPush(node, fileOffset, writable, start, old(specs), inserted, o);
        specs := specs[o := Spec(node, fileOffset + (o - start), writable)];
        inserted := inserted + [o];
      }
      PagesAre(start, size, inserted);
      SpecsOfPages(node, fileOffset, size, writable, start);
    }

    /** Does some spec before the end of the range reach into it? */
    method AnyOverlap(start: nat, size: nat) returns (found: bool)
      ensures found <==> Overlaps(Value(), start, size)
    {
      var todo := specs.Keys;
      while todo != {}
        invariant todo <= specs.Keys
        invariant forall o :: o in specs && o < start + size && start < o + PAGE_SIZE ==> o in todo
        decreases todo
      {
        var o :| o in todo;
        if o < start + size && (o >= start || o + PAGE_SIZE > start) {
          return true;
        }
        todo := todo - {o};
      }
      return false;
    }

    /** All or nothing, as the request's checks and the cache allow. */
    method SetupMapping(node: NodeId, fileOffset: nat, size: nat, writable: bool, start: nat, failing: set<nat>)
      returns (r: Result<(), DaxError>)
      modifies `cache, `specs, `active
      ensures (Value(), r) == Setup(old(Value()), node, fileOffset, size, writable, start, failing)
    {
      if size == 0 || fileOffset % PAGE_SIZE != 0 || start % PAGE_SIZE != 0 || size % PAGE_SIZE != 0 {
        return Err(EINVAL);
      }
      if len.None? {
        return Err(ENODEV);
      }
      if start + size > U64_MAX || start + size > len.value {
        return Err(EINVAL);
      }
      if fileOffset + size > U64_MAX {
        return Err(EINVAL);
      }
      var taken := AnyOverlap(start, size);
      if taken {
        return Err(EBUSY);
      }
      PagesAreNew(Value(), node, fileOffset, size, writable, start);
      PagesNotEmpty(start, size);
      hide Activate, Pages;
      var inserted := InsertSpecs(node, fileOffset, size, writable, start);
      forall i | 0 <= i < |inserted| ensures inserted[i] in specs { assert inserted[i] in Elements(inserted); }
      r := ActivateOffsets(inserted, failing);
      if r.Err? {
        specs := specs - Elements(inserted);
      }
    }

    method RemoveMapping(start: nat, size: nat) returns (r: Result<(), DaxError>)
      modifies `cache, `specs, `active
      ensures size == 0 || !Aligned(start) || !Aligned(size) ==> r == Err(EINVAL) && Value() == old(Value())
      ensures !(size == 0 || !Aligned(start) || !Aligned(size)) ==>
        (Value(), r) == RemoveEach(old(Value()), Pages(start, size), true)
    {
      if size == 0 || start % PAGE_SIZE != 0 || size % PAGE_SIZE != 0 {
        return Err(EINVAL);
      }
      hide RemoveOffset, Pages;
      ghost var pages := Pages(start, size);
      PagesListed(start, size);
      var k := 0;
      assert pages[0..] == pages;
      while k * PAGE_SIZE < size
        invariant k <= |pages|
        invariant RemoveEach(Value(), pages[k..], true) == RemoveEach(old(Value()), pages, true)
        decreases |pages| - k
      {
        assert pages[k..][0] == pages[k] && pages[k..][1..] == pages[k + 1..];
        r := RemoveAt(start + k * PAGE_SIZE, true);
        if r.Err? {
          return;
        }
        k := k + 1;
      }
      assert pages[k..] == [];
      return Ok(());
    }

    /** Attaching maps every spec inside its file, or fails and leaves the window detached. */
    method AttachWindow(address: nat, size: nat, failing: set<nat>) returns (r: Result<(), DaxError>, ghost offsets: seq<nat>)
      modifies `cache, `base, `len, `specs, `active
      ensures old(len).Some? ==> r == Err(EEXIST) && Value() == old(Value()) && base == old(base)
      ensures old(len).None? ==> base == address
      ensures old(len).None? ==>
        && Enumerates(offsets, old(Value())) && (forall i :: 0 <= i < |offsets| ==> offsets[i] in old(specs))
        && var w := old(Value()).(len := Some(size));
           var (t, q) := Activate(w, offsets, failing, []);
           r == q && Value() == if q.Ok? then t else t.(len := None)
    {
      offsets := [];
      if len.Some? {
        return Err(EEXIST), [];
      }
      base, len := address, Some(size);
      r, offsets := ResumeMappings(failing);
      if r.Err? {
        len := None;
      }
    }

    /** Detaching the window that is attached unmaps every page and keeps the specs. */
    method DetachWindow(address: nat, size: nat) returns (r: Result<(), DaxError>, ghost held: seq<nat>)
      modifies `cache, `len, `specs, `active
      ensures old(len) != Some(size) || base != address ==> r == Ok(()) && Value() == old(Value())
      ensures old(len) == Some(size) && base == address ==>
        && Holds(old(Value()), held)
        && var (t, q) := RemoveEach(old(Value()), held, false);
           r == q && Value() == if q.Ok? then t.(len := None) else t
    {
      held := [];
      if len != Some(size) || base != address {
        return Ok(()), [];
      }
      r, held := SuspendMappings();
      if r.Ok? {
        len := None;
      }
    }

    /**
     Suspend, fork the cache branch, resume. The cache branch forks although the
     window may not come back, and then its error is reported.
     */
    method Fork(failing: set<nat>)
      returns (r: Result<BranchId, DaxError>, ghost held: seq<nat>, ghost offsets: seq<nat>)
      modifies `cache, `specs, `active
      ensures Holds(old(Value()), held)
      ensures var (t, q) := RemoveEach(old(Value()), held, false);
        if q.Err? then Value() == t && r == Err(q.error)
        else
          && Enumerates(offsets, ForkUnder(t)) && (forall i :: 0 <= i < |offsets| ==> offsets[i] in ForkUnder(t).specs)
          && var (u, s) := Resume(ForkUnder(t), offsets, failing);
             && Value() == u
             && var child := PageCache.Fork(t.cache, t.branch).1;
                r == if child.Err? then Err(CacheFailed(child.error)) else if s.Err? then Err(s.error) else Ok(child.value)
      ensures WindowOk(old(Value())) && OwnsAll(old(Value())) ==> Forked(old(Value()), Value(), r, failing)
    {
      hide PageCache.Fork, Activate, RemoveEach, WindowOk, OwnsAll, Forked, Resume;
      ghost var w := Value();
      var suspended;
      offsets := [];
      suspended, held := SuspendMappings();
      if suspended.Err? {
        if WindowOk(w) && OwnsAll(w) {
          SuspendUnmaps(w, held);
        }
        r := Err(suspended.error);
        return;
      }
      var (t, child) := PageCache.Fork(cache, branch);
      cache := t;
      var resumed;
      resumed, offsets := ResumeMappings(failing);
      if child.Err? {
        r := Err(CacheFailed(child.error));
      } else if resumed.Err? {
        r := Err(resumed.error);
      } else {
        r := Ok(child.value);
      }
      if WindowOk(w) && OwnsAll(w) {
        ForkedWhen(w, held, offsets, failing);
      }
    }

    method DirtyPages() returns (keys: seq<PageKey>)
      requires branch in cache.branches
      ensures ListsDirty(Value(), keys)
    {
      var todo := cache.branches[branch].dirty;
      keys := [];
      while todo != {}
        invariant todo <= cache.branches[branch].dirty && Distinct(keys)
        invariant forall key :: key in keys <==> key in cache.branches[branch].dirty && key !in todo
        decreases todo
      {
        var key :| key in todo;
        todo := todo - {key};
        keys := keys + [key];
      }
    }

    /**
     Suspend, write every dirty page back, note the store and the specs, resume.
     The saved store holds what the branch reads, and the window comes back
     exactly when a suspended one does.
     */
    method DurableSnapshot(failing: set<nat>) returns (r: Result<Snapshot, DaxError>)
      requires WindowOk(Value()) && OwnsAll(Value())
      modifies `cache, `specs, `active
      ensures WindowOk(Value()) && OwnsAll(Value())
      ensures branch !in old(cache).branches ==> r == Err(CacheFailed(BranchNotFound(branch)))
      ensures branch in old(cache).branches ==>
        && CI.SameBytes(old(cache), cache) && (r.Ok? <==> CanResume(old(Value()), failing))
        && (r.Ok? ==> forall o :: o in active <==> o in old(specs) && InFile(old(Value()), o))
        && (r.Err? ==> active == map[])
      ensures r.Ok? ==>
        && branch in CR.View(old(cache)) && r.value.store.files == CR.View(old(cache))[branch] && r.value.specs == old(specs)
    {
      hide WindowOk, OwnsAll, CI.SameBytes, CR.View, CanResume, InFile, Resume, RemoveEach, SyncPages;
      ghost var w := Value();
      var suspended;
      ghost var held, offsets;
      suspended, held := SuspendMappings();
      SuspendUnmaps(w, held);
      assert Value() == Suspend(w, held);
      if branch !in cache.branches {
        suspended, offsets := ResumeMappings(failing);
        UnmappedOwnsAll(Suspend(w, held));
        ResumedPages(Suspend(w, held), offsets, failing);
        return Err(CacheFailed(BranchNotFound(branch)));
      }
      var keys := DirtyPages();
      var (t, synced) := SyncPages(cache, branch, keys);
      cache := t;
      assert (Value(), synced) == SyncUnder(Suspend(w, held), keys);
      SyncKeepsWindow(Suspend(w, held), keys);
      var store, saved := cache.branches[branch].store, specs;
      var resumed;
      resumed, offsets := ResumeMappings(failing);
      SnapshotIsView(w, held, keys, offsets, failing);
      r := if resumed.Err? then Err(resumed.error) else Ok(Snapshot(store, saved));
    }
  }

  /** The store and the specs, as a checkpoint keeps them. */
  datatype Snapshot = Snapshot(store: Store, specs: map<nat, Spec>)

  /** What a fork of a window whose tables are in order does: when it succeeds, and what the window shows then. */
  ghost predicate Forked(w: Window, u: Window, r: Result<BranchId, DaxError>, failing: set<nat>) {
    var forks := w.branch in w.cache.branches && w.cache.nextBranch != U64_MAX;
    && WindowOk(u) && OwnsAll(u)
    && (r.Ok? <==> forks && CanResumeShared(w, failing))
    && (CanResumeShared(w, failing) ==> forall o :: o in u.active <==> o in w.specs && InFile(w, o))
    && (!CanResumeShared(w, failing) ==> u.active == map[])
    && (forks && w.len.None? && w.specs != map[] ==> r == Err(ENODEV))
  }

  lemma ForkedWhen(w: Window, held: seq<nat>, offsets: seq<nat>, failing: set<nat>)
    requires WindowOk(w) && OwnsAll(w) && Holds(w, held) && Enumerates(offsets, ForkUnder(Suspend(w, held)))
    ensures RemoveEach(w, held, false).1.Ok?
    ensures forall i :: 0 <= i < |offsets| ==> offsets[i] in ForkUnder(Suspend(w, held)).specs
    ensures var t := Suspend(w, held);
      var (u, s) := Resume(ForkUnder(t), offsets, failing);
      var child := PageCache.Fork(t.cache, t.branch).1;
      Forked(w, u, if child.Err? then Err(CacheFailed(child.error)) else if s.Err? then Err(s.error) else Ok(child.value), failing)
  {
    hide WindowOk, OwnsAll, RemoveEach, PageCache.Fork, Resume, InFile, FailsAt;
    SuspendUnmaps(w, held);
    SuspendedSpecs(w, held, offsets);
    ForkResumesWhen(w, held, offsets, failing);
    var t := Suspend(w, held);
    var (u, s) := Resume(ForkUnder(t), offsets, failing);
    var child := PageCache.Fork(t.cache, t.branch).1;
    assert s.Ok? <==> CanResumeShared(w, failing);
    assert child.Ok? <==> w.branch in w.cache.branches && w.cache.nextBranch != U64_MAX;
  }

  lemma SuspendedSpecs(w: Window, held: seq<nat>, offsets: seq<nat>)
    requires WindowOk(w) && OwnsAll(w) && Holds(w, held) && Enumerates(offsets, ForkUnder(Suspend(w, held)))
    ensures Enumerates(offsets, w)
  {
    hide WindowOk, OwnsAll, RemoveEach;
    SuspendUnmaps(w, held);
  }

  lemma ActivateOneKeepsSpecs(w: Window, o: nat, failing: set<nat>)
    requires o in w.specs && w.len.Some?
    ensures var t := ActivateOne(w, o, failing).0; t.specs == w.specs && t.len == w.len
  {
  }

  lemma PagesNotEmpty(start: nat, size: nat)
    requires size > 0 && Aligned(size)
    ensures Pages(start, size) != []
  {
  }

  function SpecsAt(node: NodeId, fileOffset: nat, writable: bool, start: nat, offsets: seq<nat>): map<nat, Spec> {
    map o | o in Elements(offsets) && start <= o :: Spec(node, fileOffset + (o - start), writable)
  }

  lemma PagesListed(start: nat, size: nat)
    requires Aligned(size)
    ensures |Pages(start, size)| * PAGE_SIZE == size
    ensures forall i :: 0 <= i < |Pages(start, size)| ==> Pages(start, size)[i] == start + i * PAGE_SIZE
  {
  }

  lemma PagesAre(start: nat, size: nat, offsets: seq<nat>)
    requires |offsets| == size / PAGE_SIZE && forall i :: 0 <= i < |offsets| ==> offsets[i] == start + i * PAGE_SIZE
    ensures offsets == Pages(start, size)
  {
  }

  lemma SpecsOfPages(node: NodeId, fileOffset: nat, size: nat, writable: bool, start: nat)
    ensures SpecsAt(node, fileOffset, writable, start, Pages(start, size)) == NewSpecs(node, fileOffset, size, writable, start)
  {
  }

  lemma SpecsPush(node: NodeId, fileOffset: nat, writable: bool, start: nat, specs: map<nat, Spec>, offsets: seq<nat>, o: nat)
    requires start <= o
    ensures specs + SpecsAt(node, fileOffset, writable, start, offsets + [o])
         == (specs + SpecsAt(node, fileOffset, writable, start, offsets))[o := Spec(node, fileOffset + (o - start), writable)]
  {
    ElementsPush(offsets, o);
  }

  /** A set of offsets in increasing order. */
  method InOrder(keys: set<nat>) returns (order: seq<nat>)
    ensures forall i, j :: 0 <= i < j < |order| ==> order[i] < order[j]
    ensures Elements(order) == keys
  {
    order := [];
    var todo := keys;
    while todo != {}
      invariant todo <= keys && Elements(order) == keys - todo
      invariant forall i, j :: 0 <= i < j < |order| ==> order[i] < order[j]
      invariant forall i, o :: 0 <= i < |order| && o in todo ==> order[i] < o
      decreases todo
    {
      var least :| least in todo;
      var rest := todo - {least};
      while rest != {}
        invariant least in todo && rest <= todo
        invariant forall x :: x in todo && x !in rest ==> least <= x
        decreases rest
      {
        var o :| o in rest;
        if o < least {
          least := o;
        }
        rest := rest - {o};
      }
      ElementsPush(order, least);
      order := order + [least];
      todo := todo - {least};
    }
  }
}
