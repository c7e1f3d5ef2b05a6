/**
 The DAX window of one guest: which file page each page of the window should
 show (`specs`), and which of them are mapped right now (`active`).

 `cache` is the state of the shared page cache the window's branch lives in.
 `failing` stands for the window offsets at which the host refuses to map.
 */
module DaxWindow {
  import opened Basics
  import opened Identities
  import opened PageCache
  import opened DaxCache
  import CI = CacheInvariant
  import CS = CacheSteps

  datatype Spec = Spec(node: NodeId, offset: nat, writable: bool)

  datatype Window = Window(
    cache: State,
    branch: BranchId,
    len: Option<nat>,
    specs: map<nat, Spec>,
    active: map<nat, Mapping>)

  datatype DaxError = EINVAL | ENODEV | EBUSY | ENOENT | EEXIST | CacheFailed(error: CacheError) | MmapFailed

  function KeyOf(spec: Spec): PageKey {
    PageKey(spec.node, spec.offset / PAGE_SIZE)
  }

  /** The spec's page starts before the end of its file. */
  predicate InFile(w: Window, o: nat) {
    o in w.specs && w.branch in w.cache.branches && w.specs[o].offset < |FileOf(w.cache, w.branch, w.specs[o].node)|
  }

  // ---------------------------------------------------------------------
  // Operations
  // ---------------------------------------------------------------------

  /** Map one page; `Ok(false)` is a page past the end of its file, left unmapped. */
  function ActivateOne(w: Window, o: nat, failing: set<nat>): (Window, Result<bool, DaxError>)
    requires o in w.specs && w.len.Some?
  {
    var spec := w.specs[o];
    if o + PAGE_SIZE > w.len.value then (w, Err(EINVAL))
    else if w.branch !in w.cache.branches then (w, Err(CacheFailed(BranchNotFound(w.branch))))
    else if spec.node !in w.cache.branches[w.branch].store.files then (w, Err(CacheFailed(Io)))
    else if !InFile(w, o) then (w, Ok(false))
    else
      var (t, r) := MapPage(w.cache, w.branch, spec.node, spec.offset, MapFlags(true, spec.writable));
      if r.Err? then (w.(cache := t), Err(CacheFailed(r.error)))
      else if o in failing then
        var (u, q) := Unmap(t, w.branch, r.value);
        (w.(cache := u), Err(if q.Err? then CacheFailed(q.error) else MmapFailed))
      else (w.(cache := t, active := w.active[o := r.value]), Ok(true))
  }

  /** Unmap one page, and forget its spec if asked to. */
  function RemoveOffset(w: Window, o: nat, removeSpec: bool): (Window, Result<(), DaxError>) {
    if o !in w.active && o !in w.specs then (w, Err(ENOENT))
    else if o in w.active && w.len.None? then (w.(active := w.active - {o}), Err(ENODEV))
    else
      var (v, r) :=
        if o in w.active then
          var (t, q) := Unmap(w.cache, w.branch, w.active[o]);
          (w.(cache := t, active := w.active - {o}), q)
        else (w, Ok(()));
      if r.Err? then (v, Err(CacheFailed(r.error)))
      else (if removeSpec then v.(specs := v.specs - {o}) else v, Ok(()))
  }

  /** Unmap what was mapped, newest first. */
  function RollBack(w: Window, activated: seq<nat>): Window
    decreases |activated|
  {
    if activated == [] then w
    else
      var last := |activated| - 1;
      RollBack(RemoveOffset(w, activated[last], false).0, activated[..last])
  }

  /** Map the offsets that are not mapped yet; on an error, unmap those this call mapped. */
  function Activate(w: Window, offsets: seq<nat>, failing: set<nat>, activated: seq<nat>): (Window, Result<(), DaxError>)
    requires w.len.Some? && forall i :: 0 <= i < |offsets| ==> offsets[i] in w.specs
    decreases |offsets|
  {
    if offsets == [] then (w, Ok(()))
    else
      var o := offsets[0];
      if o in w.active then Activate(w, offsets[1..], failing, activated)
      else
        var (t, r) := ActivateOne(w, o, failing);
        match r
        case Ok(mapped) => Activate(t, offsets[1..], failing, if mapped then activated + [o] else activated)
        case Err(e) => (RollBack(t, activated), Err(e))
  }

  // ---------------------------------------------------------------------
  // The table invariant
  // ---------------------------------------------------------------------

  /** A mapped page has a spec, lies in the attached window, and maps what its spec says. */
  ghost predicate EntryOk(w: Window, o: nat) {
    o in w.active ==>
      && InFile(w, o) && w.len.Some?
      && w.active[o] in w.cache.mappings && w.active[o].branch == w.branch
      && w.active[o].key == KeyOf(w.specs[o]) && w.active[o].flags == MapFlags(true, w.specs[o].writable)
  }

  predicate EntriesApart(w: Window, o: nat, p: nat) {
    o in w.active && p in w.active && o != p ==> w.active[o] != w.active[p]
  }

  /** Specs are page-aligned, fit the window, and name files of the branch. */
  predicate SpecOk(w: Window, o: nat) {
    o in w.specs ==>
      && Aligned(o) && Aligned(w.specs[o].offset)
      && (w.len.Some? ==> o + PAGE_SIZE <= w.len.value)
      && w.branch in w.cache.branches && w.specs[o].node in w.cache.branches[w.branch].store.files
  }

  /** The tables agree with each other and with the cache; specs under way are not checked. */
  ghost predicate TableOk(w: Window) {
    && CI.Inv(w.cache)
    && (forall o {:trigger EntryOk(w, o)} :: EntryOk(w, o))
    && (forall o, p {:trigger EntriesApart(w, o, p)} :: EntriesApart(w, o, p))
  }

  /** The branch's live mapping is in the table. */
  ghost predicate Owned(w: Window, m: Mapping) {
    m in w.cache.mappings && m.branch == w.branch ==> exists o :: o in w.active && w.active[o] == m
  }

  ghost predicate OwnsAll(w: Window) {
    forall m {:trigger Owned(w, m)} :: Owned(w, m)
  }

  ghost predicate WindowOk(w: Window) {
    TableOk(w) && forall o {:trigger SpecOk(w, o)} :: SpecOk(w, o)
  }

  /** The page lies in the window and its file is there. */
  predicate Fits(w: Window, o: nat) {
    && o in w.specs && w.len.Some? && o + PAGE_SIZE <= w.len.value
    && w.branch in w.cache.branches && w.specs[o].node in w.cache.branches[w.branch].store.files
  }

  /** Two pages of the window never overlap. */
  lemma SpecsDisjoint(w: Window, o: nat, p: nat)
    requires WindowOk(w) && o in w.specs && p in w.specs && o < p
    ensures o + PAGE_SIZE <= p
  {
    assert SpecOk(w, o) && SpecOk(w, p);
    AlignedApart(o, p);
  }

  // ---------------------------------------------------------------------
  // One page
  // ---------------------------------------------------------------------

  /** Same window and specs, a cache whose branch has the same files and open counts. */
  ghost predicate SameTable(w: Window, t: Window) {
    && t.branch == w.branch && t.len == w.len && t.specs == w.specs
    && (t.cache == w.cache || SameBranch(w.cache, t.cache, w.branch))
    && CI.SameBytes(w.cache, t.cache)
  }

  function Exclusive(w: Window): set<PageKey> {
    if w.branch in w.cache.branches then w.cache.branches[w.branch].exclusive else {}
  }

  lemma ActivateOneMaps(w: Window, o: nat, failing: set<nat>)
    requires TableOk(w) && o in w.specs && o !in w.active && w.len.Some? && Aligned(w.specs[o].offset)
    ensures var (t, r) := ActivateOne(w, o, failing);
      && TableOk(t) && SameTable(w, t)
      && (r.Err? ==> t.active == w.active && t.cache.mappings == w.cache.mappings)
      && (r.Ok? ==> Fits(t, o))
      && (r.Ok? && !r.value ==> t == w && !InFile(w, o))
      && (r.Ok? && r.value ==>
            && InFile(w, o)
            && o in t.active && t.active == w.active[o := t.active[o]]
            && t.active[o] !in w.cache.mappings && t.cache.mappings == w.cache.mappings + {t.active[o]}
            && Exclusive(t) == Exclusive(w) + (if w.specs[o].writable then {KeyOf(w.specs[o])} else {}))
  {
    hide MapPage, Unmap, CI.Inv, CI.SameBytes, TableOk;
    var (t, r) := ActivateOne(w, o, failing);
    SameBytesRefl(w.cache);
    assert CI.Inv(w.cache) by { InvOf(w); }
    if w.branch in w.cache.branches {
      var spec := w.specs[o];
      CacheMaps(w.cache, w.branch, spec);
      var (c, q) := MapPage(w.cache, w.branch, spec.node, spec.offset, MapFlags(true, spec.writable));
      assert q.Err? ==> c == w.cache;
    }
    SameSpecs(w, t);
    TableStays(w, t, o);
  }

  lemma InvOf(w: Window)
    requires TableOk(w)
    ensures CI.Inv(w.cache)
  {
  }

  /** Tables stay consistent when no live mapping is lost and at most one entry is new. */
  lemma TableStays(w: Window, t: Window, o: nat)
    requires TableOk(w) && CI.Inv(t.cache) && w.cache.mappings <= t.cache.mappings
    requires t.branch == w.branch && t.len == w.len && t.specs == w.specs
    requires forall p {:trigger InFile(t, p)} :: InFile(t, p) <==> InFile(w, p)
    requires t.active == w.active
      || (o in t.active && t.active == w.active[o := t.active[o]] && t.active[o] !in w.cache.mappings && EntryOk(t, o))
    ensures TableOk(t)
  {
    hide CI.Inv;
    forall p ensures EntryOk(t, p) { assert EntryOk(w, p) && (InFile(t, p) <==> InFile(w, p)); }
    forall p, p' ensures EntriesApart(t, p, p') {
      assert EntriesApart(w, p, p') && EntryOk(w, p) && EntryOk(w, p');
    }
  }

  lemma SameBytesRefl(s: State)
    ensures CI.SameBytes(s, s)
  {
    forall b ensures CI.SameFiles(s, s, b) { }
    forall b, key ensures CI.SamePage(s, s, b, key) { }
  }

  /** Mapping a spec's page, and mapping it and giving it back. */
  lemma CacheMaps(s: State, b: BranchId, spec: Spec)
    requires CI.Inv(s) && b in s.branches
    ensures var (c, r) := MapPage(s, b, spec.node, spec.offset, MapFlags(true, spec.writable));
      && CI.Inv(c) && CI.SameBytes(s, c)
      && (r.Err? ==> c == s)
      && (r.Ok? ==>
            && SameBranch(s, c, b) && r.value !in s.mappings && c.mappings == s.mappings + {r.value}
            && r.value.branch == b && r.value.key == KeyOf(spec) && r.value.flags == MapFlags(true, spec.writable)
            && c.branches[b].exclusive == s.branches[b].exclusive + (if spec.writable then {KeyOf(spec)} else {})
            && var (u, q) := Unmap(c, b, r.value);
               q.Ok? && CI.Inv(u) && CI.SameBytes(s, u) && SameBranch(s, u, b) && u.mappings == s.mappings)
  {
    var (c, r) := MapPage(s, b, spec.node, spec.offset, MapFlags(true, spec.writable));
    CS.MapPageKeepsInv(s, b, spec.node, spec.offset, MapFlags(true, spec.writable));
    if r.Ok? {
      MapAdds(s, b, spec.node, spec.offset, spec.writable);
      hide MapPage;
      UnmapRemoves(c, r.value);
      CI.SameBytesTransitive(s, c, Unmap(c, b, r.value).0);
    }
  }

  /** Unmapping a page of the table gives its mapping back. */
  lemma RemoveUnmaps(w: Window, o: nat)
    requires TableOk(w) && o in w.active
    ensures var (t, r) := RemoveOffset(w, o, false);
      && r.Ok? && TableOk(t) && SameTable(w, t) && t.active == w.active - {o}
      && t.cache.mappings == w.cache.mappings - {w.active[o]} && Exclusive(t) == Exclusive(w)
  {
    var (t, r) := RemoveOffset(w, o, false);
    assert EntryOk(w, o);
    UnmapRemoves(w.cache, w.active[o]);
    hide Unmap, CI.Inv, CI.SameBytes;
    forall p ensures EntryOk(t, p) { assert EntryOk(w, p) && EntriesApart(w, o, p); }
    forall p, p' ensures EntriesApart(t, p, p') { assert EntriesApart(w, p, p'); }
  }

  /** The mappings of some entries. */
  function MappingsAt(w: Window, offsets: set<nat>): set<Mapping> {
    set o | o in offsets && o in w.active :: w.active[o]
  }

  function Elements(offsets: seq<nat>): set<nat> {
    set i | 0 <= i < |offsets| :: offsets[i]
  }

  lemma SameTableTwice(a: Window, b: Window, c: Window)
    requires SameTable(a, b) && SameTable(b, c)
    ensures SameTable(a, c)
  {
    CI.SameBytesTransitive(a.cache, b.cache, c.cache);
  }

  /** Rolling back removes exactly the entries it is given. */
  lemma {:induction false} RollBackRemoves(w: Window, activated: seq<nat>)
    requires TableOk(w) && Distinct(activated) && Elements(activated) <= w.active.Keys
    ensures var t := RollBack(w, activated);
      && TableOk(t) && SameTable(w, t)
      && t.active == w.active - Elements(activated)
      && t.cache.mappings == w.cache.mappings - MappingsAt(w, Elements(activated))
      && Exclusive(t) == Exclusive(w)
    decreases |activated|
  {
    hide TableOk, SameTable, RemoveOffset, Exclusive;
    if activated == [] {
      SameTableRefl(w);
      assert w.active - Elements(activated) == w.active;
    } else {
      var n := |activated| - 1;
      var o, rest := activated[n], activated[..n];
      assert o in Elements(activated);
      var v := RemoveOffset(w, o, false).0;
      RemoveUnmaps(w, o);
      assert Elements(activated) == Elements(rest) + {o} && o !in Elements(rest);
      forall x | x in Elements(rest) ensures x in v.active { assert x in Elements(activated); }
      RollBackRemoves(v, rest);
      SameTableTwice(w, v, RollBack(v, rest));
      assert MappingsAt(w, Elements(activated)) == MappingsAt(v, Elements(rest)) + {w.active[o]};
      assert w.active - Elements(activated) == v.active - Elements(rest);
    }
  }

  lemma SameTableRefl(w: Window)
    ensures SameTable(w, w)
  {
    SameBytesRefl(w.cache);
  }

  // ---------------------------------------------------------------------
  // All or nothing
  // ---------------------------------------------------------------------

  predicate AllSpecs(w: Window, offsets: seq<nat>) {
    forall i :: 0 <= i < |offsets| ==> offsets[i] in w.specs && Aligned(w.specs[offsets[i]].offset)
  }

  /** Mapped, or past the end of its file. */
  predicate Settled(w: Window, o: nat) {
    o in w.active || !InFile(w, o)
  }

  /** Every offset ends up mapped or past its file, or the entries are back to what they were. */
  lemma {:induction false} ActivateSettles(w: Window, offsets: seq<nat>, failing: set<nat>, activated: seq<nat>)
    requires TableOk(w) && w.len.Some? && AllSpecs(w, offsets)
    requires Distinct(activated) && Elements(activated) <= w.active.Keys
    ensures var (t, r) := Activate(w, offsets, failing, activated);
      && TableOk(t) && SameTable(w, t)
      && (r.Ok? ==>
            && (forall o :: o in w.active ==> o in t.active && t.active[o] == w.active[o])
            && t.active.Keys <= w.active.Keys + Elements(offsets)
            && (forall i :: 0 <= i < |offsets| ==> Settled(t, offsets[i]) && (offsets[i] in w.active || Fits(t, offsets[i]))))
      && (r.Err? ==>
            && t.active == w.active - Elements(activated)
            && t.cache.mappings == w.cache.mappings - MappingsAt(w, Elements(activated)))
    decreases |offsets|
  {
    hide TableOk, SameTable, ActivateOne, InFile, RollBack, Fits;
    if offsets == [] {
      SameTableRefl(w);
    } else {
      var o, rest := offsets[0], offsets[1..];
      assert AllSpecs(w, rest);
      if o in w.active {
        ActivateSettles(w, rest, failing, activated);
        ElementsStep(offsets);
      } else {
        var (t, r) := ActivateOne(w, o, failing);
        ActivateOneMaps(w, o, failing);
        SameSpecs(w, t);
        if r.Err? {
          RollBackRemoves(t, activated);
          SameTableTwice(w, t, RollBack(t, activated));
          assert MappingsAt(t, Elements(activated)) == MappingsAt(w, Elements(activated));
        } else {
          var next := if r.value then activated + [o] else activated;
          ElementsPush(activated, o);
          ActivateSettles(t, rest, failing, next);
          SameTableTwice(w, t, Activate(t, rest, failing, next).0);
          ElementsStep(offsets);
          if r.value {
            ActivatedOnce(w, t, o, activated);
          }
          SettledStays(w, t, Activate(t, rest, failing, next).0, o);
        }
      }
    }
  }

  lemma SameSpecs(w: Window, t: Window)
    requires SameTable(w, t)
    ensures t.specs == w.specs && t.len == w.len && t.branch == w.branch
    ensures forall o {:trigger InFile(t, o)} :: InFile(t, o) <==> InFile(w, o)
  {
  }

  lemma ElementsStep(offsets: seq<nat>)
    requires offsets != []
    ensures Elements(offsets) == {offsets[0]} + Elements(offsets[1..])
  {
    var rest := offsets[1..];
    forall x ensures x in Elements(offsets) <==> x in {offsets[0]} + Elements(rest) {
      if x in Elements(offsets) {
        var i :| 0 <= i < |offsets| && offsets[i] == x;
        assert i > 0 ==> rest[i - 1] == x;
      }
      if x in Elements(rest) {
        var i :| 0 <= i < |rest| && rest[i] == x;
        assert offsets[i + 1] == x;
      }
    }
  }

  lemma ElementsPush(activated: seq<nat>, o: nat)
    ensures Elements(activated + [o]) == Elements(activated) + {o}
    ensures Distinct(activated) && o !in Elements(activated) ==> Distinct(activated + [o])
  {
    var all := activated + [o];
    forall x ensures x in Elements(all) <==> x in Elements(activated) + {o} {
      if x in Elements(activated) {
        var i :| 0 <= i < |activated| && activated[i] == x;
        assert all[i] == x;
      }
      assert all[|activated|] == o;
    }
    assert o !in Elements(activated) ==> forall i :: 0 <= i < |activated| ==> activated[i] != o;
  }

  /** Taking the newest entry back with the others is taking the others back from before. */
  lemma ActivatedOnce(w: Window, t: Window, o: nat, activated: seq<nat>)
    requires o !in w.active && o in t.active && t.active == w.active[o := t.active[o]]
    requires t.active[o] !in w.cache.mappings && t.cache.mappings == w.cache.mappings + {t.active[o]}
    requires Elements(activated) <= w.active.Keys
    ensures t.active - Elements(activated + [o]) == w.active - Elements(activated)
    ensures t.cache.mappings - MappingsAt(t, Elements(activated + [o]))
         == w.cache.mappings - MappingsAt(w, Elements(activated))
  {
    ElementsPush(activated, o);
    assert MappingsAt(t, Elements(activated + [o])) == MappingsAt(w, Elements(activated)) + {t.active[o]};
  }

  lemma SettledStays(w: Window, t: Window, u: Window, o: nat)
    requires SameTable(w, t) && SameTable(t, u)
    ensures !InFile(w, o) ==> !InFile(u, o)
    ensures Fits(t, o) ==> Fits(u, o)
  {
  }

  // ---------------------------------------------------------------------
  // No mapping is lost
  // ---------------------------------------------------------------------

  /** Taking entries out with their mappings leaves every live mapping in the table. */
  lemma OwnsLess(w: Window, t: Window, gone: set<nat>)
    requires OwnsAll(w) && t.branch == w.branch && t.active == w.active - gone
    requires t.cache.mappings == w.cache.mappings - MappingsAt(w, gone)
    ensures OwnsAll(t)
  {
    forall m ensures Owned(t, m) {
      assert Owned(w, m);
      if m in t.cache.mappings && m.branch == t.branch {
        var o :| o in w.active && w.active[o] == m;
        assert o !in gone;
        assert t.active[o] == m;
      }
    }
  }

  /** So does one new entry for one new mapping. */
  lemma OwnsMore(w: Window, t: Window, o: nat)
    requires OwnsAll(w) && t.branch == w.branch && o !in w.active && o in t.active
    requires t.active == w.active[o := t.active[o]] && t.cache.mappings == w.cache.mappings + {t.active[o]}
    ensures OwnsAll(t)
  {
    forall m ensures Owned(t, m) {
      assert Owned(w, m);
      if m in w.cache.mappings && m.branch == w.branch {
        var p :| p in w.active && w.active[p] == m;
        assert t.active[p] == m;
      }
    }
  }

  /** Activation, whether it succeeds or rolls back, keeps every live mapping of the branch in the table. */
  lemma {:induction false} ActivateOwns(w: Window, offsets: seq<nat>, failing: set<nat>, activated: seq<nat>)
    requires TableOk(w) && OwnsAll(w) && w.len.Some? && AllSpecs(w, offsets)
    requires Distinct(activated) && Elements(activated) <= w.active.Keys
    ensures OwnsAll(Activate(w, offsets, failing, activated).0)
    decreases |offsets|
  {
    hide TableOk, SameTable, ActivateOne, InFile, RollBack, Fits, OwnsAll;
    if offsets != [] {
      var o, rest := offsets[0], offsets[1..];
      assert AllSpecs(w, rest);
      if o in w.active {
        ActivateOwns(w, rest, failing, activated);
      } else {
        var (t, r) := ActivateOne(w, o, failing);
        ActivateOneMaps(w, o, failing);
        SameSpecs(w, t);
        if r.Err? {
          RollBackRemoves(t, activated);
          SameSpecs(t, RollBack(t, activated));
          assert MappingsAt(t, Elements(activated)) == MappingsAt(w, Elements(activated));
          OwnsLess(w, RollBack(t, activated), Elements(activated));
        } else if r.value {
          OwnsMore(w, t, o);
          ElementsPush(activated, o);
          ActivateOwns(t, rest, failing, activated + [o]);
        } else {
          ActivateOwns(t, rest, failing, activated);
        }
      }
    }
  }
}
