/** Saving guest RAM as page references over generation files, and checking them on the way back. */
module RamRestore {
  import opened Basics
  import opened GuestRam
  import opened RamCheckpoint
  import A = Accounting

  /** A page reference as the manifest stores it, with a byte offset. */
  datatype PageState = PageState(id: nat, generation: GenId, offset: nat)

  datatype RamState = RamState(len: nat, pages: seq<PageState>)

  datatype RestoreError =
    | MissingGeneration(generation: GenId)
    | LengthMismatch
    | InvalidRange(page: nat)
    | ConflictingReferences(page: nat)

  type Disk = map<GenId, seq<Page>>

  // ---------------------------------------------------------------------
  // When a manifest is good
  // ---------------------------------------------------------------------

  predicate RangeOk(disk: Disk, p: PageState) {
    p.generation in disk && Aligned(p.offset) && p.offset + PAGE_SIZE <= |disk[p.generation]| * PAGE_SIZE
  }

  predicate SameReference(p: PageState, q: PageState) {
    p.id == q.id ==> p.generation == q.generation && p.offset == q.offset
  }

  /** The pages of all states, in order. */
  function AllPages(states: seq<RamState>): seq<PageState>
    decreases |states|
  {
    if states == [] then [] else AllPages(states[..|states| - 1]) + states[|states| - 1].pages
  }

  predicate PagesOk(disk: Disk, pages: seq<PageState>) {
    && (forall i :: 0 <= i < |pages| ==> RangeOk(disk, pages[i]))
    && (forall i, j :: 0 <= i < j < |pages| ==> SameReference(pages[i], pages[j]))
  }

  predicate LengthOk(state: RamState) {
    |state.pages| * PAGE_SIZE == state.len
  }

  /** Every page lies in its generation file, an id means one page, and lengths match. */
  predicate StatesOk(disk: Disk, states: seq<RamState>) {
    PagesOk(disk, AllPages(states)) && forall i :: 0 <= i < |states| ==> LengthOk(states[i])
  }

  /** Page `k` of a list is what the error says it is. */
  predicate WrongAt(disk: Disk, pages: seq<PageState>, k: nat, e: RestoreError)
    requires k < |pages|
  {
    match e
    case MissingGeneration(g) => pages[k].generation == g && g !in disk
    case LengthMismatch => false
    case InvalidRange(id) => pages[k].id == id && !RangeOk(disk, pages[k])
    case ConflictingReferences(id) => pages[k].id == id && exists j :: 0 <= j < k && !SameReference(pages[j], pages[k])
  }

  /** The error names something that is wrong. */
  ghost predicate Truthful(disk: Disk, states: seq<RamState>, e: RestoreError) {
    if e.LengthMismatch? then exists i :: 0 <= i < |states| && !LengthOk(states[i])
    else exists k: nat :: k < |AllPages(states)| && WrongAt(disk, AllPages(states), k, e)
  }

  lemma TruthfulMeansWrong(disk: Disk, states: seq<RamState>, e: RestoreError)
    requires Truthful(disk, states, e)
    ensures !StatesOk(disk, states)
  {
    if !e.LengthMismatch? {
      var k: nat :| k < |AllPages(states)| && WrongAt(disk, AllPages(states), k, e);
      WrongIsNotOk(disk, AllPages(states), k, e);
    }
  }

  lemma WrongIsNotOk(disk: Disk, pages: seq<PageState>, k: nat, e: RestoreError)
    requires k < |pages| && WrongAt(disk, pages, k, e)
    ensures !PagesOk(disk, pages)
  {
    if !e.ConflictingReferences? {
      assert !RangeOk(disk, pages[k]);
    }
  }

  function PageOf(p: PageState): RamPage {
    RamPage(p.id, p.generation, p.offset / PAGE_SIZE)
  }

  function PagesOf(state: RamState): seq<RamPage> {
    seq(|state.pages|, i requires 0 <= i < |state.pages| => PageOf(state.pages[i]))
  }

  // ---------------------------------------------------------------------
  // Restoring
  // ---------------------------------------------------------------------

  /** Open every generation some page names. */
  method FindGenerations(disk: Disk, pages: seq<PageState>) returns (missing: Option<GenId>)
    ensures missing.None? ==> forall i :: 0 <= i < |pages| ==> pages[i].generation in disk
    ensures missing.Some? ==> missing.value !in disk && exists i :: 0 <= i < |pages| && pages[i].generation == missing.value
  {
    for k := 0 to |pages|
      invariant forall i :: 0 <= i < k ==> pages[i].generation in disk
    {
      if pages[k].generation !in disk {
        return Some(pages[k].generation);
      }
    }
    return None;
  }

  /** Pages already restored, by id: the pages of a list whose references agree. */
  ghost predicate Interned(known: map<nat, RamPage>, pages: seq<PageState>) {
    && (forall i :: 0 <= i < |pages| ==> pages[i].id in known && known[pages[i].id] == PageOf(pages[i]))
    && (forall id :: id in known ==> exists i :: 0 <= i < |pages| && pages[i].id == id)
  }

  /** Check and intern one page after those in `before`. */
  method RestorePage(disk: Disk, ghost before: seq<PageState>, known: map<nat, RamPage>, page: PageState)
    returns (r: Result<map<nat, RamPage>, RestoreError>)
    requires PagesOk(disk, before) && Interned(known, before) && page.generation in disk
    ensures r.Ok? ==> PagesOk(disk, before + [page]) && Interned(r.value, before + [page])
    ensures r.Err? ==> !r.error.LengthMismatch? && WrongAt(disk, before + [page], |before|, r.error)
  {
    if page.offset % PAGE_SIZE != 0 || page.offset + PAGE_SIZE > |disk[page.generation]| * PAGE_SIZE {
      return Err(InvalidRange(page.id));
    }
    PushOk(disk, before, page);
    if page.id in known {
      var existing := known[page.id];
      if existing.generation != page.generation || existing.slot * PAGE_SIZE != page.offset {
        ghost var j :| 0 <= j < |before| && before[j].id == page.id;
        assert existing == PageOf(before[j]) && RangeOk(disk, before[j]);
        assert (before + [page])[j] == before[j] && !SameReference(before[j], page);
        return Err(ConflictingReferences(page.id));
      }
      AgreesWithKnown(disk, before, page, known);
      KnownPage(known, before, page);
      return Ok(known);
    }
    NewPage(known, before, page);
    return Ok(known[page.id := PageOf(page)]);
  }

  lemma KnownPage(known: map<nat, RamPage>, before: seq<PageState>, page: PageState)
    requires Interned(known, before) && page.id in known && known[page.id] == PageOf(page)
    ensures Interned(known, before + [page])
  {
    var all := before + [page];
    forall id | id in known ensures exists i :: 0 <= i < |all| && all[i].id == id {
      var i :| 0 <= i < |before| && before[i].id == id;
      assert all[i].id == id;
    }
  }

  lemma NewPage(known: map<nat, RamPage>, before: seq<PageState>, page: PageState)
    requires Interned(known, before) && page.id !in known
    ensures Interned(known[page.id := PageOf(page)], before + [page])
    ensures forall i :: 0 <= i < |before| ==> SameReference(before[i], page)
  {
    var all := before + [page];
    assert all[|before|] == page;
    forall id | id in known ensures exists i :: 0 <= i < |all| && all[i].id == id {
      var i :| 0 <= i < |before| && before[i].id == id;
      assert all[i].id == id;
    }
  }

  /** Check and intern the pages of one state after those in `before`. */
  method RestorePages(disk: Disk, ghost before: seq<PageState>, known: map<nat, RamPage>, pages: seq<PageState>)
    returns (r: Result<(seq<RamPage>, map<nat, RamPage>), RestoreError>)
    requires PagesOk(disk, before) && Interned(known, before)
    requires forall i :: 0 <= i < |pages| ==> pages[i].generation in disk
    ensures r.Ok? ==>
      && PagesOk(disk, before + pages) && Interned(r.value.1, before + pages) && |r.value.0| == |pages|
      && forall i :: 0 <= i < |pages| ==> r.value.0[i] == PageOf(pages[i])
    ensures r.Err? ==> !r.error.LengthMismatch? && exists k: nat :: k < |before + pages| && WrongAt(disk, before + pages, k, r.error)
  {
    hide PagesOk, Interned, WrongAt;
    var interned: map<nat, RamPage>, branch := known, [];
    assert before + pages[..0] == before;
    while |branch| < |pages|
      invariant |branch| <= |pages|
      invariant PagesOk(disk, before + pages[..|branch|]) && Interned(interned, before + pages[..|branch|])
      invariant forall i :: 0 <= i < |branch| ==> branch[i] == PageOf(pages[i])
    {
      var k := |branch|;
      ghost var now := before + pages[..k];
      assert before + pages[..k + 1] == now + [pages[k]];
      var next := RestorePage(disk, now, interned, pages[k]);
      if next.Err? {
        WrongEarlier(disk, now + [pages[k]], before + pages, |now|, next.error);
        return Err(next.error);
      }
      interned := next.value;
      branch := branch + [PageOf(pages[k])];
    }
    assert pages[..|branch|] == pages;
    return Ok((branch, interned));
  }

  lemma WrongEarlier(disk: Disk, some: seq<PageState>, all: seq<PageState>, k: nat, e: RestoreError)
    requires k < |some| <= |all| && all[..|some|] == some && WrongAt(disk, some, k, e)
    ensures WrongAt(disk, all, k, e)
  {
    assert all[k] == some[k];
    if e.ConflictingReferences? {
      var j :| 0 <= j < k && !SameReference(some[j], some[k]);
      assert all[j] == some[j];
    }
  }

  lemma PushOk(disk: Disk, pages: seq<PageState>, page: PageState)
    ensures PagesOk(disk, pages + [page]) <==>
      PagesOk(disk, pages) && RangeOk(disk, page) && forall i :: 0 <= i < |pages| ==> SameReference(pages[i], page)
  {
    var all := pages + [page];
    assert all[|pages|] == page;
    assert forall i :: 0 <= i < |pages| ==> all[i] == pages[i];
    if PagesOk(disk, all) {
      forall i | 0 <= i < |pages| ensures RangeOk(disk, pages[i]) && SameReference(pages[i], page) {
        assert RangeOk(disk, all[i]) && SameReference(all[i], all[|pages|]);
      }
      forall i, j | 0 <= i < j < |pages| ensures SameReference(pages[i], pages[j]) { assert SameReference(all[i], all[j]); }
      assert RangeOk(disk, all[|pages|]);
    }
  }

  /** A page whose known reference is its own agrees with every earlier page. */
  lemma AgreesWithKnown(disk: Disk, now: seq<PageState>, page: PageState, known: map<nat, RamPage>)
    requires PagesOk(disk, now) && RangeOk(disk, page) && page.id in known && known[page.id] == PageOf(page)
    requires forall i :: 0 <= i < |now| ==> now[i].id in known && known[now[i].id] == PageOf(now[i])
    ensures forall i :: 0 <= i < |now| ==> SameReference(now[i], page)
  {
    forall i | 0 <= i < |now| ensures SameReference(now[i], page) { assert RangeOk(disk, now[i]); }
  }

  datatype Restored = Restored(branches: seq<seq<RamPage>>, nextPage: nat, nextGen: nat)

  function MaxPage(pages: seq<PageState>, nextPage: nat): (m: nat)
    ensures nextPage <= m && forall i :: 0 <= i < |pages| ==> pages[i].id < m
    ensures m == nextPage || exists i :: 0 <= i < |pages| && pages[i].id + 1 == m
    decreases |pages|
  {
    if pages == [] then nextPage
    else
      var rest := MaxPage(pages[..|pages| - 1], nextPage);
      var id := pages[|pages| - 1].id;
      if rest < id + 1 then id + 1 else rest
  }

  function MaxGeneration(pages: seq<PageState>, nextGen: nat): (m: nat)
    ensures nextGen <= m && forall i :: 0 <= i < |pages| ==> pages[i].generation < m
    ensures m == nextGen || exists i :: 0 <= i < |pages| && pages[i].generation + 1 == m
    decreases |pages|
  {
    if pages == [] then nextGen
    else
      var rest := MaxGeneration(pages[..|pages| - 1], nextGen);
      var g := pages[|pages| - 1].generation;
      if rest < g + 1 then g + 1 else rest
  }

  /** Restoring succeeds exactly on a good manifest, and then every branch has its pages; ids start past all of them. */
  method Restore(disk: Disk, states: seq<RamState>, nextPage: nat, nextGen: nat) returns (r: Result<Restored, RestoreError>)
    ensures r.Ok? <==> StatesOk(disk, states)
    ensures r.Err? ==> Truthful(disk, states, r.error)
    ensures r.Ok? ==>
      && |r.value.branches| == |states|
      && (forall i :: 0 <= i < |states| ==> r.value.branches[i] == PagesOf(states[i]))
      && r.value.nextPage == MaxPage(AllPages(states), nextPage)
      && r.value.nextGen == MaxGeneration(AllPages(states), nextGen)
  {
    hide PagesOk, Interned, WrongAt;
    var all := AllPages(states);
    var missing := FindGenerations(disk, all);
    if missing.Some? {
      MissingIsTruthful(disk, states, missing.value);
      TruthfulMeansWrong(disk, states, MissingGeneration(missing.value));
      return Err(MissingGeneration(missing.value));
    }
    var known: map<nat, RamPage>, branches: seq<seq<RamPage>> := map[], [];
    EmptyOk(disk);
    while |branches| < |states|
      invariant |branches| <= |states|
      invariant PagesOk(disk, AllPages(states[..|branches|])) && Interned(known, AllPages(states[..|branches|]))
      invariant forall i :: 0 <= i < |branches| ==> branches[i] == PagesOf(states[i]) && LengthOk(states[i])
    {
      var k := |branches|;
      var state := states[k];
      if |state.pages| * PAGE_SIZE != state.len {
        assert !LengthOk(states[k]);
        return Err(LengthMismatch);
      }
      ghost var before := AllPages(states[..k]);
      assert states[..k + 1][..k] == states[..k];
      PagesWithin(states, k);
      var pages := RestorePages(disk, before, known, state.pages);
      if pages.Err? {
        ghost var j: nat :| j < |before + state.pages| && WrongAt(disk, before + state.pages, j, pages.error);
        WrongEarlier(disk, before + state.pages, all, j, pages.error);
        TruthfulMeansWrong(disk, states, pages.error);
        return Err(pages.error);
      }
      known := pages.value.1;
      assert pages.value.0 == PagesOf(state);
      branches := branches + [pages.value.0];
    }
    assert states[..|branches|] == states;
    return Ok(Restored(branches, MaxPage(all, nextPage), MaxGeneration(all, nextGen)));
  }

  lemma EmptyOk(disk: Disk)
    ensures PagesOk(disk, []) && Interned(map[], [])
  {
  }

  lemma MissingIsTruthful(disk: Disk, states: seq<RamState>, g: GenId)
    requires g !in disk && exists i :: 0 <= i < |AllPages(states)| && AllPages(states)[i].generation == g
    ensures Truthful(disk, states, MissingGeneration(g))
  {
    var i: nat :| i < |AllPages(states)| && AllPages(states)[i].generation == g;
    assert WrongAt(disk, AllPages(states), i, MissingGeneration(g));
  }

  /** The pages of the first states and of one more are the first pages of all. */
  lemma {:induction false} PagesWithin(states: seq<RamState>, k: nat)
    requires k < |states|
    ensures var some, all := AllPages(states[..k]) + states[k].pages, AllPages(states);
      |some| <= |all| && all[..|some|] == some
      && forall i :: 0 <= i < |states[k].pages| ==> states[k].pages[i] in all
    decreases |states|
  {
    var last := |states| - 1;
    var some := AllPages(states[..k]) + states[k].pages;
    if k < last {
      assert states[..last][..k] == states[..k];
      PagesWithin(states[..last], k);
    }
    assert some <= AllPages(states);
    forall i | 0 <= i < |states[k].pages| ensures states[k].pages[i] in AllPages(states) {
      assert some[|AllPages(states[..k])| + i] == states[k].pages[i];
      assert AllPages(states)[|AllPages(states[..k])| + i] == states[k].pages[i];
    }
  }

  // ---------------------------------------------------------------------
  // Saving
  // ---------------------------------------------------------------------

  function StateOf(pages: seq<RamPage>): RamState {
    RamState(|pages| * PAGE_SIZE,
             seq(|pages|, i requires 0 <= i < |pages| => PageState(pages[i].id, pages[i].generation, pages[i].slot * PAGE_SIZE)))
  }

  lemma StateRoundTrip(pages: seq<RamPage>)
    ensures PagesOf(StateOf(pages)) == pages && LengthOk(StateOf(pages))
  {
    forall i | 0 <= i < |pages| ensures PagesOf(StateOf(pages))[i] == pages[i] {
      assert pages[i].slot * PAGE_SIZE / PAGE_SIZE == pages[i].slot;
    }
  }

  function GenerationsOf(pages: seq<RamPage>): set<GenId> {
    set i | 0 <= i < |pages| :: pages[i].generation
  }

  /** The directory has gained exactly the named generations it lacked, as the files have them, and lost nothing. */
  ghost predicate Persisted(named: set<GenId>, files: Disk, disk: Disk, saved: Disk) {
    && saved.Keys == disk.Keys + named
    && (forall g :: g in disk ==> saved[g] == disk[g])
    && (forall g :: g in named && g !in disk ==> g in files && saved[g] == files[g])
  }

  /** The page lies in its generation as the directory has it. */
  predicate LiesIn(disk: Disk, p: RamPage) {
    p.generation in disk && p.slot < |disk[p.generation]|
  }

  /** Every page lies in its generation, and an id means one place. */
  predicate GoodPages(disk: Disk, pages: seq<RamPage>) {
    && (forall i :: 0 <= i < |pages| ==> LiesIn(disk, pages[i]))
    && (forall i, j :: 0 <= i < j < |pages| && pages[i].id == pages[j].id ==>
          pages[i].generation == pages[j].generation && pages[i].slot == pages[j].slot)
  }

  /** The saved references of good pages pass every check. */
  lemma GoodPagesPass(disk: Disk, pages: seq<RamPage>)
    requires GoodPages(disk, pages)
    ensures StatesOk(disk, [StateOf(pages)])
  {
    var states := [StateOf(pages)];
    assert states[..0] == [] && AllPages(states) == [] + StateOf(pages).pages;
    StateRoundTrip(pages);
    forall i | 0 <= i < |pages| ensures RangeOk(disk, AllPages(states)[i]) {
      assert LiesIn(disk, pages[i]);
    }
  }

  /** And whatever passes lies in its files, with lengths that match and one place for each id. */
  lemma PassingPagesAreGood(disk: Disk, states: seq<RamState>, k: nat, l: nat)
    requires StatesOk(disk, states) && k < |AllPages(states)| && l < |AllPages(states)|
    ensures var p, q := PageOf(AllPages(states)[k]), PageOf(AllPages(states)[l]);
      && LiesIn(disk, p) && AllPages(states)[k].offset == p.slot * PAGE_SIZE
      && (p.id == q.id ==> p.generation == q.generation && p.slot == q.slot)
    ensures forall i :: 0 <= i < |states| ==> states[i].len == |PagesOf(states[i])| * PAGE_SIZE
  {
    var pages := AllPages(states);
    assert RangeOk(disk, pages[k]) && RangeOk(disk, pages[l]);
    assert k < l ==> SameReference(pages[k], pages[l]);
    assert l < k ==> SameReference(pages[l], pages[k]);
    forall i | 0 <= i < |states| ensures states[i].len == |PagesOf(states[i])| * PAGE_SIZE { assert LengthOk(states[i]); }
  }

  /**
   Copy each generation of a VM to the directory once, leaving those already
   there alone. What is returned restores from the directory as it then is.
   */
  method DurableState(pages: seq<RamPage>, files: Disk, disk: Disk) returns (state: RamState, saved: Disk)
    requires forall i :: 0 <= i < |pages| ==> pages[i].generation in files
    ensures forall i :: 0 <= i < |pages| ==> pages[i].generation in saved
    ensures forall g :: g in saved ==> g in disk || exists i :: 0 <= i < |pages| && pages[i].generation == g
    ensures forall g :: g in disk ==> g in saved && saved[g] == disk[g]
    ensures forall g :: g in saved && g !in disk ==> g in files && saved[g] == files[g]
    ensures PagesOf(state) == pages && LengthOk(state)
    ensures GoodPages(saved, pages) ==> StatesOk(saved, [state])
  {
    saved := disk;
    var persisted: set<GenId> := {};
    for k := 0 to |pages|
      invariant persisted == GenerationsOf(pages[..k]) && Persisted(persisted, files, disk, saved)
    {
      var g := pages[k].generation;
      GenerationsPush(pages, k);
      if g !in persisted {
        persisted := persisted + {g};
        if g !in saved {
          saved := saved[g := files[g]];
        }
      }
    }
    assert pages[..|pages|] == pages;
    state := StateOf(pages);
    StateRoundTrip(pages);
    if GoodPages(saved, pages) {
      GoodPagesPass(saved, pages);
    }
  }

  lemma GenerationsPush(pages: seq<RamPage>, k: nat)
    requires k < |pages|
    ensures GenerationsOf(pages[..k + 1]) == GenerationsOf(pages[..k]) + {pages[k].generation}
  {
    var a, b := pages[..k + 1], pages[..k];
    forall g ensures g in GenerationsOf(a) <==> g in GenerationsOf(b) + {pages[k].generation} {
      if g in GenerationsOf(a) {
        var i :| 0 <= i < |a| && a[i].generation == g;
        assert i < k ==> b[i].generation == g;
      }
      if g in GenerationsOf(b) {
        var i :| 0 <= i < |b| && b[i].generation == g;
        assert a[i].generation == g;
      }
      assert a[k].generation == pages[k].generation;
    }
  }

  /** Scan the directory's generation numbers and continue past all of them. */
  method ReserveGenerationIds(disk: Disk, nextGen: nat) returns (next: nat)
    ensures nextGen <= next && 1 <= next && forall g :: g in disk ==> g < next
    ensures next == nextGen || next == 1 || next - 1 in disk
  {
    var reserved, todo := 1, disk.Keys;
    while todo != {}
      invariant todo <= disk.Keys && 1 <= reserved && (reserved == 1 || reserved - 1 in disk)
      invariant forall g :: g in disk && g !in todo ==> g < reserved
      decreases todo
    {
      var g :| g in todo;
      if reserved < g + 1 {
        reserved := g + 1;
      }
      todo := todo - {g};
    }
    next := if nextGen < reserved then reserved else nextGen;
  }

  // ---------------------------------------------------------------------
  // A recorded checkpoint restores
  // ---------------------------------------------------------------------

  /** The manifest of a recorded checkpoint's VMs. */
  function Manifest(saved: Saved, order: seq<VmId>): seq<RamState>
    requires forall i :: 0 <= i < |order| ==> order[i] in saved.vms
  {
    seq(|order|, i requires 0 <= i < |order| => StateOf(saved.vms[order[i]]))
  }

  /** Every page of a manifest is a page of one of its VMs. */
  lemma {:induction false} PageOfVm(saved: Saved, order: seq<VmId>, k: nat) returns (vm: VmId, i: nat)
    requires forall j :: 0 <= j < |order| ==> order[j] in saved.vms
    requires k < |AllPages(Manifest(saved, order))|
    ensures vm in saved.vms && i < |saved.vms[vm]|
    ensures AllPages(Manifest(saved, order))[k]
         == PageState(saved.vms[vm][i].id, saved.vms[vm][i].generation, saved.vms[vm][i].slot * PAGE_SIZE)
    decreases |order|
  {
    var n := |order| - 1;
    var states, before := Manifest(saved, order), Manifest(saved, order[..n]);
    assert states[..n] == before;
    if k < |AllPages(before)| {
      vm, i := PageOfVm(saved, order[..n], k);
    } else {
      vm, i := order[n], k - |AllPages(before)|;
    }
  }

  /** The manifest of any recorded checkpoint passes every check, however long ago it was taken. */
  lemma CheckpointPassesChecks(d: Durable, k: nat, order: seq<VmId>)
    requires DurableInv(d) && k < |d.log| && forall j :: 0 <= j < |order| ==> order[j] in d.log[k].vms
    ensures StatesOk(d.disk, Manifest(d.log[k], order))
  {
    var saved, pages := d.log[k], AllPages(Manifest(d.log[k], order));
    forall a: nat | a < |pages| ensures RangeOk(d.disk, pages[a]) {
      var vm, i := PageOfVm(saved, order, a);
      assert SavedPageOk(d, k, vm, i);
    }
    forall a: nat, b: nat | a < b < |pages| ensures SameReference(pages[a], pages[b]) {
      var vm, i := PageOfVm(saved, order, a);
      var other, j := PageOfVm(saved, order, b);
      assert SavedIdOk(d, k, vm, i, other, j);
    }
    forall j | 0 <= j < |order| ensures LengthOk(Manifest(saved, order)[j]) {
      StateRoundTrip(saved.vms[order[j]]);
    }
  }

  // ---------------------------------------------------------------------
  // Counting
  // ---------------------------------------------------------------------

  datatype RamAccount = RamAccount(pages: A.Account, backingFiles: nat)

  function PageIds(pages: seq<RamPage>): set<nat> {
    set i | 0 <= i < |pages| :: pages[i].id
  }

  ghost function AllGenerations(branches: seq<seq<RamPage>>): set<GenId> {
    set i, g | 0 <= i < |branches| && g in GenerationsOf(branches[i]) :: g
  }

  /** A page-sized slot of a generation file. */
  datatype Place = Place(generation: GenId, slot: nat)

  function PlaceOf(p: RamPage): Place {
    Place(p.generation, p.slot)
  }

  /** The places each branch refers to. */
  ghost function Places(branches: seq<seq<RamPage>>): seq<set<Place>> {
    seq(|branches|, i requires 0 <= i < |branches| => set a | 0 <= a < |branches[i]| :: PlaceOf(branches[i][a]))
  }

  /** Two pages have one id exactly when they are one place. */
  ghost predicate IdsMeanPlaces(branches: seq<seq<RamPage>>) {
    forall i, a, j, b {:trigger branches[i][a], branches[j][b]} ::
      0 <= i < |branches| && 0 <= j < |branches| && 0 <= a < |branches[i]| && 0 <= b < |branches[j]| ==>
      (branches[i][a].id == branches[j][b].id <==> PlaceOf(branches[i][a]) == PlaceOf(branches[j][b]))
  }

  /** The generation files behind some places. */
  ghost function FilesBehind(places: set<Place>): set<GenId> {
    set p | p in places :: p.generation
  }

  /**
   How many places the branches refer to, how many two of them refer to, and
   how many generation files are behind them.
   */
  method PageAccounting(branches: seq<seq<RamPage>>) returns (account: RamAccount)
    ensures var seen := seq(|branches|, i requires 0 <= i < |branches| => PageIds(branches[i]));
      account.pages == A.Account(|A.Resident(seen)|, |A.Shared(seen)|)
    ensures IdsMeanPlaces(branches) ==>
      account.pages == A.Account(|A.AllOf(Places(branches))|, |A.HeldTwice(Places(branches))|)
    ensures account.backingFiles == |FilesBehind(A.AllOf(Places(branches)))|
  {
    var backing: set<GenId> := {};
    for k := 0 to |branches|
      invariant backing == AllGenerations(branches[..k])
    {
      backing := backing + GenerationsOf(branches[k]);
      assert backing == AllGenerations(branches[..k + 1]) by {
        BackingPush(branches, k);
      }
    }
    assert branches[..|branches|] == branches;
    BackingIsBehind(branches);
    var seen := seq(|branches|, i requires 0 <= i < |branches| => PageIds(branches[i]));
    var counted := A.CountReferences(seen);
    if IdsMeanPlaces(branches) {
      IdsCountPlaces(branches);
    }
    account := RamAccount(counted, |backing|);
  }

  lemma BackingIsBehind(branches: seq<seq<RamPage>>)
    ensures AllGenerations(branches) == FilesBehind(A.AllOf(Places(branches)))
  {
    var places := Places(branches);
    forall g ensures g in AllGenerations(branches) <==> g in FilesBehind(A.AllOf(places)) {
      if g in AllGenerations(branches) {
        var i :| 0 <= i < |branches| && g in GenerationsOf(branches[i]);
        var a :| 0 <= a < |branches[i]| && branches[i][a].generation == g;
        assert PlaceOf(branches[i][a]) in places[i];
      }
      if g in FilesBehind(A.AllOf(places)) {
        var p :| p in A.AllOf(places) && p.generation == g;
        var i :| 0 <= i < |places| && p in places[i];
        var a :| 0 <= a < |branches[i]| && PlaceOf(branches[i][a]) == p;
        assert g in GenerationsOf(branches[i]);
      }
    }
  }

  /** The id of the pages at a place. */
  ghost function IdAt(branches: seq<seq<RamPage>>, p: Place): nat
    requires p in A.AllOf(Places(branches))
  {
    var i, a :| 0 <= i < |branches| && 0 <= a < |branches[i]| && PlaceOf(branches[i][a]) == p;
    branches[i][a].id
  }

  lemma IdAtIs(branches: seq<seq<RamPage>>, i: nat, a: nat)
    requires IdsMeanPlaces(branches) && i < |branches| && a < |branches[i]|
    ensures PlaceOf(branches[i][a]) in Places(branches)[i] && PlaceOf(branches[i][a]) in A.AllOf(Places(branches))
    ensures IdAt(branches, PlaceOf(branches[i][a])) == branches[i][a].id
  {
    var p := PlaceOf(branches[i][a]);
    assert p in Places(branches)[i];
    var j, b :| 0 <= j < |branches| && 0 <= b < |branches[j]| && PlaceOf(branches[j][b]) == p
      && IdAt(branches, p) == branches[j][b].id;
  }

  lemma PlaceHasPage(branches: seq<seq<RamPage>>, p: Place) returns (i: nat, a: nat)
    requires p in A.AllOf(Places(branches))
    ensures i < |branches| && a < |branches[i]| && PlaceOf(branches[i][a]) == p
  {
    i :| 0 <= i < |branches| && p in Places(branches)[i];
    a :| 0 <= a < |branches[i]| && PlaceOf(branches[i][a]) == p;
  }

  lemma IdsCountPlaces(branches: seq<seq<RamPage>>)
    requires IdsMeanPlaces(branches)
    ensures var seen := seq(|branches|, i requires 0 <= i < |branches| => PageIds(branches[i]));
      |A.Resident(seen)| == |A.AllOf(Places(branches))| && |A.Shared(seen)| == |A.HeldTwice(Places(branches))|
  {
    var parts := Places(branches);
    var seen := seq(|branches|, i requires 0 <= i < |branches| => PageIds(branches[i]));
    var name := map p | p in A.AllOf(parts) :: IdAt(branches, p);
    forall p, q | p in name && q in name && name[p] == name[q] ensures p == q {
      var i, a := PlaceHasPage(branches, p);
      var j, b := PlaceHasPage(branches, q);
      IdAtIs(branches, i, a);
      IdAtIs(branches, j, b);
    }
    forall i | 0 <= i < |parts| ensures A.NamedBy(parts[i], name, seen[i]) { PartIsNamed(branches, name, i); }
    A.NamesCountThings(parts, name, seen);
  }

  lemma PartIsNamed(branches: seq<seq<RamPage>>, name: map<Place, nat>, i: nat)
    requires IdsMeanPlaces(branches) && i < |branches|
    requires name == map p | p in A.AllOf(Places(branches)) :: IdAt(branches, p)
    ensures A.NamedBy(Places(branches)[i], name, PageIds(branches[i]))
  {
    var part, ids := Places(branches)[i], PageIds(branches[i]);
    forall p | p in part ensures p in name && name[p] in ids {
      var a :| 0 <= a < |branches[i]| && PlaceOf(branches[i][a]) == p;
      IdAtIs(branches, i, a);
    }
    forall id | id in ids ensures exists p :: p in part && p in name && name[p] == id {
      var a :| 0 <= a < |branches[i]| && branches[i][a].id == id;
      IdAtIs(branches, i, a);
      assert name[PlaceOf(branches[i][a])] == id;
    }
  }

  lemma BackingPush(branches: seq<seq<RamPage>>, k: nat)
    requires k < |branches|
    ensures AllGenerations(branches[..k + 1]) == AllGenerations(branches[..k]) + GenerationsOf(branches[k])
  {
    hide GenerationsOf;
    var a, b := branches[..k + 1], branches[..k];
    forall g ensures g in AllGenerations(a) <==> g in AllGenerations(b) + GenerationsOf(branches[k]) {
      if g in AllGenerations(a) {
        var i :| 0 <= i < |a| && g in GenerationsOf(a[i]);
        assert i < k ==> g in GenerationsOf(b[i]);
      }
      if g in AllGenerations(b) {
        var i :| 0 <= i < |b| && g in GenerationsOf(b[i]);
        assert g in GenerationsOf(a[i]);
      }
      assert g in GenerationsOf(branches[k]) ==> g in GenerationsOf(a[k]);
    }
  }
}
