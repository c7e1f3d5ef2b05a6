/**
 Whole runs of the shared page cache refine a forest of deep copies.

 The specification keeps, for every live branch, its own copy of every file:
 forking copies all of them, and a store through a mapping overwrites bytes of
 one file of one branch. Nothing else has an effect.
 */
module CacheRuns {
  import opened Basics
  import opened Identities
  import opened PageCache
  import opened CacheInvariant
  import opened CacheSteps

  // ---------------------------------------------------------------------
  // The specification
  // ---------------------------------------------------------------------

  type Forest = map<BranchId, map<NodeId, seq<Byte>>>

  datatype Effect =
    | NoEffect
    | Forked(source: BranchId, child: BranchId)
    | Removed(branch: BranchId)
    | Created(branch: BranchId, node: NodeId, size: nat)
    | Stored(branch: BranchId, node: NodeId, offset: nat, bytes: seq<Byte>)

  /** `bytes` written at `offset`; what would lie beyond the end of the file is lost. */
  function Overwrite(file: seq<Byte>, offset: nat, bytes: seq<Byte>): seq<Byte> {
    seq(|file|, i requires 0 <= i < |file| =>
      if offset <= i < offset + |bytes| then bytes[i - offset] else file[i])
  }

  function SetFile(v: Forest, b: BranchId, node: NodeId, file: seq<Byte>): Forest
    requires b in v
  {
    var files: map<NodeId, seq<Byte>> := v[b][node := file];
    v[b := files]
  }

  function Apply(v: Forest, e: Effect): Forest {
    match e
    case NoEffect => v
    case Forked(source, child) => if source in v then v[child := v[source]] else v
    case Removed(b) => v - {b}
    case Created(b, node, size) => if b in v then SetFile(v, b, node, Zeros(size)) else v
    case Stored(b, node, offset, bytes) =>
      if b in v && node in v[b] then SetFile(v, b, node, Overwrite(v[b][node], offset, bytes)) else v
  }

  // ---------------------------------------------------------------------
  // The cache's view
  // ---------------------------------------------------------------------

  /** Byte `i` of a file, as the branch reads it through the cache. */
  function ByteAt(s: State, b: BranchId, n: NodeId, i: nat): Byte
    requires b in s.branches
  {
    var bytes := PageBytes(s, b, PageKey(n, i / PAGE_SIZE));
    if i % PAGE_SIZE < |bytes| then bytes[i % PAGE_SIZE] else 0
  }

  function FileView(s: State, b: BranchId, n: NodeId): (f: seq<Byte>)
    requires b in s.branches
    ensures |f| == |FileOf(s, b, n)|
    ensures forall i :: 0 <= i < |f| ==> f[i] == ByteAt(s, b, n, i)
  {
    seq(|FileOf(s, b, n)|, i requires 0 <= i => ByteAt(s, b, n, i))
  }

  function BranchView(s: State, b: BranchId): map<NodeId, seq<Byte>>
    requires b in s.branches
  {
    map n | n in Objects(s, b) :: FileView(s, b, n)
  }

  function View(s: State): Forest {
    map b | b in s.branches :: BranchView(s, b)
  }

  lemma SameFileView(s: State, t: State, b: BranchId, c: BranchId, n: NodeId)
    requires b in s.branches && c in t.branches
    requires |FileOf(s, b, n)| == |FileOf(t, c, n)|
    requires forall key: PageKey {:trigger PageBytes(t, c, key)} :: key.node == n ==> PageBytes(s, b, key) == PageBytes(t, c, key)
    ensures FileView(s, b, n) == FileView(t, c, n)
  {
    forall i | 0 <= i < |FileOf(s, b, n)| ensures FileView(s, b, n)[i] == FileView(t, c, n)[i] {
      assert PageBytes(s, b, PageKey(n, i / PAGE_SIZE)) == PageBytes(t, c, PageKey(n, i / PAGE_SIZE));
    }
  }

  lemma SameBranchView(s: State, t: State, b: BranchId)
    requires SameBytes(s, t) && b in s.branches && b in t.branches
    ensures BranchView(s, b) == BranchView(t, b)
  {
    assert SameFiles(s, t, b);
    forall n | n in Objects(s, b) ensures FileView(s, b, n) == FileView(t, b, n) {
      assert |FileOf(s, b, n)| == |FileOf(t, b, n)|;
      forall key: PageKey | key.node == n ensures PageBytes(s, b, key) == PageBytes(t, b, key) {
        assert SamePage(s, t, b, key);
      }
      SameFileView(s, t, b, b, n);
    }
  }

  lemma SameView(s: State, t: State)
    requires SameBytes(s, t) && s.branches.Keys == t.branches.Keys
    ensures View(s) == View(t)
  {
    forall b | b in s.branches ensures View(s)[b] == View(t)[b] { SameBranchView(s, t, b); }
  }

  // ---------------------------------------------------------------------
  // Steps
  // ---------------------------------------------------------------------

  datatype Step =
    | DoFork(source: BranchId)
    | DoRemove(branch: BranchId)
    | DoOpen(branch: BranchId, node: NodeId, ok: bool)
    | DoClose(branch: BranchId, node: NodeId, ok: bool)
    | DoCreate(branch: BranchId, node: NodeId, size: nat)
    | DoMap(branch: BranchId, node: NodeId, offset: nat, flags: MapFlags)
    | DoUnmap(branch: BranchId, mapping: Mapping)
    | DoStore(mapping: Mapping, within: nat, bytes: seq<Byte>)
    | DoSync(branch: BranchId, keys: seq<PageKey>)

  /**
   What the users of the cache owe it: they return and store through mappings
   they hold, store only through writable ones, and create files under node ids
   the branch does not use. A write-back goes through dirty pages, each once.
   */
  ghost predicate Legal(s: State, step: Step) {
    match step
    case DoCreate(b, node, size) => b in s.branches && node !in Objects(s, b)
    case DoUnmap(b, m) => m in s.mappings
    case DoStore(m, within, bytes) => m in s.mappings && m.flags.write && within + |bytes| <= PAGE_SIZE
    case DoSync(b, keys) =>
      b in s.branches && Distinct(keys) && (forall i :: 0 <= i < |keys| ==> keys[i] in s.branches[b].dirty)
    case _ => true
  }

  function Next(s: State, step: Step): State {
    match step
    case DoFork(source) => Fork(s, source).0
    case DoRemove(b) => RemoveBranch(s, b).0
    case DoOpen(b, node, ok) => Open(s, b, node, ok).0
    case DoClose(b, node, ok) => Close(s, b, node, ok).0
    case DoCreate(b, node, size) => if b in s.branches then CreateFile(s, b, node, size) else s
    case DoMap(b, node, offset, flags) => MapPage(s, b, node, offset, flags).0
    case DoUnmap(b, m) => Unmap(s, b, m).0
    case DoStore(m, within, bytes) =>
      if m.page in s.heap && within + |bytes| <= |s.heap[m.page]| then StoreThrough(s, m, within, bytes) else s
    case DoSync(b, keys) => if b in s.branches then SyncPages(s, b, keys).0 else s
  }

  function EffectOf(s: State, step: Step): Effect {
    match step
    case DoFork(source) =>
      (match Fork(s, source).1 case Ok(child) => Forked(source, child) case Err(_) => NoEffect)
    case DoRemove(b) => if RemoveBranch(s, b).1.Ok? then Removed(b) else NoEffect
    case DoCreate(b, node, size) => Created(b, node, size)
    case DoStore(m, within, bytes) => Stored(m.branch, m.key.node, Offset(m.key) + within, bytes)
    case _ => NoEffect
  }

  lemma {:induction false} SyncPagesKeepsInv(s: State, b: BranchId, keys: seq<PageKey>)
    requires Inv(s) && Legal(s, DoSync(b, keys))
    ensures var (t, r) := SyncPages(s, b, keys);
      && r.Ok? && Inv(t) && SameBytes(s, t) && t.branches.Keys == s.branches.Keys
      && t.mappings == s.mappings && t.branches[b].active == s.branches[b].active
      && t.branches[b].dirty == s.branches[b].dirty - (set key | key in keys)
    decreases |keys|
  {
    if keys == [] {
      HandlesKeepInv(s, s);
    } else {
      SyncPageSucceeds(s, b, keys[0]);
      SyncPageKeepsInv(s, b, keys[0]);
      var s1 := SyncPage(s, b, keys[0]).0;
      forall i | 0 <= i < |keys[1..]| ensures keys[1..][i] in s1.branches[b].dirty {
        assert keys[0] != keys[i + 1];
      }
      SyncPagesKeepsInv(s1, b, keys[1..]);
      SameBytesTransitive(s, s1, SyncPages(s1, b, keys[1..]).0);
    }
  }

  /** Every step keeps the invariant and has exactly its specified effect on the view. */
  lemma StepRefines(s: State, step: Step)
    requires Inv(s) && Legal(s, step)
    ensures Inv(Next(s, step))
    ensures View(Next(s, step)) == Apply(View(s), EffectOf(s, step))
  {
    match step
    case DoFork(source) => ForkRefines(s, source);
    case DoRemove(b) => RemoveRefines(s, b);
    case DoOpen(b, node, ok) => OpenKeepsInv(s, b, node, ok); SameView(s, Open(s, b, node, ok).0);
    case DoClose(b, node, ok) => CloseKeepsInv(s, b, node, ok); SameView(s, Close(s, b, node, ok).0);
    case DoCreate(b, node, size) => CreateRefines(s, b, node, size);
    case DoMap(b, node, offset, flags) =>
      MapPageKeepsInv(s, b, node, offset, flags);
      SameView(s, MapPage(s, b, node, offset, flags).0);
    case DoUnmap(b, m) =>
      if b == m.branch {
        UnmapKeepsInv(s, m);
        SameView(s, Unmap(s, b, m).0);
      } else {
        UnmapSucceeds(s, b, m);
      }
    case DoStore(m, within, bytes) => StoreRefines(s, m, within, bytes);
    case DoSync(b, keys) => SyncPagesKeepsInv(s, b, keys); SameView(s, SyncPages(s, b, keys).0);
  }

  lemma ForkRefines(s: State, source: BranchId)
    requires Inv(s)
    ensures Inv(Fork(s, source).0)
    ensures View(Fork(s, source).0) == Apply(View(s), EffectOf(s, DoFork(source)))
  {
    var (t, r) := Fork(s, source);
    ForkKeepsInv(s, source);
    if r.Ok? {
      CopiedView(s, t, source, r.value);
    } else {
      SameView(s, t);
    }
  }

  lemma CopiedView(s: State, t: State, source: BranchId, child: BranchId)
    requires SameBytes(s, t) && Copied(s, t, source, child)
    ensures View(t) == View(s)[child := View(s)[source]]
  {
    forall b | b in s.branches ensures BranchView(t, b) == BranchView(s, b) { SameBranchView(s, t, b); }
    CopiedBranchView(s, t, source, child);
  }

  lemma CopiedBranchView(s: State, t: State, source: BranchId, child: BranchId)
    requires Copied(s, t, source, child)
    ensures BranchView(t, child) == BranchView(s, source)
  {
    forall n | n in Objects(s, source) ensures FileView(t, child, n) == FileView(s, source, n) {
      SameFileView(s, t, source, child, n);
    }
  }

  lemma RemoveRefines(s: State, b: BranchId)
    requires Inv(s)
    ensures Inv(RemoveBranch(s, b).0)
    ensures View(RemoveBranch(s, b).0) == Apply(View(s), EffectOf(s, DoRemove(b)))
  {
    var (t, r) := RemoveBranch(s, b);
    RemoveKeepsInv(s, b);
    if r.Ok? {
      forall c | c in t.branches ensures View(t)[c] == View(s)[c] { SameBranchView(s, t, c); }
    } else {
      SameView(s, t);
    }
  }

  /** One file of one branch changes, or appears; every other file reads as before. */
  lemma ChangedView(s: State, t: State, b: BranchId, node: NodeId, file: seq<Byte>)
    requires b in s.branches && t.branches.Keys == s.branches.Keys
    requires forall c {:trigger Objects(t, c)} :: c in s.branches ==>
      Objects(t, c).Keys == Objects(s, c).Keys + (if c == b then {node} else {})
    requires FileView(t, b, node) == file
    requires forall c, n {:trigger FileView(t, c, n)} :: c in s.branches && n in Objects(s, c) && (c != b || n != node) ==>
      FileView(t, c, n) == FileView(s, c, n)
    ensures View(t) == SetFile(View(s), b, node, file)
  {
    hide BranchView, FileView;
    forall c | c in s.branches && c != b ensures BranchView(t, c) == BranchView(s, c) { OtherBranch(s, t, c); }
    ChangedBranch(s, t, b, node);
    ViewOf(s, t, b, BranchView(t, b));
  }

  lemma OtherBranch(s: State, t: State, c: BranchId)
    requires c in s.branches && c in t.branches && Objects(t, c).Keys == Objects(s, c).Keys
    requires forall n {:trigger FileView(t, c, n)} :: n in Objects(s, c) ==> FileView(t, c, n) == FileView(s, c, n)
    ensures BranchView(t, c) == BranchView(s, c)
  {
    hide FileView;
    assert forall n :: n in BranchView(t, c) <==> n in Objects(t, c).Keys;
  }

  lemma ChangedBranch(s: State, t: State, b: BranchId, node: NodeId)
    requires b in s.branches && b in t.branches && Objects(t, b).Keys == Objects(s, b).Keys + {node}
    requires forall n {:trigger FileView(t, b, n)} :: n in Objects(s, b) && n != node ==> FileView(t, b, n) == FileView(s, b, n)
    ensures BranchView(t, b) == BranchView(s, b)[node := FileView(t, b, node)]
  {
    hide FileView;
    assert forall n :: n in BranchView(t, b) <==> n in Objects(t, b).Keys;
  }

  lemma ViewOf(s: State, t: State, b: BranchId, files: map<NodeId, seq<Byte>>)
    requires b in s.branches && t.branches.Keys == s.branches.Keys && BranchView(t, b) == files
    requires forall c {:trigger BranchView(t, c)} :: c in s.branches && c != b ==> BranchView(t, c) == BranchView(s, c)
    ensures View(t) == View(s)[b := files]
  {
    hide BranchView;
  }

  lemma CreateRefines(s: State, b: BranchId, node: NodeId, size: nat)
    requires Inv(s) && b in s.branches && node !in Objects(s, b)
    ensures Inv(CreateFile(s, b, node, size))
    ensures View(CreateFile(s, b, node, size)) == Apply(View(s), Created(b, node, size))
  {
    var t := CreateFile(s, b, node, size);
    CreateKeepsInv(s, b, node, size);
    forall c, n | c in s.branches && n in Objects(s, c) && (c != b || n != node)
      ensures FileView(t, c, n) == FileView(s, c, n)
    {
      SameFileView(s, t, c, c, n);
    }
    forall i | 0 <= i < size ensures FileView(t, b, node)[i] == 0 {
      ZeroPage(size, PageKey(node, i / PAGE_SIZE));
      assert PageBytes(t, b, PageKey(node, i / PAGE_SIZE)) == Zeros(PAGE_SIZE);
    }
    ChangedView(s, t, b, node, Zeros(size));
  }

  lemma ZeroPage(size: nat, key: PageKey)
    ensures StorePage(Zeros(size), key) == Zeros(PAGE_SIZE)
  {
  }

  lemma StoreRefines(s: State, m: Mapping, within: nat, bytes: seq<Byte>)
    requires Inv(s) && Legal(s, DoStore(m, within, bytes))
    ensures Inv(Next(s, DoStore(m, within, bytes)))
    ensures View(Next(s, DoStore(m, within, bytes))) == Apply(View(s), EffectOf(s, DoStore(m, within, bytes)))
  {
    StoreKeepsInv(s, m, within, bytes);
    assert MappingOk(s, m);
    hide StorePage, ByteAt, FileView, Inv;
    var t := StoreThrough(s, m, within, bytes);
    forall c, n | c in s.branches && n in Objects(s, c) && (c != m.branch || n != m.key.node)
      ensures FileView(t, c, n) == FileView(s, c, n)
    {
      StoredElsewhere(s, m, within, bytes, c, n);
    }
    StoredFile(s, m, within, bytes);
    ChangedView(s, t, m.branch, m.key.node, FileView(t, m.branch, m.key.node));
  }

  lemma StoredElsewhere(s: State, m: Mapping, within: nat, bytes: seq<Byte>, c: BranchId, n: NodeId)
    requires Inv(s) && Legal(s, DoStore(m, within, bytes)) && m.branch in s.branches
    requires m.page in s.heap && |s.heap[m.page]| == PAGE_SIZE
    requires c in s.branches && n in Objects(s, c) && (c != m.branch || n != m.key.node)
    ensures FileView(StoreThrough(s, m, within, bytes), c, n) == FileView(s, c, n)
  {
    hide StorePage, ByteAt;
    StoreKeepsInv(s, m, within, bytes);
    SameFileView(s, StoreThrough(s, m, within, bytes), c, c, n);
  }

  lemma StoredFile(s: State, m: Mapping, within: nat, bytes: seq<Byte>)
    requires Inv(s) && Legal(s, DoStore(m, within, bytes)) && m.branch in s.branches
    requires m.page in s.heap && |s.heap[m.page]| == PAGE_SIZE
    ensures FileView(StoreThrough(s, m, within, bytes), m.branch, m.key.node)
         == Overwrite(FileView(s, m.branch, m.key.node), Offset(m.key) + within, bytes)
  {
    hide Inv, ByteAt, StorePage;
    var t := StoreThrough(s, m, within, bytes);
    var file := FileView(s, m.branch, m.key.node);
    forall i | 0 <= i < |file|
      ensures FileView(t, m.branch, m.key.node)[i] == Overwrite(file, Offset(m.key) + within, bytes)[i]
    {
      StoredByte(s, m, within, bytes, i);
    }
  }

  lemma StoredByte(s: State, m: Mapping, within: nat, bytes: seq<Byte>, i: nat)
    requires Inv(s) && Legal(s, DoStore(m, within, bytes)) && m.branch in s.branches
    requires m.page in s.heap && |s.heap[m.page]| == PAGE_SIZE
    ensures ByteAt(StoreThrough(s, m, within, bytes), m.branch, m.key.node, i)
         == var at := Offset(m.key) + within;
            if at <= i < at + |bytes| then bytes[i - at] else ByteAt(s, m.branch, m.key.node, i)
  {
    StoreKeepsInv(s, m, within, bytes);
    assert MappingOk(s, m);
    var t := StoreThrough(s, m, within, bytes);
    var key := PageKey(m.key.node, i / PAGE_SIZE);
    if key == m.key {
      assert i == Offset(m.key) + i % PAGE_SIZE;
    } else {
      assert PageBytes(t, m.branch, key) == PageBytes(s, m.branch, key);
    }
  }

  // ---------------------------------------------------------------------
  // Runs
  // ---------------------------------------------------------------------

  function Run(s: State, steps: seq<Step>): State
    decreases |steps|
  {
    if steps == [] then s else Run(Next(s, steps[0]), steps[1..])
  }

  ghost predicate LegalRun(s: State, steps: seq<Step>)
    decreases |steps|
  {
    steps == [] || (Legal(s, steps[0]) && LegalRun(Next(s, steps[0]), steps[1..]))
  }

  function SpecRun(s: State, v: Forest, steps: seq<Step>): Forest
    decreases |steps|
  {
    if steps == [] then v else SpecRun(Next(s, steps[0]), Apply(v, EffectOf(s, steps[0])), steps[1..])
  }

  /** After any run every live branch reads what the forest of deep copies holds. */
  lemma {:induction false} RunRefines(s: State, steps: seq<Step>)
    requires Inv(s) && LegalRun(s, steps)
    ensures Inv(Run(s, steps))
    ensures View(Run(s, steps)) == SpecRun(s, View(s), steps)
    decreases |steps|
  {
    if steps != [] {
      StepRefines(s, steps[0]);
      RunRefines(Next(s, steps[0]), steps[1..]);
    }
  }

  function StoreOf(stores: seq<Store>, b: BranchId): Store
    requires 1 <= b <= |stores|
  {
    stores[b - 1]
  }

  /** A cache over restored or newly created stores. */
  function Restored(id: nat, stores: seq<Store>, nextObject: nat, nextVersion: nat): State {
    State(id, |stores| + 1, map b | 1 <= b <= |stores| :: FreshBranch(StoreOf(stores, b)),
          map[], {}, map[], 1, nextObject, nextVersion, 0, {})
  }

  /** In two stores of one lineage the same name means the same bytes. */
  ghost predicate Compatible(p: Store, q: Store) {
    && (forall n, m {:trigger p.names.objects[n], q.names.objects[m]} ::
          n in p.names.objects && m in q.names.objects && p.names.objects[n] == q.names.objects[m] ==>
          n == m && n in p.files && n in q.files && |p.files[n]| == |q.files[n]|)
    && (forall key {:trigger NameOf(p.names, key)} ::
          NameOf(p.names, key).Some? && NameOf(p.names, key) == NameOf(q.names, key)
          && key.node in p.files && key.node in q.files ==>
          StorePage(p.files[key.node], key) == StorePage(q.files[key.node], key))
  }

  /** Stores that may share one cache. */
  ghost predicate Coherent(stores: seq<Store>, nextObject: nat, nextVersion: nat) {
    && (forall b {:trigger StoreOf(stores, b)} :: 1 <= b <= |stores| ==>
          && Issued(StoreOf(stores, b).names, nextObject, nextVersion)
          && StoreOf(stores, b).files.Keys == StoreOf(stores, b).names.objects.Keys)
    && (forall b, c {:trigger Compatible(StoreOf(stores, b), StoreOf(stores, c))} ::
          1 <= b <= |stores| && 1 <= c <= |stores| ==> Compatible(StoreOf(stores, b), StoreOf(stores, c)))
  }

  /** A run from start-up: a fresh cache shows each store's own files, and refinement follows. */
  lemma RestoredRefines(id: nat, stores: seq<Store>, nextObject: nat, nextVersion: nat, steps: seq<Step>)
    requires Coherent(stores, nextObject, nextVersion)
    requires LegalRun(Restored(id, stores, nextObject, nextVersion), steps)
    ensures var s := Restored(id, stores, nextObject, nextVersion);
      && Inv(s)
      && View(s) == (map b | 1 <= b <= |stores| :: StoreOf(stores, b).files)
      && Inv(Run(s, steps))
      && View(Run(s, steps)) == SpecRun(s, View(s), steps)
  {
    var s := Restored(id, stores, nextObject, nextVersion);
    RestoredInv(id, stores, nextObject, nextVersion);
    RestoredView(id, stores, nextObject, nextVersion);
    RunRefines(s, steps);
  }

  lemma RestoredView(id: nat, stores: seq<Store>, nextObject: nat, nextVersion: nat)
    requires Coherent(stores, nextObject, nextVersion)
    ensures View(Restored(id, stores, nextObject, nextVersion))
         == (map b | 1 <= b <= |stores| :: StoreOf(stores, b).files)
  {
    var s := Restored(id, stores, nextObject, nextVersion);
    forall b | b in s.branches ensures BranchView(s, b) == StoreOf(stores, b).files {
      forall n | n in Objects(s, b) ensures FileView(s, b, n) == FileOf(s, b, n) {
        ColdFile(s, b, n);
      }
    }
  }

  lemma ColdFile(s: State, b: BranchId, n: NodeId)
    requires b in s.branches
    requires forall key: PageKey {:trigger Resident(s, b, key)} :: key.node == n && Resident(s, b, key).Some? ==>
      |Heap(s, Resident(s, b, key).value)| == PAGE_SIZE && Agrees(Heap(s, Resident(s, b, key).value), FileOf(s, b, n), key)
    ensures FileView(s, b, n) == FileOf(s, b, n)
  {
    var file := FileOf(s, b, n);
    forall i | 0 <= i < |file| ensures FileView(s, b, n)[i] == file[i] {
      var key := PageKey(n, i / PAGE_SIZE);
      assert i == Offset(key) + i % PAGE_SIZE;
      assert PageBytes(s, b, key)[i % PAGE_SIZE] == file[i];
    }
  }

  lemma RestoredInv(id: nat, stores: seq<Store>, nextObject: nat, nextVersion: nat)
    requires Coherent(stores, nextObject, nextVersion)
    ensures Inv(Restored(id, stores, nextObject, nextVersion))
  {
    var s := Restored(id, stores, nextObject, nextVersion);
    forall b, c, n, m ensures ObjectOk(s, b, c, n, m) { RestoredOk(id, stores, nextObject, nextVersion, b, c, n, m, PageKey(0, 0)); }
    forall b, c, key ensures ColdOk(s, b, c, key) { RestoredOk(id, stores, nextObject, nextVersion, b, c, 0, 0, key); }
    forall b, p ensures ActiveOk(s, b, p) {
      assert MappingsOf(s, b, p) == {};
    }
  }

  lemma RestoredOk(id: nat, stores: seq<Store>, nextObject: nat, nextVersion: nat,
                   b: BranchId, c: BranchId, n: NodeId, m: NodeId, key: PageKey)
    requires Coherent(stores, nextObject, nextVersion)
    ensures var s := Restored(id, stores, nextObject, nextVersion);
      ObjectOk(s, b, c, n, m) && ColdOk(s, b, c, key)
  {
    if 1 <= b <= |stores| && 1 <= c <= |stores| {
      assert Compatible(StoreOf(stores, b), StoreOf(stores, c));
      assert NameOf(StoreOf(stores, b).names, key).Some? || NameOf(StoreOf(stores, b).names, key).None?;
    }
  }

  // ---------------------------------------------------------------------
  // What the invariant is for
  // ---------------------------------------------------------------------

  /** With nothing dirty and nothing mapped, the store alone holds the branch's view. */
  lemma SyncedStoreIsView(s: State, b: BranchId)
    requires Inv(s) && b in s.branches && s.branches[b].dirty == {} && s.branches[b].active == map[]
    ensures BranchView(s, b) == s.branches[b].store.files
  {
    assert BranchOk(s, b);
    forall n | n in Objects(s, b) ensures FileView(s, b, n) == FileOf(s, b, n) {
      forall key: PageKey | key.node == n && Resident(s, b, key).Some?
        ensures |Heap(s, Resident(s, b, key).value)| == PAGE_SIZE
        ensures Agrees(Heap(s, Resident(s, b, key).value), FileOf(s, b, n), key)
      {
        assert CleanOk(s, b, key);
        if WriteMapped(s, b, key) {
          var m :| m in s.mappings && m.branch == b && m.key == key && m.flags.write;
          UnmapSucceeds(s, b, m);
        }
      }
      ColdFile(s, b, n);
    }
  }

  /**
   Writing back all dirty pages never meets a missing page, and once no mapping
   is out the store holds what the branch had been reading all along.
   */
  lemma SyncAllMakesStoreTheView(s: State, b: BranchId, keys: seq<PageKey>)
    requires Inv(s) && Legal(s, DoSync(b, keys)) && (forall key :: key in s.branches[b].dirty ==> key in keys)
    requires s.branches[b].active == map[]
    ensures var (t, r) := SyncPages(s, b, keys);
      && r.Ok? && b in t.branches && t.branches[b].dirty == {}
      && t.branches[b].store.files == View(s)[b]
  {
    SyncPagesKeepsInv(s, b, keys);
    var t := SyncPages(s, b, keys).0;
    assert t.branches[b].dirty == {};
    SyncedStoreIsView(t, b);
    SameView(s, t);
  }

  /**
   No shared page is ever writable: the page behind a writable mapping is seen
   by no other branch, and every mapping a branch holds of one file page is a
   mapping of the page the branch currently sees there.
   */
  lemma WritablePagesAreExclusive(s: State, m: Mapping, l: Mapping)
    requires Inv(s) && m in s.mappings && l in s.mappings
    ensures m.branch in s.branches && (m.flags.write ==> m.key in s.branches[m.branch].exclusive)
    ensures m.flags.write && m.page == l.page ==> m.branch == l.branch && m.key == l.key
    ensures m.branch == l.branch && m.key == l.key ==> m.page == l.page
  {
    assert MappingOk(s, m) && MappingOk(s, l);
    if m.flags.write && m.page == l.page {
      WritablePageIsPrivate(s, m, l.branch, l.key);
    }
  }

  // ---------------------------------------------------------------------
  // Accounting
  // ---------------------------------------------------------------------

  /** The pages accounting finds for one branch. */
  function PagesInBranch(s: State, b: BranchId): set<PageId>
    requires b in s.branches
  {
    set key | key in s.known && Resident(s, b, key).Some? :: Resident(s, b, key).value
  }

  lemma PagesOfBranchAreVisible(s: State, b: BranchId, p: PageId)
    requires Inv(s) && b in s.branches
    ensures p in PagesInBranch(s, b) <==> exists key :: Resident(s, b, key) == Some(p)
  {
    if key :| Resident(s, b, key) == Some(p) {
      ResidentIsKnown(s, b, key);
    }
  }

  ghost predicate SharedPage(s: State, p: PageId) {
    exists b, c :: b in s.branches && c in s.branches && b != c && p in PagesInBranch(s, b) && p in PagesInBranch(s, c)
  }

  /** Nothing stays resident that no branch sees: all branches together account for the whole cache. */
  lemma AccountingIsExact(s: State)
    requires Inv(s)
    ensures (set b, p | b in s.branches && p in PagesInBranch(s, b) :: p) == Values(s.pages)
    ensures |Values(s.pages)| == |s.pages|
    ensures forall id :: id in s.pages ==>
      (SharedPage(s, s.pages[id]) <==>
        exists b, c, key :: b in s.branches && c in s.branches && b != c
          && Ident(s, b, key) == Some(id) && Ident(s, c, key) == Some(id))
  {
    forall id | id in s.pages ensures exists b :: b in s.branches && s.pages[id] in PagesInBranch(s, b) {
      assert Seen(s, id);
      var b, key :| b in s.branches && key in s.known && Ident(s, b, key) == Some(id);
      assert s.pages[id] in PagesInBranch(s, b);
    }
    InjectiveSize(s.pages);
    forall id | id in s.pages
      ensures SharedPage(s, s.pages[id]) <==>
        exists b, c, key :: b in s.branches && c in s.branches && b != c
          && Ident(s, b, key) == Some(id) && Ident(s, c, key) == Some(id)
    {
      SharedPageIsSharedIdentity(s, id);
    }
  }

  lemma SharedPageIsSharedIdentity(s: State, id: PageIdentity)
    requires Inv(s) && id in s.pages
    ensures SharedPage(s, s.pages[id]) <==>
      exists b, c, key :: b in s.branches && c in s.branches && b != c
        && Ident(s, b, key) == Some(id) && Ident(s, c, key) == Some(id)
  {
    var p := s.pages[id];
    if SharedPage(s, p) {
      var b, c :| b in s.branches && c in s.branches && b != c && p in PagesInBranch(s, b) && p in PagesInBranch(s, c);
      var key :| key in s.known && Resident(s, b, key) == Some(p);
      var key' :| key' in s.known && Resident(s, c, key') == Some(p);
      IdentityNamesKey(s, b, key, c, key');
    }
    if b, c, key :|
      b in s.branches && c in s.branches && b != c && Ident(s, b, key) == Some(id) && Ident(s, c, key) == Some(id)
    {
      assert Resident(s, b, key) == Some(p) && Resident(s, c, key) == Some(p);
      PagesOfBranchAreVisible(s, b, p);
      PagesOfBranchAreVisible(s, c, p);
    }
  }
}
