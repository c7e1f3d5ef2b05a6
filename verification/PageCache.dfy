/**
 The one page cache of a filesystem lineage, as a state machine.

 Each function below is one critical section of the cache's lock. `State`
 also holds the backing bytes of every page ever allocated and the mappings
 handed out and not yet returned, so that a store through a live mapping is a
 step like any other.
 */
module PageCache {
  import opened Basics
  import opened Identities

  type BranchId = nat
  type PageId = nat

  datatype MapFlags = MapFlags(read: bool, write: bool)

  /** A mapping handle cannot be copied; `handle` tells two of them apart. */
  datatype Mapping = Mapping(
    handle: nat, cache: nat, branch: BranchId, key: PageKey, flags: MapFlags, page: PageId)

  datatype CacheError =
    | Io
    | InvalidMapping
    | NodeNotOpen(node: NodeId)
    | BranchNotFound(branch: BranchId)
    | StaleMapping
    | ActiveMappings
    | PageBusy

  /** A filesystem branch as the cache sees it: page names and file contents. */
  datatype Store = Store(names: Names, files: map<NodeId, seq<Byte>>)

  datatype CacheBranch = CacheBranch(
    store: Store,
    open: map<NodeId, nat>,
    active: map<PageId, nat>,
    exclusive: set<PageKey>,
    dirty: set<PageKey>)

  datatype State = State(
    id: nat,
    nextBranch: nat,
    branches: map<BranchId, CacheBranch>,
    pages: map<PageIdentity, PageId>,
    known: set<PageKey>,
    heap: map<PageId, seq<Byte>>,
    nextPage: nat,
    nextObject: nat,
    nextVersion: nat,
    nextHandle: nat,
    mappings: set<Mapping>)

  // ---------------------------------------------------------------------
  // Reading a state
  // ---------------------------------------------------------------------

  /** The identity branch `b` sees at `key`. */
  function Ident(s: State, b: BranchId, key: PageKey): Option<PageIdentity>
    requires b in s.branches
  {
    NameOf(s.branches[b].store.names, key)
  }

  /** The page backing what `b` sees at `key`, if it is in the cache. */
  function Resident(s: State, b: BranchId, key: PageKey): Option<PageId>
    requires b in s.branches
  {
    match Ident(s, b, key)
    case None => None
    case Some(id) => if id in s.pages then Some(s.pages[id]) else None
  }

  function FileOf(s: State, b: BranchId, node: NodeId): seq<Byte>
    requires b in s.branches
  {
    var files := s.branches[b].store.files;
    if node in files then files[node] else []
  }

  /** The byte offset at which a page of a file starts. */
  function Offset(key: PageKey): nat {
    key.page * PAGE_SIZE
  }

  /** What a page-sized read of a file at a page's offset fills its buffer with. */
  function StorePage(file: seq<Byte>, key: PageKey): (bytes: seq<Byte>)
    ensures |bytes| == PAGE_SIZE
    ensures forall j :: 0 <= j < PAGE_SIZE && Offset(key) + j < |file| ==> bytes[j] == file[Offset(key) + j]
  {
    var offset := Offset(key);
    if offset < |file| then
      var read := Min(PAGE_SIZE, |file| - offset);
      file[offset..offset + read] + Zeros(PAGE_SIZE - read)
    else Zeros(PAGE_SIZE)
  }

  function Heap(s: State, page: PageId): seq<Byte> {
    if page in s.heap then s.heap[page] else []
  }

  /** The contents of one page as branch `b` would read it. */
  function PageBytes(s: State, b: BranchId, key: PageKey): seq<Byte>
    requires b in s.branches
  {
    match Resident(s, b, key)
    case Some(page) => Heap(s, page)
    case None => StorePage(FileOf(s, b, key.node), key)
  }

  function Active(br: CacheBranch, page: PageId): nat {
    if page in br.active then br.active[page] else 0
  }

  function OpenCount(br: CacheBranch, node: NodeId): nat {
    if node in br.open then br.open[node] else 0
  }

  // ---------------------------------------------------------------------
  // Critical sections
  // ---------------------------------------------------------------------

  function FreshBranch(store: Store): CacheBranch {
    CacheBranch(store, map[], map[], {}, {})
  }

  function Fork(s: State, source: BranchId): (State, Result<BranchId, CacheError>) {
    if source !in s.branches then (s, Err(BranchNotFound(source)))
    else
      var br := s.branches[source];
      if br.active != map[] then (s, Err(ActiveMappings))
      else
        var s1 := s.(branches := s.branches[source := br.(exclusive := {})]);
        if s.nextBranch == U64_MAX then (s1, Err(InvalidMapping))
        else
          var child := FreshBranch(br.store).(dirty := br.dirty);
          (s1.(nextBranch := s.nextBranch + 1, branches := s1.branches[s.nextBranch := child]), Ok(s.nextBranch))
  }

  /** The identities some branch of `branches` sees at some key of `known`. */
  function VisibleIdentities(branches: map<BranchId, CacheBranch>, known: set<PageKey>): set<PageIdentity> {
    set key, b | key in known && b in branches && NameOf(branches[b].store.names, key).Some?
      :: NameOf(branches[b].store.names, key).value
  }

  function RemoveBranch(s: State, b: BranchId): (State, Result<(), CacheError>) {
    if b !in s.branches then (s, Err(BranchNotFound(b)))
    else if s.branches[b].active != map[] then (s, Err(ActiveMappings))
    else
      var branches := s.branches - {b};
      var visible := VisibleIdentities(branches, s.known);
      (s.(branches := branches, pages := map id | id in s.pages && id in visible :: s.pages[id]), Ok(()))
  }

  /** `ok` is the outcome of the store's own open hook. */
  function Open(s: State, b: BranchId, node: NodeId, ok: bool): (State, Result<(), CacheError>) {
    if b !in s.branches then (s, Err(BranchNotFound(b)))
    else
      var br := s.branches[b];
      var count := OpenCount(br, node);
      if count == 0 && !ok
      then (s.(branches := s.branches[b := br.(open := br.open[node := 0])]), Err(Io))
      else (s.(branches := s.branches[b := br.(open := br.open[node := count + 1])]), Ok(()))
  }

  /** `ok` is the outcome of the store's own close hook. */
  function Close(s: State, b: BranchId, node: NodeId, ok: bool): (State, Result<(), CacheError>) {
    if b !in s.branches then (s, Err(BranchNotFound(b)))
    else
      var br := s.branches[b];
      if node !in br.open then (s, Err(NodeNotOpen(node)))
      else if br.open[node] == 0 then (s, Err(InvalidMapping))
      else
        var s1 := s.(branches := s.branches[b := br.(open := br.open[node := br.open[node] - 1])]);
        (s1, if br.open[node] == 1 && !ok then Err(Io) else Ok(()))
  }

  /** A file created in one branch's store, under a node that branch does not use yet. */
  function CreateFile(s: State, b: BranchId, node: NodeId, size: nat): State
    requires b in s.branches
  {
    var br := s.branches[b];
    var store := Store(CreateName(br.store.names, node, s.nextObject), br.store.files[node := Zeros(size)]);
    s.(branches := s.branches[b := br.(store := store)], nextObject := s.nextObject + 1)
  }

  /** Make the page `b` sees at `key` resident. */
  function LoadPage(s: State, b: BranchId, key: PageKey): State
    requires b in s.branches && Ident(s, b, key).Some?
  {
    var id := Ident(s, b, key).value;
    if id in s.pages then s
    else s.(pages := s.pages[id := s.nextPage],
            heap := s.heap[s.nextPage := StorePage(FileOf(s, b, key.node), key)],
            nextPage := s.nextPage + 1)
  }

  /** Give `b` a private copy of the page it sees at `key`, under a fresh name. */
  function CopyOnWrite(s: State, b: BranchId, key: PageKey): State
    requires b in s.branches && Resident(s, b, key).Some?
  {
    var br := s.branches[b];
    var was := Ident(s, b, key).value;
    var names := BumpVersion(br.store.names, key, s.nextVersion);
    var branches := s.branches[b := br.(store := br.store.(names := names), exclusive := br.exclusive + {key})];
    var id := NameOf(names, key).value;
    var pages := s.pages[id := s.nextPage];
    var stillVisible := exists c ::
      c in branches && NameOf(branches[c].store.names, key) == Some(was);
    s.(branches := branches,
       pages := if stillVisible then pages else pages - {was},
       heap := s.heap[s.nextPage := Heap(s, s.pages[was])],
       nextPage := s.nextPage + 1,
       nextVersion := s.nextVersion + 1)
  }

  /** Hand out a mapping of the resident page `b` sees at `key`. */
  function Grant(s: State, b: BranchId, key: PageKey, flags: MapFlags): (State, Mapping)
    requires b in s.branches && Resident(s, b, key).Some?
  {
    var br := s.branches[b];
    var page := Resident(s, b, key).value;
    var m := Mapping(s.nextHandle, s.id, b, key, flags, page);
    (s.(known := s.known + {key},
        branches := s.branches[b := br.(active := br.active[page := Active(br, page) + 1])],
        nextHandle := s.nextHandle + 1,
        mappings := s.mappings + {m}), m)
  }

  function MapPage(s: State, b: BranchId, node: NodeId, offset: nat, flags: MapFlags)
    : (State, Result<Mapping, CacheError>)
  {
    var key := PageKey(node, offset / PAGE_SIZE);
    if !Aligned(offset) then (s, Err(InvalidMapping))
    else if !flags.read && !flags.write then (s, Err(InvalidMapping))
    else if b !in s.branches then (s, Err(BranchNotFound(b)))
    else
      var br := s.branches[b];
      if OpenCount(br, node) == 0 then (s, Err(NodeNotOpen(node)))
      else if Ident(s, b, key).None? || node !in br.store.files then (s, Err(Io))
      else
        var s1 := LoadPage(s, b, key);
        var copyOnWrite := flags.write && key !in br.exclusive;
        if copyOnWrite && Active(br, Resident(s1, b, key).value) > 0 then (s1, Err(PageBusy))
        else
          var s2 := if copyOnWrite then CopyOnWrite(s1, b, key) else s1;
          var (s3, m) := Grant(s2, b, key, flags);
          (s3, Ok(m))
  }

  function Unmap(s: State, b: BranchId, m: Mapping): (State, Result<(), CacheError>) {
    if m.cache != s.id || m.branch != b then (s, Err(StaleMapping))
    else if b !in s.branches then (s, Err(BranchNotFound(b)))
    else
      var br := s.branches[b];
      if Active(br, m.page) == 0 then (s, Err(StaleMapping))
      else
        var count := br.active[m.page] - 1;
        var active := if count == 0 then br.active - {m.page} else br.active[m.page := count];
        var dirty := if m.flags.write then br.dirty + {m.key} else br.dirty;
        (s.(branches := s.branches[b := br.(active := active, dirty := dirty)], mappings := s.mappings - {m}), Ok(()))
  }

  /** A write through the memory a mapping exposes. */
  function StoreThrough(s: State, m: Mapping, within: nat, bytes: seq<Byte>): State
    requires m.page in s.heap && within + |bytes| <= |s.heap[m.page]|
  {
    s.(heap := s.heap[m.page := Splice(s.heap[m.page], within, bytes)])
  }

  /** Write one dirty page back to its branch's store. */
  function SyncPage(s: State, b: BranchId, key: PageKey): (State, Result<(), CacheError>)
    requires b in s.branches
  {
    var br := s.branches[b];
    if key.node !in br.store.files then (s, Err(Io))
    else
      var file := br.store.files[key.node];
      var clean := br.(dirty := br.dirty - {key});
      if Offset(key) >= |file| then (s.(branches := s.branches[b := clean]), Ok(()))
      else if Ident(s, b, key).None? then (s, Err(Io))
      else if Resident(s, b, key).None? then (s, Err(StaleMapping))
      else
        var page := Heap(s, Resident(s, b, key).value);
        var count := Min(|file| - Offset(key), PAGE_SIZE);
        if |page| < count then (s, Err(Io))
        else
          var files := br.store.files[key.node := Splice(file, Offset(key), page[..count])];
          (s.(branches := s.branches[b := clean.(store := br.store.(files := files))]), Ok(()))
  }

  /** Write pages back one after the other, stopping at the first error. */
  function SyncPages(s: State, b: BranchId, keys: seq<PageKey>): (State, Result<(), CacheError>)
    requires b in s.branches
    decreases |keys|
  {
    if keys == [] then (s, Ok(()))
    else
      var (s1, r) := SyncPage(s, b, keys[0]);
      if r.Err? then (s1, r) else SyncPages(s1, b, keys[1..])
  }
}
