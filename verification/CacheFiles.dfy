/** Reading and writing byte ranges of a file through the shared page cache, one page at a time. */
module CacheFiles {
  import opened Basics
  import opened Identities
  import opened PageCache
  import opened CacheInvariant
  import opened CacheRuns
  import opened DaxCache
  import opened SharedCache
  import MP = CacheSteps

  /** The page that holds a byte of a file. */
  function KeyAt(node: NodeId, cursor: nat): PageKey {
    PageKey(node, cursor / PAGE_SIZE)
  }

  /** The offset at which the page of a byte starts. */
  function PageStart(cursor: nat): (start: nat)
    ensures Aligned(start) && start <= cursor < start + PAGE_SIZE
    ensures start / PAGE_SIZE == cursor / PAGE_SIZE
  {
    cursor / PAGE_SIZE * PAGE_SIZE
  }

  // ---------------------------------------------------------------------
  // One page
  // ---------------------------------------------------------------------

  /** A mapped page shows the bytes of its file. */
  lemma MappedBytes(s: State, b: BranchId, node: NodeId, offset: nat, write: bool)
    requires Inv(s) && Aligned(offset) && CanMap(s, b, node, offset, write)
    ensures var (t, r) := MapPage(s, b, node, offset, MapFlags(true, write));
      && r.Ok? && View(t) == View(s)
      && r.value.page in t.heap && |t.heap[r.value.page]| == PAGE_SIZE
      && (forall i {:trigger FileView(s, b, node)[i]} :: offset <= i < offset + PAGE_SIZE && i < |FileView(s, b, node)| ==>
            FileView(s, b, node)[i] == t.heap[r.value.page][i - offset])
  {
    hide MapPage, Inv, View;
    MappedPage(s, b, node, offset, write);
    var (t, r) := MapPage(s, b, node, offset, MapFlags(true, write));
    forall i | offset <= i < offset + PAGE_SIZE && i < |FileView(s, b, node)|
      ensures FileView(s, b, node)[i] == t.heap[r.value.page][i - offset]
    {
      assert i / PAGE_SIZE == offset / PAGE_SIZE && i % PAGE_SIZE == i - offset;
    }
  }

  lemma MappedPage(s: State, b: BranchId, node: NodeId, offset: nat, write: bool)
    requires Inv(s) && Aligned(offset) && CanMap(s, b, node, offset, write)
    ensures var (t, r) := MapPage(s, b, node, offset, MapFlags(true, write));
      && r.Ok? && View(t) == View(s)
      && r.value.page in t.heap && |t.heap[r.value.page]| == PAGE_SIZE
      && PageBytes(s, b, PageKey(node, offset / PAGE_SIZE)) == t.heap[r.value.page]
  {
    hide MapPage;
    var (t, r) := MapPage(s, b, node, offset, MapFlags(true, write));
    var key := PageKey(node, offset / PAGE_SIZE);
    MapSucceedsWhen(s, b, node, offset, write);
    MapAdds(s, b, node, offset, write);
    assert MappingOk(t, r.value) && SamePage(s, t, b, key);
    hide Inv, SameBytes, View;
    SameView(s, t);
  }

  /** The parts of the cache a page access leaves as it found them. */
  ghost predicate Returned(s: State, t: State, b: BranchId) {
    Inv(t) && SameBranch(s, t, b) && t.mappings == s.mappings
  }

  /** The cache after mapping a page and giving the mapping back. */
  function Touched(s: State, b: BranchId, node: NodeId, offset: nat): State {
    var (t, r) := MapPage(s, b, node, offset, MapFlags(true, false));
    if r.Ok? then Unmap(t, b, r.value).0 else t
  }

  lemma TouchedReturns(s: State, b: BranchId, node: NodeId, offset: nat)
    requires Inv(s) && Aligned(offset) && CanMap(s, b, node, offset, false)
    ensures Returned(s, Touched(s, b, node, offset), b) && View(Touched(s, b, node, offset)) == View(s)
  {
    MapSucceedsWhen(s, b, node, offset, false);
    MapAdds(s, b, node, offset, false);
    var (t, r) := MapPage(s, b, node, offset, MapFlags(true, false));
    hide MapPage;
    UnmapRemoves(t, r.value);
    var u := Unmap(t, b, r.value).0;
    hide Unmap;
    SameView(s, t);
    SameView(t, u);
    assert u.mappings == s.mappings;
  }

  /** The cache after storing bytes into one page and giving the mapping back. */
  function Poked(s: State, b: BranchId, node: NodeId, offset: nat, within: nat, bytes: seq<Byte>): State {
    var (t, r) := MapPage(s, b, node, offset, MapFlags(true, true));
    if r.Err? then t
    else if r.value.page in t.heap && within + |bytes| <= |t.heap[r.value.page]|
    then Unmap(StoreThrough(t, r.value, within, bytes), b, r.value).0
    else t
  }

  lemma PokedStores(s: State, b: BranchId, node: NodeId, offset: nat, within: nat, bytes: seq<Byte>)
    requires Inv(s) && Aligned(offset) && CanMap(s, b, node, offset, true) && within + |bytes| <= PAGE_SIZE
    ensures var u := Poked(s, b, node, offset, within, bytes);
      && Returned(s, u, b) && View(u) == Apply(View(s), Stored(b, node, offset + within, bytes))
      && u.branches[b].exclusive == s.branches[b].exclusive + {PageKey(node, offset / PAGE_SIZE)}
  {
    hide MapPage, View, Unmap, StoreThrough, Inv, SameBytes, Apply;
    MappedBytes(s, b, node, offset, true);
    MapAdds(s, b, node, offset, true);
    var (t, r) := MapPage(s, b, node, offset, MapFlags(true, true));
    StoredAndReturned(t, r.value, within, bytes);
    assert Offset(r.value.key) == offset;
    assert t.mappings - {r.value} == s.mappings;
  }

  lemma StoredAndReturned(t: State, m: Mapping, within: nat, bytes: seq<Byte>)
    requires Inv(t) && m in t.mappings && m.flags.write && within + |bytes| <= PAGE_SIZE
    ensures m.page in t.heap && |t.heap[m.page]| == PAGE_SIZE && m.branch in t.branches
    ensures var u := Unmap(StoreThrough(t, m, within, bytes), m.branch, m).0;
      && Inv(u) && SameBranch(t, u, m.branch) && u.mappings == t.mappings - {m}
      && View(u) == Apply(View(t), Stored(m.branch, m.key.node, Offset(m.key) + within, bytes))
      && u.branches[m.branch].exclusive == t.branches[m.branch].exclusive
  {
    hide Inv, SameBytes, View, Apply, Unmap;
    MP.StoreKeepsInv(t, m, within, bytes);
    var stored := StoreThrough(t, m, within, bytes);
    StepRefines(t, DoStore(m, within, bytes));
    assert Next(t, DoStore(m, within, bytes)) == stored;
    UnmapRemoves(stored, m);
    SameView(stored, Unmap(stored, m.branch, m).0);
  }

  // ---------------------------------------------------------------------
  // Ranges
  // ---------------------------------------------------------------------

  /** How many of the `left` bytes at `cursor` lie on its page. */
  function ChunkAt(cursor: nat, left: nat): (n: nat)
    requires left > 0
    ensures 0 < n <= left && cursor + n <= PageStart(cursor) + PAGE_SIZE
    ensures n < left ==> (cursor + n) % PAGE_SIZE == 0
  {
    Min(PAGE_SIZE - cursor % PAGE_SIZE, left)
  }

  predicate HasFile(s: State, b: BranchId, node: NodeId) {
    b in s.branches && node in s.branches[b].store.files
  }

  /** Read the part of one page a range covers. */
  method ReadPage(cache: SharedPageCache, b: BranchId, node: NodeId, cursor: nat, count: nat)
    returns (r: Result<seq<Byte>, CacheError>)
    requires Inv(cache.Value()) && HasFile(cache.Value(), b, node)
    requires cursor + count <= PageStart(cursor) + PAGE_SIZE && cursor + count <= |FileView(cache.Value(), b, node)|
    modifies cache
    ensures Returned(old(cache.Value()), cache.Value(), b) && View(cache.Value()) == old(View(cache.Value()))
    ensures r == if OpenCount(old(cache.Value()).branches[b], node) > 0
                 then Ok(old(FileView(cache.Value(), b, node))[cursor..cursor + count]) else Err(NodeNotOpen(node))
  {
    hide Inv, MapPage, Unmap, View, FileView, CanMap, PageStart, Returned, DirtyKeys;
    var offset := PageStart(cursor);
    var within := cursor - offset;
    ghost var s := cache.Value();
    ReadOutcome(s, b, node, cursor, count);
    var mapped := cache.MapPage(b, node, offset, MapFlags(true, false));
    if mapped.Err? {
      return Err(mapped.error);
    }
    var bytes := cache.heap[mapped.value.page][within..within + count];
    var _ := cache.Unmap(b, mapped.value);
    return Ok(bytes);
  }

  /** The bytes at `cursor` of a file are those at `within` of a page. */
  predicate SamePart(file: seq<Byte>, page: seq<Byte>, cursor: nat, within: nat, count: nat) {
    cursor + count <= |file| && within + count <= |page| && file[cursor..cursor + count] == page[within..within + count]
  }

  lemma ReadOutcome(s: State, b: BranchId, node: NodeId, cursor: nat, count: nat)
    requires Inv(s) && b in s.branches && node in s.branches[b].store.files
    requires cursor + count <= PageStart(cursor) + PAGE_SIZE && cursor + count <= |FileView(s, b, node)|
    ensures var offset := PageStart(cursor);
      var (t, r) := MapPage(s, b, node, offset, MapFlags(true, false));
      if OpenCount(s.branches[b], node) > 0
      then
        && r.Ok? && r.value.page in t.heap && |t.heap[r.value.page]| == PAGE_SIZE
        && SamePart(FileView(s, b, node), t.heap[r.value.page], cursor, cursor - offset, count)
        && Returned(s, Unmap(t, b, r.value).0, b) && View(Unmap(t, b, r.value).0) == View(s)
      else t == s && r == Err(NodeNotOpen(node)) && Returned(s, s, b)
  {
    hide MapPage, Unmap, View, FileView, Inv, CanMap, PageStart, SamePart, Returned;
    var offset := PageStart(cursor);
    CanRead(s, b, node, offset);
    if OpenCount(s.branches[b], node) > 0 {
      MappedBytes(s, b, node, offset, false);
      TouchedReturns(s, b, node, offset);
      var (t, r) := MapPage(s, b, node, offset, MapFlags(true, false));
      SameSlice(FileView(s, b, node), t.heap[r.value.page], offset, cursor, count);
    } else {
      MapFails(s, b, node, offset, false);
      ReturnedNow(s, s, b, node);
    }
  }

  lemma EmptyPart(file: seq<Byte>, offset: nat)
    requires offset <= |file|
    ensures SamePart(file, [], offset, 0, 0)
  {
  }

  lemma PartGrows(file: seq<Byte>, buffer: seq<Byte>, chunk: seq<Byte>, offset: nat, cursor: nat, n: nat)
    requires SamePart(file, buffer, offset, 0, |buffer|) && cursor == offset + |buffer| && cursor + n <= |file|
    requires chunk == file[cursor..cursor + n]
    ensures |chunk| == n && SamePart(file, buffer + chunk, offset, 0, |buffer| + |chunk|)
  {
    SliceConcat(file, offset, offset + |buffer|, offset + |buffer| + |chunk|);
  }

  lemma WholePart(file: seq<Byte>, buffer: seq<Byte>, offset: nat)
    requires SamePart(file, buffer, offset, 0, |buffer|)
    ensures offset + |buffer| <= |file| && buffer == file[offset..offset + |buffer|]
  {
  }

  lemma CanRead(s: State, b: BranchId, node: NodeId, offset: nat)
    requires b in s.branches && node in s.branches[b].store.files
    ensures CanMap(s, b, node, offset, false) <==> OpenCount(s.branches[b], node) > 0
  {
  }

  lemma SameSlice(file: seq<Byte>, page: seq<Byte>, offset: nat, cursor: nat, count: nat)
    requires |page| == PAGE_SIZE && offset <= cursor && cursor - offset + count <= PAGE_SIZE && cursor + count <= |file|
    requires forall i {:trigger file[i]} :: offset <= i < offset + PAGE_SIZE && i < |file| ==> file[i] == page[i - offset]
    ensures SamePart(file, page, cursor, cursor - offset, count)
  {
    var a, b := file[cursor..cursor + count], page[cursor - offset..cursor - offset + count];
    forall j | 0 <= j < count ensures a[j] == b[j] {
      assert file[cursor + j] == page[cursor + j - offset];
    }
  }

  /** Read a range inside the file, page by page. */
  method ReadRange(cache: SharedPageCache, b: BranchId, node: NodeId, offset: nat, count: nat)
    returns (r: Result<seq<Byte>, CacheError>)
    requires Inv(cache.Value()) && HasFile(cache.Value(), b, node)
    requires 0 < count && offset + count <= |FileView(cache.Value(), b, node)|
    modifies cache
    ensures Returned(old(cache.Value()), cache.Value(), b) && View(cache.Value()) == old(View(cache.Value()))
    ensures r == if OpenCount(old(cache.Value()).branches[b], node) == 0 then Err(NodeNotOpen(node))
                 else Ok(old(FileView(cache.Value(), b, node))[offset..offset + count])
  {
    hide Inv, View, FileView, SharedPageCache.Value, Returned, ChunkAt, PageStart, SamePart;
    ghost var s := cache.Value();
    ghost var file := FileView(s, b, node);
    hide HasFile, OpenCount, MapError;
    var buffer: seq<Byte> := [];
    EmptyPart(file, offset);
    ReturnedNow(s, s, b, node);
    while |buffer| < count
      invariant |buffer| <= count && Returned(s, cache.Value(), b) && View(cache.Value()) == View(s)
      invariant OpenCount(s.branches[b], node) == 0 ==> buffer == []
      invariant SamePart(file, buffer, offset, 0, |buffer|)
      decreases count - |buffer|
    {
      var cursor := offset + |buffer|;
      var n := ChunkAt(cursor, count - |buffer|);
      ghost var t := cache.Value();
      ReturnedNow(s, t, b, node);
      var chunk := ReadPage(cache, b, node, cursor, n);
      ReturnedTwice(s, t, cache.Value(), b);
      if chunk.Err? {
        return chunk;
      }
      PartGrows(file, buffer, chunk.value, offset, cursor, n);
      buffer := buffer + chunk.value;
    }
    WholePart(file, buffer, offset);
    return Ok(buffer);
  }

  lemma ReturnedNow(s: State, t: State, b: BranchId, node: NodeId)
    requires Inv(s) && HasFile(s, b, node)
    ensures Returned(s, s, b)
    ensures Returned(s, t, b) && View(t) == View(s) ==>
      && Inv(t) && HasFile(t, b, node) && FileView(t, b, node) == FileView(s, b, node)
      && OpenCount(t.branches[b], node) == OpenCount(s.branches[b], node)
  {
    hide View, FileView;
    if Returned(s, t, b) && View(t) == View(s) {
      SameFile(s, t, b, node);
    }
  }

  lemma ReturnedTwice(s: State, t: State, u: State, b: BranchId)
    requires Returned(s, t, b) && Returned(t, u, b)
    ensures Returned(s, u, b)
  {
  }

  /** Reading returns the bytes the branch sees, up to the end of the file. */
  method Read(cache: SharedPageCache, b: BranchId, node: NodeId, offset: nat, len: nat)
    returns (r: Result<seq<Byte>, CacheError>)
    requires Inv(cache.Value())
    modifies cache
    ensures b !in old(cache.Value()).branches ==> r == Err(BranchNotFound(b)) && cache.Value() == old(cache.Value())
    ensures b in old(cache.Value()).branches && !HasFile(old(cache.Value()), b, node) ==>
      r == Err(Io) && cache.Value() == old(cache.Value())
    ensures HasFile(old(cache.Value()), b, node) ==>
      && Returned(old(cache.Value()), cache.Value(), b) && View(cache.Value()) == old(View(cache.Value()))
      && var file := FileView(old(cache.Value()), b, node);
         r == if offset >= |file| || len == 0 then Ok([])
              else if OpenCount(old(cache.Value()).branches[b], node) == 0 then Err(NodeNotOpen(node))
              else Ok(file[offset..offset + Min(|file| - offset, len)])
  {
    hide Inv, View, Returned;
    ghost var s := cache.Value();
    if b !in cache.branches {
      return Err(BranchNotFound(b));
    }
    if node !in cache.branches[b].store.files {
      return Err(Io);
    }
    ReturnedNow(s, s, b, node);
    var size := |cache.branches[b].store.files[node]|;
    if offset >= size || len == 0 {
      return Ok([]);
    }
    r := ReadRange(cache, b, node, offset, Min(size - offset, len));
  }

  /** The same view of all branches is the same view of each file. */
  lemma SameFile(s: State, t: State, b: BranchId, node: NodeId)
    requires View(s) == View(t) && SameBranch(s, t, b) && Inv(s) && node in s.branches[b].store.files
    ensures FileView(s, b, node) == FileView(t, b, node)
  {
    assert BranchOk(s, b);
    assert View(s)[b][node] == View(t)[b][node];
  }

  // ---------------------------------------------------------------------
  // Writing
  // ---------------------------------------------------------------------

  /** The branch has the page mapped while other branches may see it. */
  ghost predicate Busy(s: State, b: BranchId, key: PageKey)
    requires b in s.branches
  {
    key !in s.branches[b].exclusive && Mapped(s, b, key)
  }

  /** Store into one page, if the branch may write it now. */
  method WritePage(cache: SharedPageCache, b: BranchId, node: NodeId, cursor: nat, chunk: seq<Byte>)
    returns (r: Result<(), CacheError>)
    requires Inv(cache.Value()) && HasFile(cache.Value(), b, node) && cursor + |chunk| <= PageStart(cursor) + PAGE_SIZE
    modifies cache
    ensures Returned(old(cache.Value()), cache.Value(), b)
    ensures r.Ok? <==> OpenCount(old(cache.Value()).branches[b], node) > 0 && !Busy(old(cache.Value()), b, KeyAt(node, cursor))
    ensures r.Err? ==> cache.Value() == old(cache.Value()) && r.error == MapError(cache.Value(), b, node)
    ensures r.Ok? ==>
      && View(cache.Value()) == Apply(old(View(cache.Value())), Stored(b, node, cursor, chunk))
      && cache.Value().branches[b].exclusive == old(cache.Value()).branches[b].exclusive + {KeyAt(node, cursor)}
  {
    hide Inv, MapPage, Unmap, View, Apply, StoreThrough, Mapped;
    var offset := PageStart(cursor);
    var within := cursor - offset;
    ghost var s := cache.Value();
    WriteOutcome(s, b, node, cursor, chunk);
    var mapped := cache.MapPage(b, node, offset, MapFlags(true, true));
    if mapped.Err? {
      return Err(mapped.error);
    }
    cache.StoreThrough(mapped.value, within, chunk);
    var _ := cache.Unmap(b, mapped.value);
    return Ok(());
  }

  lemma WriteOutcome(s: State, b: BranchId, node: NodeId, cursor: nat, chunk: seq<Byte>)
    requires Inv(s) && HasFile(s, b, node) && cursor + |chunk| <= PageStart(cursor) + PAGE_SIZE
    ensures var offset := PageStart(cursor);
      var (t, r) := MapPage(s, b, node, offset, MapFlags(true, true));
      if OpenCount(s.branches[b], node) > 0 && !Busy(s, b, KeyAt(node, cursor))
      then
        && r.Ok? && r.value.page in t.heap && |t.heap[r.value.page]| == PAGE_SIZE
        && var u := Unmap(StoreThrough(t, r.value, cursor - offset, chunk), b, r.value).0;
           && Returned(s, u, b) && View(u) == Apply(View(s), Stored(b, node, cursor, chunk))
           && u.branches[b].exclusive == s.branches[b].exclusive + {KeyAt(node, cursor)}
      else t == s && r == Err(MapError(s, b, node)) && Returned(s, s, b)
  {
    hide MapPage, Unmap, View, Inv, Apply, StoreThrough, Mapped;
    var offset := PageStart(cursor);
    assert PageKey(node, offset / PAGE_SIZE) == KeyAt(node, cursor);
    if OpenCount(s.branches[b], node) > 0 && !Busy(s, b, KeyAt(node, cursor)) {
      assert CanMap(s, b, node, offset, true);
      MappedBytes(s, b, node, offset, true);
      PokedStores(s, b, node, offset, cursor - offset, chunk);
    } else {
      MapFails(s, b, node, offset, true);
      ReturnedNow(s, s, b, node);
    }
  }

  lemma NothingStored(s: State, b: BranchId, node: NodeId, offset: nat)
    requires Inv(s)
    ensures Apply(View(s), Stored(b, node, offset, [])) == View(s)
    ensures HasFile(s, b, node) ==> b in View(s) && node in View(s)[b]
  {
    assert BranchOk(s, b);
    var v := View(s);
    if b in v && node in v[b] {
      assert Overwrite(v[b][node], offset, []) == v[b][node];
      var files: map<NodeId, seq<Byte>> := v[b];
      assert files[node := files[node]] == files;
    }
  }

  /** The file is open and no page of the range is busy. */
  ghost predicate MayWrite(s: State, b: BranchId, node: NodeId, offset: nat, len: nat)
    requires b in s.branches
  {
    len == 0 || (OpenCount(s.branches[b], node) > 0
      && forall c {:trigger KeyAt(node, c)} :: offset <= c < offset + len ==> !Busy(s, b, KeyAt(node, c)))
  }

  /** Where a write that does not reach its end stops: before the first busy page, or at once if the file is not open. */
  ghost predicate StopsAt(s: State, b: BranchId, node: NodeId, offset: nat, done: nat)
    requires b in s.branches
  {
    && (done == 0 || Aligned(offset + done))
    && (if OpenCount(s.branches[b], node) == 0 then done == 0 else Busy(s, b, KeyAt(node, offset + done)))
    && (forall c {:trigger KeyAt(node, c)} :: offset <= c < offset + done ==> !Busy(s, b, KeyAt(node, c)))
  }

  /** A write stops at one place only. */
  lemma StopsOnce(s: State, b: BranchId, node: NodeId, offset: nat, a: nat, c: nat)
    requires b in s.branches && StopsAt(s, b, node, offset, a) && StopsAt(s, b, node, offset, c)
    ensures a == c
  {
    hide Busy;
    var atA, atC := KeyAt(node, offset + a), KeyAt(node, offset + c);
  }

  /** Nothing of the range written so far is busy, and only its pages became exclusive. */
  ghost predicate Written(s: State, t: State, b: BranchId, node: NodeId, offset: nat, done: nat)
    requires b in s.branches
  {
    && Returned(s, t, b)
    && (forall c {:trigger KeyAt(node, c)} :: offset <= c < offset + done ==> !Busy(s, b, KeyAt(node, c)))
    && (forall key :: key in t.branches[b].exclusive ==>
          key in s.branches[b].exclusive || exists c {:trigger KeyAt(node, c)} :: offset <= c < offset + done && key == KeyAt(node, c))
    && s.branches[b].exclusive <= t.branches[b].exclusive
  }

  /** A page not reached yet is as busy as it was. */
  lemma StillBusy(s: State, t: State, b: BranchId, node: NodeId, offset: nat, done: nat)
    requires b in s.branches && Written(s, t, b, node, offset, done) && (done == 0 || (offset + done) % PAGE_SIZE == 0)
    ensures b in t.branches && (Busy(t, b, KeyAt(node, offset + done)) <==> Busy(s, b, KeyAt(node, offset + done)))
  {
    forall c | offset <= c < offset + done ensures KeyAt(node, c) != KeyAt(node, offset + done) { }
    assert Mapped(t, b, KeyAt(node, offset + done)) <==> Mapped(s, b, KeyAt(node, offset + done));
  }

  /** One more page written. */
  lemma WrittenMore(s: State, t: State, u: State, b: BranchId, node: NodeId, offset: nat, done: nat, n: nat)
    requires b in s.branches && Written(s, t, b, node, offset, done) && Returned(t, u, b)
    requires offset + done + n <= PageStart(offset + done) + PAGE_SIZE && 0 < n && !Busy(s, b, KeyAt(node, offset + done))
    requires u.branches[b].exclusive == t.branches[b].exclusive + {KeyAt(node, offset + done)}
    ensures Written(s, u, b, node, offset, done + n)
  {
    hide Inv, Mapped, Busy;
    ReturnedTwice(s, t, u, b);
    forall c | offset <= c < offset + done + n ensures !Busy(s, b, KeyAt(node, c)) {
      assert c >= offset + done ==> KeyAt(node, c) == KeyAt(node, offset + done);
    }
    forall key | key in u.branches[b].exclusive && key !in s.branches[b].exclusive
      ensures exists c {:trigger KeyAt(node, c)} :: offset <= c < offset + done + n && key == KeyAt(node, c)
    {
      if key in t.branches[b].exclusive {
        var c :| offset <= c < offset + done && key == KeyAt(node, c);
        assert key == KeyAt(node, c);
      } else {
        assert key == KeyAt(node, offset + done);
      }
    }
  }

  /** Write a range inside the file, page by page, stopping at the first busy page. */
  method WriteRange(cache: SharedPageCache, b: BranchId, node: NodeId, offset: nat, buffer: seq<Byte>)
    returns (r: Result<nat, CacheError>, ghost done: nat)
    requires Inv(cache.Value()) && HasFile(cache.Value(), b, node)
    modifies cache
    ensures done <= |buffer| && Returned(old(cache.Value()), cache.Value(), b)
    ensures View(cache.Value()) == Apply(old(View(cache.Value())), Stored(b, node, offset, buffer[..done]))
    ensures r == if done == |buffer| then Ok(|buffer|) else Err(MapError(old(cache.Value()), b, node))
    ensures done == |buffer| <==> MayWrite(old(cache.Value()), b, node, offset, |buffer|)
    ensures done < |buffer| ==> StopsAt(old(cache.Value()), b, node, offset, done)
  {
    hide Inv, View, Apply, SharedPageCache.Value, Written, Busy, ChunkAt, KeyAt, PageStart;
    ghost var s := cache.Value();
    WrittenNothing(s, b, node, offset);
    NothingStored(s, b, node, offset);
    var at := 0;
    while at < |buffer|
      invariant at <= |buffer| && Written(s, cache.Value(), b, node, offset, at)
      invariant View(cache.Value()) == Apply(View(s), Stored(b, node, offset, buffer[..at]))
      invariant at == 0 || at == |buffer| || (offset + at) % PAGE_SIZE == 0
      invariant at > 0 ==> OpenCount(s.branches[b], node) > 0
    {
      ghost var t := cache.Value();
      var n := ChunkAt(offset + at, |buffer| - at);
      StillBusy(s, t, b, node, offset, at);
      WrittenFacts(s, t, b, node, offset, at);
      var written := WritePage(cache, b, node, offset + at, buffer[at..at + n]);
      if written.Err? {
        done := at;
        assert OpenCount(s.branches[b], node) == 0 || Busy(s, b, KeyAt(node, offset + at));
        return Err(written.error), at;
      }
      StoredTwice(View(s), b, node, offset, buffer[..at], buffer[at..at + n]);
      assert buffer[..at] + buffer[at..at + n] == buffer[..at + n];
      WrittenMore(s, t, cache.Value(), b, node, offset, at, n);
      at := at + n;
    }
    done := at;
    assert buffer[..at] == buffer;
    WrittenFacts(s, cache.Value(), b, node, offset, at);
    return Ok(|buffer|), at;
  }

  lemma WrittenNothing(s: State, b: BranchId, node: NodeId, offset: nat)
    requires Inv(s) && HasFile(s, b, node)
    ensures Written(s, s, b, node, offset, 0)
  {
    ReturnedNow(s, s, b, node);
  }

  lemma WrittenFacts(s: State, t: State, b: BranchId, node: NodeId, offset: nat, done: nat)
    requires HasFile(s, b, node) && Written(s, t, b, node, offset, done)
    ensures Returned(s, t, b) && Inv(t) && HasFile(t, b, node)
    ensures OpenCount(t.branches[b], node) == OpenCount(s.branches[b], node)
    ensures forall c {:trigger KeyAt(node, c)} :: offset <= c < offset + done ==> !Busy(s, b, KeyAt(node, c))
  {
  }

  /** Writing changes exactly the bytes of the range, or a whole number of its pages before one that is busy. */
  method Write(cache: SharedPageCache, b: BranchId, node: NodeId, offset: nat, buffer: seq<Byte>)
    returns (r: Result<nat, CacheError>, ghost done: nat)
    requires Inv(cache.Value())
    modifies cache
    ensures Inv(cache.Value()) && done <= |buffer|
    ensures View(cache.Value()) == Apply(old(View(cache.Value())), Stored(b, node, offset, buffer[..done]))
    ensures offset + |buffer| > U64_MAX ==> r == Err(InvalidMapping) && done == 0
    ensures offset + |buffer| <= U64_MAX ==>
      var s := old(cache.Value());
      && (b !in s.branches ==> r == Err(BranchNotFound(b)) && done == 0)
      && (b in s.branches && !HasFile(s, b, node) ==> r == Err(Io) && done == 0)
      && (HasFile(s, b, node) && offset + |buffer| > |FileOf(s, b, node)| ==> r == Err(InvalidMapping) && done == 0)
      && (HasFile(s, b, node) && offset + |buffer| <= |FileOf(s, b, node)| ==>
            && r == (if done == |buffer| then Ok(|buffer|) else Err(MapError(s, b, node)))
            && (done == |buffer| <==> MayWrite(s, b, node, offset, |buffer|))
            && (done < |buffer| ==> StopsAt(s, b, node, offset, done)))
  {
    hide Inv, View, MayWrite, StopsAt;
    ghost var s := cache.Value();
    NothingStored(s, b, node, offset);
    if offset + |buffer| > U64_MAX {
      return Err(InvalidMapping), 0;
    }
    if b !in cache.branches {
      return Err(BranchNotFound(b)), 0;
    }
    if node !in cache.branches[b].store.files {
      return Err(Io), 0;
    }
    if offset + |buffer| > |cache.branches[b].store.files[node]| {
      return Err(InvalidMapping), 0;
    }
    r, done := WriteRange(cache, b, node, offset, buffer);
  }

  // ---------------------------------------------------------------------
  // A write that stops half way
  // ---------------------------------------------------------------------

  /** A branch with one open file of two pages. */
  const TWO_PAGES: State := State(0, 1,
    map[0 := CacheBranch(Store(Names(map[7 := 1], map[]), map[7 := Zeros(2 * PAGE_SIZE)]), map[7 := 1], map[], {}, {})],
    map[], {}, map[], 0, 2, 1, 0, {})

  lemma TwoPagesOk()
    ensures Inv(TWO_PAGES)
  {
    forall b, page ensures ActiveOk(TWO_PAGES, b, page) { assert MappingsOf(TWO_PAGES, b, page) == {}; }
    forall b, c, n, m ensures ObjectOk(TWO_PAGES, b, c, n, m) { }
    forall b ensures BranchOk(TWO_PAGES, b) { }
  }

  /** With its second page mapped for reading, a write of both pages of a file ends with the first one written. */
  lemma WriteCanStopHalfWay()
    ensures var (s, r) := MapPage(TWO_PAGES, 0, 7, PAGE_SIZE, MapFlags(true, false));
      && r.Ok? && Inv(s) && HasFile(s, 0, 7) && !MayWrite(s, 0, 7, 0, 2 * PAGE_SIZE)
      && StopsAt(s, 0, 7, 0, PAGE_SIZE) && forall done :: StopsAt(s, 0, 7, 0, done) ==> done == PAGE_SIZE
  {
    TwoPagesOk();
    hide MapPage, Inv;
    assert CanMap(TWO_PAGES, 0, 7, PAGE_SIZE, false);
    MapSucceedsWhen(TWO_PAGES, 0, 7, PAGE_SIZE, false);
    MapAdds(TWO_PAGES, 0, 7, PAGE_SIZE, false);
    var (s, r) := MapPage(TWO_PAGES, 0, 7, PAGE_SIZE, MapFlags(true, false));
    assert s.mappings == {r.value} && r.value.key == KeyAt(7, PAGE_SIZE);
    assert Busy(s, 0, KeyAt(7, PAGE_SIZE));
    forall c | 0 <= c < PAGE_SIZE ensures !Busy(s, 0, KeyAt(7, c)) { }
    forall done | StopsAt(s, 0, 7, 0, done) ensures done == PAGE_SIZE { StopsOnce(s, 0, 7, 0, done, PAGE_SIZE); }
  }
}
