/**
 The in-memory fork forest: every VM has a memory and a set of files, both
 sparse pages over shared generations, both zero until written.
 */
module PageBranches {
  import opened Basics
  import G = Generations

  type VmId = nat

  datatype FilePage = FilePage(path: string, number: nat)

  datatype Page = Page(id: nat, bytes: seq<Byte>)

  type PageBranch = G.Branch<FilePage, Page>

  datatype ForkError = VmNotFound(vm: VmId) | RangeOverflow | PageIdOverflow

  // ---------------------------------------------------------------------
  // A branch as bytes
  // ---------------------------------------------------------------------

  /** Every page has its size. */
  ghost predicate Sized(b: PageBranch) {
    forall key {:trigger PageBytes(b, key)} :: |PageBytes(b, key)| == PAGE_SIZE
  }

  function PageBytes(b: PageBranch, key: FilePage): seq<Byte> {
    match G.Lookup(b, key)
    case Some(page) => page.bytes
    case None => Zeros(PAGE_SIZE)
  }

  function ByteAt(b: PageBranch, path: string, a: nat): Byte
    requires Sized(b)
  {
    PageBytes(b, FilePage(path, a / PAGE_SIZE))[a % PAGE_SIZE]
  }

  /** A fork seals private pages and changes nothing visible. */
  lemma SealKeepsPages(b: PageBranch, key: FilePage)
    ensures PageBytes(G.Seal(b), key) == PageBytes(b, key)
  {
    G.LookupIsVisible(b, key);
    G.LookupIsVisible(G.Seal(b), key);
  }

  // ---------------------------------------------------------------------
  // Writing, page by page
  // ---------------------------------------------------------------------

  /** The branch after a write, the next page id, and how many bytes were written. */
  datatype Written = Written(branch: PageBranch, nextPage: nat, done: nat)

  /** How many bytes of `len` fit on the page of `cursor`. */
  function OnPage(cursor: nat, len: nat): (n: nat)
    ensures n <= len && cursor % PAGE_SIZE + n <= PAGE_SIZE && (len > 0 ==> n > 0)
  {
    Min(PAGE_SIZE - cursor % PAGE_SIZE, len)
  }

  function PutChunk(b: PageBranch, id: nat, path: string, cursor: nat, chunk: seq<Byte>): (r: PageBranch)
    requires Sized(b) && cursor % PAGE_SIZE + |chunk| <= PAGE_SIZE
    ensures Sized(r)
  {
    var key := FilePage(path, cursor / PAGE_SIZE);
    var r := G.Put(b, key, Page(id, Splice(PageBytes(b, key), cursor % PAGE_SIZE, chunk)));
    assert forall k {:trigger PageBytes(r, k)} :: k != key ==> PageBytes(r, k) == PageBytes(b, k);
    r
  }

  function Write(b: PageBranch, nextPage: nat, path: string, cursor: nat, bytes: seq<Byte>): (w: Written)
    requires Sized(b)
    ensures Sized(w.branch) && w.done <= |bytes|
    decreases |bytes|
  {
    if bytes == [] || nextPage >= U64_MAX then Written(b, nextPage, 0)
    else
      var n := OnPage(cursor, |bytes|);
      var rest := Write(PutChunk(b, nextPage, path, cursor, bytes[..n]), nextPage + 1, path, cursor + n, bytes[n..]);
      rest.(done := n + rest.done)
  }

  /** One page of a write that has come as far as byte `from` of the buffer. */
  lemma WriteStep(b: PageBranch, nextPage: nat, path: string, cursor: nat, bytes: seq<Byte>, from: nat)
    requires Sized(b) && from <= |bytes|
    ensures from == |bytes| || nextPage >= U64_MAX ==>
      Write(b, nextPage, path, cursor, bytes[from..]) == Written(b, nextPage, 0)
    ensures from < |bytes| && nextPage < U64_MAX ==>
      var n := OnPage(cursor, |bytes| - from);
      var rest := Write(PutChunk(b, nextPage, path, cursor, bytes[from..from + n]), nextPage + 1, path, cursor + n, bytes[from + n..]);
      Write(b, nextPage, path, cursor, bytes[from..]) == rest.(done := n + rest.done)
  {
    hide PutChunk, Sized, OnPage;
    var n := OnPage(cursor, |bytes| - from);
    assert bytes[from..][..n] == bytes[from..from + n] && bytes[from..][n..] == bytes[from + n..];
  }

  lemma WriteNone(b: PageBranch, nextPage: nat, path: string, cursor: nat, bytes: seq<Byte>)
    requires Sized(b) && (bytes == [] || nextPage >= U64_MAX)
    ensures Write(b, nextPage, path, cursor, bytes) == Written(b, nextPage, 0)
  {
  }

  lemma WriteFirst(b: PageBranch, nextPage: nat, path: string, cursor: nat, bytes: seq<Byte>)
    requires Sized(b) && bytes != [] && nextPage < U64_MAX
    ensures var n := OnPage(cursor, |bytes|);
      var rest := Write(PutChunk(b, nextPage, path, cursor, bytes[..n]), nextPage + 1, path, cursor + n, bytes[n..]);
      Write(b, nextPage, path, cursor, bytes) == rest.(done := n + rest.done)
  {
  }

  lemma ChunkBytes(b: PageBranch, id: nat, path: string, cursor: nat, chunk: seq<Byte>, p: string, a: nat)
    requires Sized(b) && cursor % PAGE_SIZE + |chunk| <= PAGE_SIZE
    ensures ByteAt(PutChunk(b, id, path, cursor, chunk), p, a)
         == if p == path && cursor <= a < cursor + |chunk| then chunk[a - cursor] else ByteAt(b, p, a)
  {
  }

  /** The bytes written are the first of the buffer, and no other byte changes. */
  lemma {:induction false} WrittenBytes(b: PageBranch, nextPage: nat, path: string, cursor: nat, bytes: seq<Byte>,
                                        p: string, a: nat)
    requires Sized(b)
    ensures var w := Write(b, nextPage, path, cursor, bytes);
      ByteAt(w.branch, p, a)
      == if p == path && cursor <= a < cursor + w.done then bytes[a - cursor] else ByteAt(b, p, a)
    decreases |bytes|
  {
    hide PutChunk, ByteAt, Sized;
    if bytes != [] && nextPage < U64_MAX {
      var n := OnPage(cursor, |bytes|);
      ChunkBytes(b, nextPage, path, cursor, bytes[..n], p, a);
      WrittenBytes(PutChunk(b, nextPage, path, cursor, bytes[..n]), nextPage + 1, path, cursor + n, bytes[n..], p, a);
    }
  }

  /** The pages a write of `len` bytes at `cursor` reaches. */
  function PagesTouched(cursor: nat, len: nat): nat {
    if len == 0 then 0 else (cursor + len - 1) / PAGE_SIZE - cursor / PAGE_SIZE + 1
  }

  /** How much of a write gets done when only `left` page ids are left: all of it, or as many pages. */
  function Reached(left: nat, cursor: nat, len: nat): (done: nat)
    ensures done <= len
    ensures done == len <==> PagesTouched(cursor, len) <= left
  {
    if PagesTouched(cursor, len) <= left then len
    else if left == 0 then 0
    else left * PAGE_SIZE - cursor % PAGE_SIZE
  }

  lemma TouchedStep(cursor: nat, len: nat)
    requires len > 0
    ensures var n := OnPage(cursor, len);
      && PagesTouched(cursor, len) == 1 + PagesTouched(cursor + n, len - n)
      && (n < len ==> (cursor + n) / PAGE_SIZE == cursor / PAGE_SIZE + 1)
  {
  }

  /** A write takes one id per page it reaches, and stops short only when ids run out. */
  lemma {:induction false} WrittenCount(b: PageBranch, nextPage: nat, path: string, cursor: nat, bytes: seq<Byte>)
    requires Sized(b) && nextPage <= U64_MAX
    ensures var w, n := Write(b, nextPage, path, cursor, bytes), PagesTouched(cursor, |bytes|);
      && w.nextPage == nextPage + Min(n, U64_MAX - nextPage)
      && (w.done == |bytes| <==> nextPage + n <= U64_MAX)
      && w.done == Reached(U64_MAX - nextPage, cursor, |bytes|)
    decreases |bytes|
  {
    hide PutChunk, Sized;
    if bytes != [] && nextPage < U64_MAX {
      var n := OnPage(cursor, |bytes|);
      TouchedStep(cursor, |bytes|);
      WrittenCount(PutChunk(b, nextPage, path, cursor, bytes[..n]), nextPage + 1, path, cursor + n, bytes[n..]);
    }
  }

  /** Copy a page, or zeros, change part of it, and keep it as a private page. */
  method WritePage(b: PageBranch, id: nat, path: string, cursor: nat, chunk: seq<Byte>) returns (r: PageBranch)
    requires Sized(b) && cursor % PAGE_SIZE + |chunk| <= PAGE_SIZE
    ensures r == PutChunk(b, id, path, cursor, chunk)
  {
    var key := FilePage(path, cursor / PAGE_SIZE);
    var stored := G.Lookup(b, key);
    assert |PageBytes(b, key)| == PAGE_SIZE;
    var contents := if stored.Some? then stored.value.bytes else Zeros(PAGE_SIZE);
    contents := Splice(contents, cursor % PAGE_SIZE, chunk);
    r := G.Put(b, key, Page(id, contents));
  }

  /** Write page by page until the buffer is written or ids run out. */
  method WriteEach(b: PageBranch, nextPage: nat, path: string, offset: nat, bytes: seq<Byte>) returns (w: Written)
    requires Sized(b) && nextPage <= U64_MAX
    ensures w == Write(b, nextPage, path, offset, bytes)
  {
    hide Write, PutChunk, Sized, OnPage;
    w := Written(b, nextPage, 0);
    assert bytes[0..] == bytes;
    while w.done < |bytes|
      invariant w.done <= |bytes| && Sized(w.branch)
      invariant var rest := Write(w.branch, w.nextPage, path, offset + w.done, bytes[w.done..]);
        Write(b, nextPage, path, offset, bytes) == rest.(done := w.done + rest.done)
      decreases |bytes| - w.done
    {
      var n := OnPage(offset + w.done, |bytes| - w.done);
      WriteStep(w.branch, w.nextPage, path, offset + w.done, bytes, w.done);
      if w.nextPage >= U64_MAX {
        return;
      }
      var branch := WritePage(w.branch, w.nextPage, path, offset + w.done, bytes[w.done..w.done + n]);
      w := Written(branch, w.nextPage + 1, w.done + n);
    }
    WriteStep(w.branch, w.nextPage, path, offset + w.done, bytes, |bytes|);
  }

  /** Write a buffer, one page at a time. */
  method WritePages(b: PageBranch, nextPage: nat, path: string, offset: nat, bytes: seq<Byte>)
    returns (branch: PageBranch, next: nat, r: Result<(), ForkError>)
    requires Sized(b) && nextPage <= U64_MAX
    ensures Sized(branch) && next <= U64_MAX
    ensures offset + |bytes| > U64_MAX ==> r == Err(RangeOverflow) && branch == b && next == nextPage
    ensures offset + |bytes| <= U64_MAX ==>
      var w := Write(b, nextPage, path, offset, bytes);
      && branch == w.branch && next == w.nextPage
      && r == if nextPage + PagesTouched(offset, |bytes|) <= U64_MAX then Ok(()) else Err(PageIdOverflow)
  {
    if offset + |bytes| > U64_MAX {
      return b, nextPage, Err(RangeOverflow);
    }
    hide Write, PagesTouched, Sized;
    var w := WriteEach(b, nextPage, path, offset, bytes);
    WrittenCount(b, nextPage, path, offset, bytes);
    return w.branch, w.nextPage, if w.done == |bytes| then Ok(()) else Err(PageIdOverflow);
  }

  /** Read a range, pages never written as zeros. */
  method ReadPages(b: PageBranch, path: string, offset: nat, len: nat) returns (r: Result<seq<Byte>, ForkError>)
    requires Sized(b)
    ensures offset + len > U64_MAX ==> r == Err(RangeOverflow)
    ensures offset + len <= U64_MAX ==>
      && r.Ok? && |r.value| == len
      && forall i :: 0 <= i < len ==> r.value[i] == ByteAt(b, path, offset + i)
  {
    if offset + len > U64_MAX {
      return Err(RangeOverflow);
    }
    var result := Zeros(len);
    var cursor, end := offset, offset + len;
    while cursor < end
      invariant offset <= cursor <= end && |result| == len
      invariant forall i :: 0 <= i < cursor - offset ==> result[i] == ByteAt(b, path, offset + i)
      invariant forall i :: cursor - offset <= i < len ==> result[i] == 0
    {
      var number, at := cursor / PAGE_SIZE, cursor % PAGE_SIZE;
      var count := Min(PAGE_SIZE - at, end - cursor);
      var page := G.Lookup(b, FilePage(path, number));
      assert |PageBytes(b, FilePage(path, number))| == PAGE_SIZE;
      if page.Some? {
        result := Splice(result, cursor - offset, page.value.bytes[at..at + count]);
      }
      forall i | cursor - offset <= i < cursor - offset + count ensures result[i] == ByteAt(b, path, offset + i) {
        assert (offset + i) / PAGE_SIZE == number;
      }
      cursor := cursor + count;
    }
    return Ok(result);
  }
}
