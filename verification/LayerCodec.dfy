/**
 The byte format of layer and overlay files: one record per block write, an
 eight-byte address, an eight-byte block id and the block, little-endian.
 */
module LayerCodec {
  import opened Basics
  import opened DiskLog

  const RECORD_SIZE: nat := 16 + BLOCK_SIZE

  // ---------------------------------------------------------------------
  // Numbers
  // ---------------------------------------------------------------------

  /** The low `k` bytes of a number, least significant first. */
  function Word(n: nat, k: nat): (w: seq<Byte>)
    ensures |w| == k
    decreases k
  {
    if k == 0 then [] else [(n % 256) as Byte] + Word(n / 256, k - 1)
  }

  function Number(bytes: seq<Byte>): nat {
    if bytes == [] then 0 else bytes[0] as nat + 256 * Number(bytes[1..])
  }

  function Power256(k: nat): nat {
    if k == 0 then 1 else 256 * Power256(k - 1)
  }

  lemma {:induction false} NumberOfWord(n: nat, k: nat)
    requires n < Power256(k)
    ensures Number(Word(n, k)) == n
    decreases k
  {
    if k > 0 {
      NumberOfWord(n / 256, k - 1);
      assert Word(n, k)[1..] == Word(n / 256, k - 1);
    }
  }

  lemma NumberOfU64(n: nat)
    requires n <= U64_MAX
    ensures Number(Word(n, 8)) == n
  {
    assert Power256(8) == 256 * (256 * (256 * (256 * Power256(4))));
    assert Power256(4) == 256 * 256 * 256 * 256;
    NumberOfWord(n, 8);
  }

  /** Digit `i` of a number to the base 256, counting from the least significant. */
  function Digit(n: nat, i: nat): (d: nat)
    ensures d < 256
  {
    if i == 0 then n % 256 else Digit(n / 256, i - 1)
  }

  /** Byte `i` of a word is digit `i` of its number. */
  lemma {:induction false} WordByte(n: nat, k: nat, i: nat)
    requires i < k
    ensures Word(n, k)[i] as nat == Digit(n, i)
    decreases k
  {
    if i > 0 {
      WordByte(n / 256, k - 1, i - 1);
      assert Word(n, k)[i] == Word(n / 256, k - 1)[i - 1];
    }
  }

  // ---------------------------------------------------------------------
  // Records
  // ---------------------------------------------------------------------

  /** A record whose fields fit the format. */
  predicate Fits(r: Record) {
    r.address <= U64_MAX && r.id <= U64_MAX && |r.bytes| == BLOCK_SIZE
  }

  function Encode(r: Record): (bytes: seq<Byte>)
    requires |r.bytes| == BLOCK_SIZE
    ensures |bytes| == RECORD_SIZE
  {
    Word(r.address, 8) + Word(r.id, 8) + r.bytes
  }

  function Decode(bytes: seq<Byte>): (r: Record)
    requires |bytes| == RECORD_SIZE
    ensures |r.bytes| == BLOCK_SIZE
  {
    Record(Number(bytes[..8]), Number(bytes[8..16]), bytes[16..])
  }

  lemma DecodeEncode(r: Record)
    requires Fits(r)
    ensures Decode(Encode(r)) == r
  {
    var bytes := Encode(r);
    assert bytes[..8] == Word(r.address, 8);
    assert bytes[8..16] == Word(r.id, 8);
    assert bytes[16..] == r.bytes;
    NumberOfU64(r.address);
    NumberOfU64(r.id);
  }

  /** Where each byte of a record is: the address, then the id, both little-endian, then the block. */
  lemma RecordLayout(r: Record, i: nat)
    requires Fits(r) && i < RECORD_SIZE
    ensures Encode(r)[i] as nat ==
      if i < 8 then Digit(r.address, i)
      else if i < 16 then Digit(r.id, i - 8)
      else r.bytes[i - 16] as nat
  {
    hide Digit, Word;
    if i < 8 {
      WordByte(r.address, 8, i);
    } else if i < 16 {
      WordByte(r.id, 8, i - 8);
    }
  }

  // ---------------------------------------------------------------------
  // Files
  // ---------------------------------------------------------------------

  /** The whole records at the start of a file. */
  function Decoded(bytes: seq<Byte>): (records: seq<Record>)
    ensures |records| == |bytes| / RECORD_SIZE
    ensures forall k :: 0 <= k < |records| ==> |records[k].bytes| == BLOCK_SIZE
    decreases |bytes|
  {
    if |bytes| < RECORD_SIZE then []
    else [Decode(bytes[..RECORD_SIZE])] + Decoded(bytes[RECORD_SIZE..])
  }

  function Parse(bytes: seq<Byte>): File {
    File(Decoded(bytes), |bytes| % RECORD_SIZE != 0)
  }

  lemma WholeRest(n: nat)
    requires 0 < n && n % RECORD_SIZE == 0
    ensures RECORD_SIZE <= n && (n - RECORD_SIZE) % RECORD_SIZE == 0
  {
  }

  /** Appending a record to a whole file appends it to the records it holds. */
  lemma {:induction false} AppendRecord(bytes: seq<Byte>, r: Record)
    requires |bytes| % RECORD_SIZE == 0 && Fits(r)
    ensures Parse(bytes + Encode(r)) == File(Decoded(bytes) + [r], false)
    decreases |bytes|
  {
    hide Decode, Encode;
    var all := bytes + Encode(r);
    if bytes == [] {
      DecodeEncode(r);
      assert all == Encode(r);
      assert all[..RECORD_SIZE] == Encode(r) && all[RECORD_SIZE..] == [];
    } else {
      WholeRest(|bytes|);
      var rest := bytes[RECORD_SIZE..];
      AppendRecord(rest, r);
      assert all[..RECORD_SIZE] == bytes[..RECORD_SIZE];
      assert all[RECORD_SIZE..] == rest + Encode(r);
    }
  }

  lemma SliceOfRest(bytes: seq<Byte>, n: nat, from: nat, to: nat)
    requires from <= to && n + to <= |bytes|
    ensures bytes[n..][from..to] == bytes[n + from..n + to]
  {
  }

  lemma {:induction false} DecodedAt(bytes: seq<Byte>, k: nat)
    requires (k + 1) * RECORD_SIZE <= |bytes|
    ensures k < |Decoded(bytes)| && Decoded(bytes)[k] == Decode(bytes[k * RECORD_SIZE..(k + 1) * RECORD_SIZE])
    decreases k
  {
    if k > 0 {
      var rest := bytes[RECORD_SIZE..];
      DecodedAt(rest, k - 1);
      SliceOfRest(bytes, RECORD_SIZE, (k - 1) * RECORD_SIZE, k * RECORD_SIZE);
    }
  }

  // ---------------------------------------------------------------------
  // Loading
  // ---------------------------------------------------------------------

  datatype LoadError = NotFound | PartialRecord | ConflictingBlock

  /** No record gives a known block, or a block of an earlier record, other bytes. */
  predicate Consistent(objects: map<nat, Block>, records: seq<Record>) {
    && (forall i :: 0 <= i < |records| && records[i].id in objects ==> objects[records[i].id].bytes == records[i].bytes)
    && (forall i, j :: 0 <= i < j < |records| && records[i].id == records[j].id ==> records[i].bytes == records[j].bytes)
  }

  /** The known blocks once the records are loaded. */
  function Interned(objects: map<nat, Block>, records: seq<Record>): map<nat, Block>
    decreases |records|
  {
    if records == [] then objects
    else
      var last := records[|records| - 1];
      var before := Interned(objects, records[..|records| - 1]);
      if last.id in before then before else before[last.id := Block(last.id, last.bytes)]
  }

  /** A block is known after loading exactly when it was before or a record holds it. */
  lemma {:induction false} InternedIds(objects: map<nat, Block>, records: seq<Record>, id: nat)
    ensures id in Interned(objects, records) <==> id in objects || exists i :: 0 <= i < |records| && records[i].id == id
    ensures id in objects ==> id in Interned(objects, records) && Interned(objects, records)[id] == objects[id]
    decreases |records|
  {
    if records != [] {
      var before := records[..|records| - 1];
      InternedIds(objects, before, id);
      assert forall i :: 0 <= i < |before| ==> before[i] == records[i];
      if records[|records| - 1].id == id {
        assert id in Interned(objects, records);
      }
    }
  }

  /** With consistent records, every record's block is the known block of its id. */
  lemma {:induction false} InternedBlock(objects: map<nat, Block>, records: seq<Record>, i: nat)
    requires Consistent(objects, records) && i < |records|
    requires forall id :: id in objects ==> objects[id].id == id
    ensures records[i].id in Interned(objects, records)
    ensures Interned(objects, records)[records[i].id] == Block(records[i].id, records[i].bytes)
    decreases |records|
  {
    var before := records[..|records| - 1];
    var id := records[i].id;
    InternedIds(objects, before, id);
    if i < |before| {
      InternedBlock(objects, before, i);
    } else if id in objects {
      assert objects[id] == Block(id, records[i].bytes);
    } else if id in Interned(objects, before) {
      var j :| 0 <= j < |before| && before[j].id == id;
      InternedBlock(objects, before, j);
      assert records[j].bytes == records[i].bytes;
    }
  }

  /** One more record is consistent exactly when its block is unknown or known with its bytes. */
  lemma ConsistentPush(objects: map<nat, Block>, records: seq<Record>, r: Record)
    requires Consistent(objects, records)
    requires forall id :: id in objects ==> objects[id].id == id
    ensures Consistent(objects, records + [r]) <==>
      (r.id in Interned(objects, records) ==> Interned(objects, records)[r.id].bytes == r.bytes)
  {
    var all := records + [r];
    InternedIds(objects, records, r.id);
    assert all[|records|] == r;
    forall i: nat | i < |records| ensures records[i].id in Interned(objects, records)
      && Interned(objects, records)[records[i].id] == Block(records[i].id, records[i].bytes)
    {
      InternedBlock(objects, records, i);
    }
    if Consistent(objects, all) && r.id in Interned(objects, records) && r.id !in objects {
      var i :| 0 <= i < |records| && records[i].id == r.id;
      assert all[i] == records[i];
    }
  }

  lemma LoadNothing(objects: map<nat, Block>, nextBlock: nat)
    ensures Consistent(objects, []) && Interned(objects, []) == objects && Replay([]) == map[] && MaxId([], nextBlock) == nextBlock
  {
  }

  /** What loading record `k` adds to loading the records before it. */
  lemma LoadOne(objects: map<nat, Block>, visible: map<nat, Block>, nextBlock: nat, records: seq<Record>, k: nat)
    requires k < |records| && Consistent(objects, records[..k])
    requires forall id :: id in objects ==> objects[id].id == id
    ensures var r, known := records[k], Interned(objects, records[..k]);
      && (Consistent(objects, records[..k + 1]) <==> (r.id in known ==> known[r.id].bytes == r.bytes))
      && (Consistent(objects, records[..k + 1]) && r.id in known ==> known[r.id] == Block(r.id, r.bytes))
      && Interned(objects, records[..k + 1]) == (if r.id in known then known else known[r.id := Block(r.id, r.bytes)])
      && visible + Replay(records[..k + 1]) == (visible + Replay(records[..k]))[r.address := Block(r.id, r.bytes)]
      && MaxId(records[..k + 1], nextBlock) == (var m := MaxId(records[..k], nextBlock); if m < r.id + 1 then r.id + 1 else m)
  {
    var upTo := records[..k + 1];
    assert upTo == records[..k] + [records[k]] && upTo[..k] == records[..k];
    ConsistentPush(objects, records[..k], records[k]);
    if Consistent(objects, upTo) {
      InternedBlock(objects, upTo, k);
    }
  }

  datatype Loaded = Loaded(objects: map<nat, Block>, visible: map<nat, Block>, nextBlock: nat)

  /** Load a file: intern its blocks, put them where they go, and count ids past them. */
  method LoadRecords(bytes: seq<Byte>, objects: map<nat, Block>, visible: map<nat, Block>, nextBlock: nat)
    returns (r: Result<Loaded, LoadError>)
    requires forall id :: id in objects ==> objects[id].id == id
    requires nextBlock <= U64_MAX
    ensures var file := Parse(bytes);
      r == if file.torn then Err(PartialRecord)
           else if !Consistent(objects, file.records) then Err(ConflictingBlock)
           else Ok(Loaded(Interned(objects, file.records), visible + Replay(file.records),
                          Min(MaxId(file.records, nextBlock), U64_MAX)))
  {
    hide Consistent, Interned, Replay, MaxId, Number, Decoded;
    if |bytes| % RECORD_SIZE != 0 {
      return Err(PartialRecord);
    }
    LoadNothing(objects, nextBlock);
    ghost var records := Decoded(bytes);
    var known, shown, next, k := objects, visible, nextBlock, 0;
    while k < |bytes| / RECORD_SIZE
      invariant k <= |records|
      invariant Consistent(objects, records[..k])
      invariant known == Interned(objects, records[..k])
      invariant shown == visible + Replay(records[..k])
      invariant next == Min(MaxId(records[..k], nextBlock), U64_MAX)
    {
      DecodedAt(bytes, k);
      var chunk := bytes[k * RECORD_SIZE..(k + 1) * RECORD_SIZE];
      var address, id, block := Number(chunk[..8]), Number(chunk[8..16]), chunk[16..];
      LoadOne(objects, visible, nextBlock, records, k);
      if id in known {
        if known[id].bytes != block {
          ConsistentPrefix(objects, records, k + 1);
          return Err(ConflictingBlock);
        }
      } else {
        known := known[id := Block(id, block)];
      }
      next := if next < id + 1 then Min(id + 1, U64_MAX) else next;
      shown := shown[address := known[id]];
      k := k + 1;
    }
    assert records[..k] == records;
    return Ok(Loaded(known, shown, next));
  }

  lemma ConsistentPrefix(objects: map<nat, Block>, records: seq<Record>, k: nat)
    requires k <= |records|
    ensures Consistent(objects, records) ==> Consistent(objects, records[..k])
  {
  }
}
