/** Reopening a checkpointed disk from its files, with the errors that stop it. */
module DiskRestore {
  import opened Basics
  import opened DiskLog
  import opened LayerCodec
  import opened DiskObject
  import opened DiskInvariant
  import G = Generations

  predicate WellKeyed(objects: map<nat, Block>) {
    forall id :: id in objects ==> objects[id].id == id
  }

  // ---------------------------------------------------------------------
  // Loading several files
  // ---------------------------------------------------------------------

  function NamedRecords(w: World, names: seq<Name>): seq<Record>
    decreases |names|
  {
    if names == [] then [] else NamedRecords(w, names[..|names| - 1]) + RecordsOf(w, names[|names| - 1])
  }

  /** The error of loading one file, given the blocks known before it. */
  function FileError(w: World, name: Name, known: map<nat, Block>): Option<LoadError> {
    if name !in w.names || w.names[name] !in w.files then Some(NotFound)
    else if w.files[w.names[name]].torn then Some(PartialRecord)
    else if !Consistent(known, w.files[w.names[name]].records) then Some(ConflictingBlock)
    else None
  }

  /** The first error of loading the files in order. */
  function LoadFailure(w: World, names: seq<Name>, objects: map<nat, Block>): Option<LoadError>
    decreases |names|
  {
    if names == [] then None
    else
      var before := names[..|names| - 1];
      LoadFailure(w, before, objects).Or(FileError(w, names[|names| - 1], Interned(objects, NamedRecords(w, before))))
  }

  /** The files of a checkpoint, in the order they are loaded. */
  function StateNames(layers: seq<nat>, overlay: nat): seq<Name> {
    LayerNames(layers) + [Overlay(overlay)]
  }

  function LayerNames(layers: seq<nat>): (names: seq<Name>)
    ensures |names| == |layers| && forall i :: 0 <= i < |layers| ==> names[i] == Layer(layers[i])
  {
    seq(|layers|, i requires 0 <= i < |layers| => Layer(layers[i]))
  }

  lemma {:induction false} NamedLayers(w: World, layers: seq<nat>)
    ensures NamedRecords(w, LayerNames(layers)) == LayerRecords(w, layers)
    decreases |layers|
  {
    if layers != [] {
      var before := layers[..|layers| - 1];
      NamedLayers(w, before);
      assert LayerNames(layers)[..|layers| - 1] == LayerNames(before);
    }
  }

  lemma NamedState(w: World, layers: seq<nat>, overlay: nat)
    ensures NamedRecords(w, StateNames(layers, overlay)) == DiskRecords(w, layers, overlay)
  {
    NamedLayers(w, layers);
    assert StateNames(layers, overlay)[..|layers|] == LayerNames(layers);
  }

  // ---------------------------------------------------------------------
  // Records loaded in two parts
  // ---------------------------------------------------------------------

  lemma {:induction false} InternedConcat(objects: map<nat, Block>, a: seq<Record>, b: seq<Record>)
    ensures Interned(objects, a + b) == Interned(Interned(objects, a), b)
    decreases |b|
  {
    if b == [] {
      assert a + b == a;
    } else {
      assert (a + b)[..|a + b| - 1] == a + b[..|b| - 1];
      InternedConcat(objects, a, b[..|b| - 1]);
    }
  }

  lemma {:induction false} InternedIsWellKeyed(objects: map<nat, Block>, records: seq<Record>)
    requires WellKeyed(objects)
    ensures WellKeyed(Interned(objects, records))
    decreases |records|
  {
    if records != [] {
      InternedIsWellKeyed(objects, records[..|records| - 1]);
    }
  }

  lemma {:induction false} ConsistentConcat(objects: map<nat, Block>, a: seq<Record>, b: seq<Record>)
    requires WellKeyed(objects) && Consistent(objects, a)
    ensures Consistent(objects, a + b) <==> Consistent(Interned(objects, a), b)
    decreases |b|
  {
    if b == [] {
      assert a + b == a;
    } else {
      var init, last := b[..|b| - 1], b[|b| - 1];
      ConsistentConcat(objects, a, init);
      InternedIsWellKeyed(objects, a);
      InternedConcat(objects, a, init);
      assert a + b == (a + init) + [last] && b == init + [last];
      ConsistentPrefix(objects, a + b, |a + init|);
      ConsistentPrefix(Interned(objects, a), b, |init|);
      assert (a + b)[..|a + init|] == a + init && b[..|init|] == init;
      if Consistent(objects, a + init) {
        ConsistentPush(objects, a + init, last);
        ConsistentPush(Interned(objects, a), init, last);
      }
    }
  }

  lemma {:induction false} MaxIdConcat(a: seq<Record>, b: seq<Record>, floor: nat)
    ensures MaxId(a + b, floor) == MaxId(b, MaxId(a, floor))
    ensures Min(MaxId(b, Min(MaxId(a, floor), U64_MAX)), U64_MAX) == Min(MaxId(a + b, floor), U64_MAX)
    decreases |b|
  {
    if b == [] {
      assert a + b == a;
    } else {
      assert (a + b)[..|a + b| - 1] == a + b[..|b| - 1];
      MaxIdConcat(a, b[..|b| - 1], floor);
    }
  }

  predicate FilesOk(w: World, names: seq<Name>) {
    forall i :: 0 <= i < |names| ==> FileOk(w, names[i])
  }

  /** Loading succeeds exactly when every file is there, whole, and no block is contradicted. */
  lemma {:induction false} LoadSucceedsWhen(w: World, names: seq<Name>, objects: map<nat, Block>)
    requires WellKeyed(objects)
    ensures LoadFailure(w, names, objects) == None <==>
      FilesOk(w, names) && Consistent(objects, NamedRecords(w, names))
    decreases |names|
  {
    hide Interned, Consistent;
    if names == [] {
      LoadNothing(objects, 0);
    } else {
      var before, last := names[..|names| - 1], names[|names| - 1];
      LoadSucceedsWhen(w, before, objects);
      assert FilesOk(w, names) <==> FilesOk(w, before) && FileOk(w, last);
      ConsistentPrefix(objects, NamedRecords(w, names), |NamedRecords(w, before)|);
      assert NamedRecords(w, names)[..|NamedRecords(w, before)|] == NamedRecords(w, before);
      if Consistent(objects, NamedRecords(w, before)) {
        ConsistentConcat(objects, NamedRecords(w, before), RecordsOf(w, last));
      }
    }
  }

  /** The error is that of the first file that is missing, torn or contradicts what was loaded before it. */
  lemma {:induction false} FailureIsTheFirst(w: World, names: seq<Name>, objects: map<nat, Block>) returns (k: nat)
    requires LoadFailure(w, names, objects).Some?
    ensures k < |names| && LoadFailure(w, names[..k], objects) == None
    ensures match LoadFailure(w, names, objects).value
      case NotFound => names[k] !in w.names || w.names[names[k]] !in w.files
      case PartialRecord => names[k] in w.names && w.names[names[k]] in w.files && w.files[w.names[names[k]]].torn
      case ConflictingBlock =>
        FileOk(w, names[k]) && !Consistent(Interned(objects, NamedRecords(w, names[..k])), RecordsOf(w, names[k]))
    decreases |names|
  {
    hide Consistent, Interned;
    var n := |names| - 1;
    if LoadFailure(w, names[..n], objects).Some? {
      k := FailureIsTheFirst(w, names[..n], objects);
      assert names[..n][..k] == names[..k];
    } else {
      k := n;
    }
  }

  /** An error among the first files is the error of all. */
  lemma {:induction false} FirstFailure(w: World, names: seq<Name>, objects: map<nat, Block>, k: nat)
    requires k <= |names| && LoadFailure(w, names[..k], objects).Some?
    ensures LoadFailure(w, names, objects) == LoadFailure(w, names[..k], objects)
    decreases |names|
  {
    if k < |names| {
      var before := names[..|names| - 1];
      assert before[..k] == names[..k];
      FirstFailure(w, before, objects, k);
    } else {
      assert names[..k] == names;
    }
  }

  // ---------------------------------------------------------------------
  // The methods
  // ---------------------------------------------------------------------

  /** Load one file of a lineage. */
  method LoadFile(lineage: Lineage, name: Name, known: map<nat, Block>, visible: map<nat, Block>, nextBlock: nat)
    returns (r: Result<Loaded, LoadError>)
    requires WellKeyed(known) && nextBlock <= U64_MAX
    ensures var w := lineage.With(map[]);
      r == match FileError(w, name, known)
           case Some(e) => Err(e)
           case None => Ok(Loaded(Interned(known, RecordsOf(w, name)), visible + Replay(RecordsOf(w, name)),
                                  Min(MaxId(RecordsOf(w, name), nextBlock), U64_MAX)))
  {
    if name !in lineage.names || lineage.names[name] !in lineage.bytes {
      return Err(NotFound);
    }
    r := LoadRecords(lineage.bytes[lineage.names[name]], known, visible, nextBlock);
  }

  /** Load the layers of a checkpoint in order. */
  method LoadLayers(lineage: Lineage, layers: seq<nat>, objects: map<nat, Block>) returns (r: Result<Loaded, LoadError>)
    requires WellKeyed(objects)
    ensures var w := lineage.With(map[]);
      r == match LoadFailure(w, LayerNames(layers), objects)
           case Some(e) => Err(e)
           case None => Ok(Loaded(Interned(objects, LayerRecords(w, layers)), Replay(LayerRecords(w, layers)),
                                  Min(MaxId(LayerRecords(w, layers), lineage.nextBlock), U64_MAX)))
  {
    hide FileError, Interned, Replay, MaxId, RecordsOf, Consistent;
    ghost var w, names := lineage.With(map[]), LayerNames(layers);
    LoadNothing(objects, lineage.nextBlock);
    var known, base, next, k := objects, map[], lineage.nextBlock, 0;
    while k < |layers|
      invariant k <= |layers| && WellKeyed(known) && next <= U64_MAX
      invariant LoadFailure(w, names[..k], objects) == None
      invariant known == Interned(objects, NamedRecords(w, names[..k]))
      invariant base == Replay(NamedRecords(w, names[..k]))
      invariant next == Min(MaxId(NamedRecords(w, names[..k]), lineage.nextBlock), U64_MAX)
    {
      ghost var records := NamedRecords(w, names[..k]);
      assert names[..k + 1][..k] == names[..k];
      var loaded := LoadFile(lineage, Layer(layers[k]), known, base, next);
      if loaded.Err? {
        FirstFailure(w, names, objects, k + 1);
        return loaded;
      }
      LoadedBoth(objects, records, RecordsOf(w, names[k]), lineage.nextBlock);
      known, base, next := loaded.value.objects, loaded.value.visible, loaded.value.nextBlock;
      k := k + 1;
    }
    assert names[..k] == names;
    NamedLayers(w, layers);
    return Ok(Loaded(known, base, next));
  }

  /** Loading two lots of records one after the other. */
  lemma LoadedBoth(objects: map<nat, Block>, a: seq<Record>, b: seq<Record>, nextBlock: nat)
    requires WellKeyed(objects)
    ensures Interned(objects, a + b) == Interned(Interned(objects, a), b) && WellKeyed(Interned(objects, a + b))
    ensures Replay(a + b) == Replay(a) + Replay(b)
    ensures Min(MaxId(b, Min(MaxId(a, nextBlock), U64_MAX)), U64_MAX) == Min(MaxId(a + b, nextBlock), U64_MAX)
  {
    InternedConcat(objects, a, b);
    InternedIsWellKeyed(objects, a + b);
    ReplayConcat(a, b);
    MaxIdConcat(a, b, nextBlock);
  }

  /** The lineage just before a checkpoint is reopened. */
  function Before(w: World, size: nat, layers: seq<nat>, overlay: nat): World {
    w.(published := [Published(size, layers, overlay, 0, map[])])
  }

  /** No counter runs out of 64 bits. */
  predicate CountersFit(w: World, layers: seq<nat>, overlay: nat) {
    && MaxId(DiskRecords(w, layers, overlay), w.nextBlock) <= U64_MAX
    && MaxName(layers + [overlay], w.nextName) <= U64_MAX
  }

  /** Load the layers and then the overlay of a checkpoint. */
  method LoadState(lineage: Lineage, layers: seq<nat>, overlay: nat, objects: map<nat, Block>)
    returns (r: Result<Loaded, LoadError>)
    requires WellKeyed(objects)
    ensures var w := lineage.With(map[]);
      var records := DiskRecords(w, layers, overlay);
      r == match LoadFailure(w, StateNames(layers, overlay), objects)
           case Some(e) => Err(e)
           case None => Ok(Loaded(Interned(objects, records), Replay(records), Min(MaxId(records, lineage.nextBlock), U64_MAX)))
    ensures r.Ok? ==> FileOk(lineage.With(map[]), Overlay(overlay))
  {
    hide LoadFailure, Interned, Replay, MaxId, Consistent, RecordsOf;
    ghost var w := lineage.With(map[]);
    StateFailure(w, layers, overlay, objects);
    var base := LoadLayers(lineage, layers, objects);
    if base.Err? {
      return base;
    }
    InternedIsWellKeyed(objects, LayerRecords(w, layers));
    var snapshot := LoadFile(lineage, Overlay(overlay), base.value.objects, map[], base.value.nextBlock);
    if snapshot.Err? {
      return snapshot;
    }
    LoadedBoth(objects, LayerRecords(w, layers), RecordsOf(w, Overlay(overlay)), lineage.nextBlock);
    assert snapshot.value.visible == Replay(RecordsOf(w, Overlay(overlay)));
    return Ok(Loaded(snapshot.value.objects, base.value.visible + snapshot.value.visible, snapshot.value.nextBlock));
  }

  /** Reopen a checkpoint, interning its blocks among those of disks reopened before. */
  method RestoreDisk(lineage: Lineage, size: nat, layers: seq<nat>, overlay: nat, objects: map<nat, Block>)
    returns (r: Result<(CowDisk, map<nat, Block>), LoadError>)
    requires WellKeyed(objects)
    modifies lineage
    ensures var w := old(lineage.With(map[]));
      match LoadFailure(w, StateNames(layers, overlay), objects)
      case Some(e) => r == Err(e) && unchanged(lineage)
      case None =>
        && r.Ok? && fresh(r.value.0) && r.value.0.lineage == lineage && r.value.0.Valid()
        && r.value.1 == Interned(objects, DiskRecords(w, layers, overlay))
        && (CountersFit(w, layers, overlay) ==>
              r.value.0.Alone().(published := Before(w, size, layers, overlay).published)
              == Restore(Before(w, size, layers, overlay), 0, 0))
  {
    hide LoadFailure, Interned, Replay, MaxId, FreeNumber, LayerRecords, Parse;
    ghost var w := lineage.With(map[]);
    SameRecords(w, size, layers, overlay);
    LineageIsSized(lineage, layers, overlay);
    var loaded := LoadState(lineage, layers, overlay, objects);
    if loaded.Err? {
      return Err(loaded.error);
    }
    EmptyFile(lineage.bytes[lineage.names[Overlay(overlay)]]);
    lineage.nextBlock := loaded.value.nextBlock;
    lineage.nextName := Min(MaxName(layers + [overlay], lineage.nextName), U64_MAX);
    var live := layers;
    if lineage.bytes[lineage.names[Overlay(overlay)]] != [] {
      var layer := lineage.LinkNumbered(lineage.names[Overlay(overlay)]);
      live := live + [layer];
    }
    var disk := new CowDisk.Over(lineage, size, G.Branch(G.Generation(None, loaded.value.visible), map[]), live);
    return Ok((disk, loaded.value.objects));
  }

  lemma EmptyFile(bytes: seq<Byte>)
    ensures !Parse(bytes).torn ==> (Parse(bytes).records == [] <==> bytes == [])
  {
  }

  lemma SameRecords(w: World, size: nat, layers: seq<nat>, overlay: nat)
    ensures DiskRecords(Before(w, size, layers, overlay), layers, overlay) == DiskRecords(w, layers, overlay)
  {
    SameLayerRecords(w, Before(w, size, layers, overlay), layers);
  }

  lemma StateFailure(w: World, layers: seq<nat>, overlay: nat, objects: map<nat, Block>)
    ensures LoadFailure(w, StateNames(layers, overlay), objects)
         == LoadFailure(w, LayerNames(layers), objects).Or(FileError(w, Overlay(overlay), Interned(objects, LayerRecords(w, layers))))
  {
    NamedLayers(w, layers);
    assert StateNames(layers, overlay)[..|layers|] == LayerNames(layers);
  }

  predicate RecordsSized(records: seq<Record>) {
    forall i :: 0 <= i < |records| ==> |records[i].bytes| == BLOCK_SIZE
  }

  lemma {:induction false} ReplayIsSized(records: seq<Record>)
    requires RecordsSized(records)
    ensures Sized(Replay(records))
    decreases |records|
  {
    if records != [] {
      ReplayIsSized(records[..|records| - 1]);
    }
  }

  lemma {:induction false} LayersAreSized(w: World, layers: seq<nat>)
    requires forall name {:trigger RecordsOf(w, name)} :: RecordsSized(RecordsOf(w, name))
    ensures RecordsSized(LayerRecords(w, layers))
    decreases |layers|
  {
    if layers != [] {
      LayersAreSized(w, layers[..|layers| - 1]);
    }
  }

  lemma LineageIsSized(lineage: Lineage, layers: seq<nat>, overlay: nat)
    ensures Sized(Replay(DiskRecords(lineage.With(map[]), layers, overlay)))
  {
    var w := lineage.With(map[]);
    forall name ensures RecordsSized(RecordsOf(w, name)) { }
    LayersAreSized(w, layers);
    ReplayIsSized(DiskRecords(w, layers, overlay));
  }
}
