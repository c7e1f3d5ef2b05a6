/**
 Branch-visible page identities: a file object, a page number and a version.

 `Names` is the flat meaning of an identity branch, and the form in which the
 shared page cache consumes it. `IdentityBranch` is the generation chain that
 implements it.
 */
module Identities {
  import opened Basics
  import G = Generations

  /** A page of a file, by node and page number. */
  datatype PageKey = PageKey(node: NodeId, page: nat)

  datatype PageIdentity = PageIdentity(obj: nat, page: nat, version: nat)

  // ---------------------------------------------------------------------
  // The contract: what a branch names, as two flat maps
  // ---------------------------------------------------------------------

  datatype Names = Names(objects: map<NodeId, nat>, versions: map<PageKey, nat>)

  function Version(n: Names, key: PageKey): nat {
    if key in n.versions then n.versions[key] else 0
  }

  function NameOf(n: Names, key: PageKey): Option<PageIdentity> {
    if key.node in n.objects
    then Some(PageIdentity(n.objects[key.node], key.page, Version(n, key)))
    else None
  }

  function CreateName(n: Names, node: NodeId, obj: nat): Names {
    n.(objects := n.objects[node := obj])
  }

  function BumpVersion(n: Names, key: PageKey, version: nat): Names {
    n.(versions := n.versions[key := version])
  }

  /** Every name is older than the counters that issue new ones. */
  ghost predicate Issued(n: Names, nextObject: nat, nextVersion: nat) {
    && (forall node :: node in n.objects ==> n.objects[node] < nextObject)
    && (forall key :: key in n.versions ==> n.versions[key] < nextVersion)
    && 0 < nextVersion
  }

  // ---------------------------------------------------------------------
  // The implementation: a chain of generations
  // ---------------------------------------------------------------------

  datatype IdentityGeneration = IdentityGeneration(
    parent: Option<IdentityGeneration>,
    files: map<NodeId, nat>,
    pages: map<PageKey, nat>)

  datatype IdentityBranch = IdentityBranch(
    base: IdentityGeneration,
    files: map<NodeId, nat>,
    pages: map<PageKey, nat>)

  const EMPTY_GENERATION := IdentityGeneration(None, map[], map[])

  function FileIn(g: IdentityGeneration, node: NodeId): Option<nat> {
    if node in g.files then Some(g.files[node])
    else match g.parent
      case None => None
      case Some(p) => FileIn(p, node)
  }

  function PageVersionIn(g: IdentityGeneration, key: PageKey): Option<nat> {
    if key in g.pages then Some(g.pages[key])
    else match g.parent
      case None => None
      case Some(p) => PageVersionIn(p, key)
  }

  function NewBranch(): IdentityBranch {
    IdentityBranch(EMPTY_GENERATION, map[], map[])
  }

  /** The source's branch after a fork; the child starts from the same base. */
  function Seal(b: IdentityBranch): IdentityBranch {
    if b.files != map[] || b.pages != map[]
    then IdentityBranch(IdentityGeneration(Some(b.base), b.files, b.pages), map[], map[])
    else b
  }

  function AddFile(b: IdentityBranch, node: NodeId, obj: nat): IdentityBranch {
    b.(files := b.files[node := obj])
  }

  function PageIdentityOf(b: IdentityBranch, node: NodeId, offset: nat): Option<PageIdentity> {
    var obj := (if node in b.files then Some(b.files[node]) else None).Or(FileIn(b.base, node));
    var page := offset / PAGE_SIZE;
    var key := PageKey(node, page);
    var version := (if key in b.pages then Some(b.pages[key]) else None).Or(PageVersionIn(b.base, key));
    match obj
    case None => None
    case Some(o) => Some(PageIdentity(o, page, version.GetOr(0)))
  }

  function PreparePageWrite(b: IdentityBranch, node: NodeId, offset: nat, version: nat): IdentityBranch {
    b.(pages := b.pages[PageKey(node, offset / PAGE_SIZE) := version])
  }

  // The two projections of a chain onto the generic one.

  function FilesIn(g: IdentityGeneration): G.Generation<NodeId, nat> {
    G.Generation(match g.parent case None => None case Some(p) => Some(FilesIn(p)), g.files)
  }

  function PagesIn(g: IdentityGeneration): G.Generation<PageKey, nat> {
    G.Generation(match g.parent case None => None case Some(p) => Some(PagesIn(p)), g.pages)
  }

  function VisibleFiles(b: IdentityBranch): map<NodeId, nat> {
    G.Visible(G.Branch(FilesIn(b.base), b.files))
  }

  function VisiblePages(b: IdentityBranch): map<PageKey, nat> {
    G.Visible(G.Branch(PagesIn(b.base), b.pages))
  }

  function NamesOf(b: IdentityBranch): Names {
    Names(VisibleFiles(b), VisiblePages(b))
  }

  lemma {:induction false} FileInIsLookup(g: IdentityGeneration, node: NodeId)
    ensures FileIn(g, node) == G.LookupIn(FilesIn(g), node)
  {
    if g.parent.Some? {
      FileInIsLookup(g.parent.value, node);
    }
  }

  lemma {:induction false} PageVersionInIsLookup(g: IdentityGeneration, key: PageKey)
    ensures PageVersionIn(g, key) == G.LookupIn(PagesIn(g), key)
  {
    if g.parent.Some? {
      PageVersionInIsLookup(g.parent.value, key);
    }
  }

  /** The recursive lookup through the chain reads the flat names. */
  lemma IdentityIsName(b: IdentityBranch, node: NodeId, offset: nat)
    ensures PageIdentityOf(b, node, offset) == NameOf(NamesOf(b), PageKey(node, offset / PAGE_SIZE))
  {
    var key := PageKey(node, offset / PAGE_SIZE);
    FileInIsLookup(b.base, node);
    PageVersionInIsLookup(b.base, key);
    G.LookupInIsVisible(FilesIn(b.base), node);
    G.LookupInIsVisible(PagesIn(b.base), key);
  }

  /**
   The identity branch meets its half of the forkable-store contract: a fork
   changes no name on either side, and the two mutations change the flat names
   at one place each.
   */
  lemma MeetsStoreContract(b: IdentityBranch, node: NodeId, offset: nat, issued: nat)
    ensures NamesOf(Seal(b)) == NamesOf(b)
    ensures Seal(b).files == map[] && Seal(b).pages == map[]
    ensures NamesOf(AddFile(b, node, issued)) == CreateName(NamesOf(b), node, issued)
    ensures NamesOf(PreparePageWrite(b, node, offset, issued))
         == BumpVersion(NamesOf(b), PageKey(node, offset / PAGE_SIZE), issued)
  {
    SealKeepsNames(b);
    assert G.Branch(FilesIn(b.base), b.files[node := issued]) == G.Put(G.Branch(FilesIn(b.base), b.files), node, issued);
    var key := PageKey(node, offset / PAGE_SIZE);
    assert G.Branch(PagesIn(b.base), b.pages[key := issued]) == G.Put(G.Branch(PagesIn(b.base), b.pages), key, issued);
  }

  lemma SealKeepsNames(b: IdentityBranch)
    ensures NamesOf(Seal(b)) == NamesOf(b)
  {
    if b.files != map[] || b.pages != map[] {
      var g := IdentityGeneration(Some(b.base), b.files, b.pages);
      assert G.VisibleIn(FilesIn(g)) == G.VisibleIn(FilesIn(b.base)) + b.files;
      assert G.VisibleIn(PagesIn(g)) == G.VisibleIn(PagesIn(b.base)) + b.pages;
      assert NamesOf(Seal(b)).objects == NamesOf(b).objects;
      assert NamesOf(Seal(b)).versions == NamesOf(b).versions;
    }
  }

  /** Preparing a page write names that page of that branch, and no other, by a version never seen. */
  lemma PreparedNameIsNew(n: Names, nextObject: nat, nextVersion: nat, key: PageKey, other: Names, key': PageKey)
    requires Issued(n, nextObject, nextVersion) && Issued(other, nextObject, nextVersion)
    requires key.node in n.objects
    ensures var after := BumpVersion(n, key, nextVersion);
      && NameOf(after, key).Some?
      && NameOf(after, key) != NameOf(other, key')
      && (key' != key ==> NameOf(after, key') == NameOf(n, key'))
      && Issued(after, nextObject, nextVersion + 1)
  {
  }

  /** The pages of a new file are named by its object, their number and version zero. */
  lemma NewFileNames(b: IdentityBranch, node: NodeId, obj: nat, offset: nat)
    requires PageKey(node, offset / PAGE_SIZE) !in VisiblePages(b)
    ensures PageIdentityOf(AddFile(b, node, obj), node, offset) == Some(PageIdentity(obj, offset / PAGE_SIZE, 0))
  {
    MeetsStoreContract(b, node, offset, obj);
    IdentityIsName(AddFile(b, node, obj), node, offset);
  }

  // ---------------------------------------------------------------------
  // Direct writes: one fresh version for every touched page
  // ---------------------------------------------------------------------

  function Touched(node: NodeId, first: nat, end: nat): set<PageKey> {
    set page | first <= page < end :: PageKey(node, page)
  }

  method RecordWrite(b: IdentityBranch, node: NodeId, offset: nat, len: nat, nextVersion: nat)
    returns (r: Result<IdentityBranch, ()>, next: nat)
    ensures r.Err? <==> len != 0 && offset + len > U64_MAX
    ensures r.Err? || len == 0 ==> next == nextVersion
    ensures r.Ok? && len == 0 ==> r.value == b
    ensures r.Ok? && len != 0 ==>
      var first, end := offset / PAGE_SIZE, (offset + len - 1) / PAGE_SIZE + 1;
      && next == nextVersion + (end - first)
      && VisibleFiles(r.value) == VisibleFiles(b)
      && VisiblePages(r.value).Keys == VisiblePages(b).Keys + Touched(node, first, end)
      && (forall page :: first <= page < end ==>
            && PageKey(node, page) in VisiblePages(r.value)
            && VisiblePages(r.value)[PageKey(node, page)] == nextVersion + (page - first))
      && (forall key :: key in VisiblePages(b) && key !in Touched(node, first, end) ==>
            VisiblePages(r.value)[key] == VisiblePages(b)[key])
  {
    next := nextVersion;
    if len == 0 {
      return Ok(b), next;
    }
    if offset + len > U64_MAX {
      return Err(()), next;
    }
    var first := offset / PAGE_SIZE;
    var last := (offset + len - 1) / PAGE_SIZE;
    var pages := b.pages;
    var page := first;
    while page <= last
      invariant first <= page <= last + 1
      invariant next == nextVersion + (page - first)
      invariant pages.Keys == b.pages.Keys + Touched(node, first, page)
      invariant forall p :: first <= p < page ==>
        PageKey(node, p) in pages && pages[PageKey(node, p)] == nextVersion + (p - first)
      invariant forall key :: key in b.pages && key !in Touched(node, first, page) ==> pages[key] == b.pages[key]
    {
      pages := pages[PageKey(node, page) := next];
      next := next + 1;
      page := page + 1;
    }
    r := Ok(b.(pages := pages));
  }

  // ---------------------------------------------------------------------
  // Durable identities
  // ---------------------------------------------------------------------

  datatype BranchState = BranchState(files: seq<(NodeId, nat)>, pages: seq<(PageKey, nat)>)

  /** The list holds exactly the entries of the map, each key once. */
  ghost predicate Lists<K(!new), V>(list: seq<(K, V)>, m: map<K, V>) {
    && (forall i :: 0 <= i < |list| ==> list[i].0 in m && m[list[i].0] == list[i].1)
    && (forall k :: k in m ==> exists i :: 0 <= i < |list| && list[i].0 == k)
    && (forall i, j :: 0 <= i < j < |list| ==> list[i].0 != list[j].0)
  }

  method Entries<K(==, !new), V>(m: map<K, V>) returns (list: seq<(K, V)>)
    ensures Lists(list, m)
  {
    list := [];
    var todo := m.Keys;
    while todo != {}
      invariant todo <= m.Keys
      invariant forall i :: 0 <= i < |list| ==> list[i].0 in m && list[i].0 !in todo && m[list[i].0] == list[i].1
      invariant forall k :: k in m && k !in todo ==> exists i :: 0 <= i < |list| && list[i].0 == k
      invariant forall i, j :: 0 <= i < j < |list| ==> list[i].0 != list[j].0
      decreases todo
    {
      var k :| k in todo;
      ghost var before := list;
      list := list + [(k, m[k])];
      todo := todo - {k};
      assert list[|before|].0 == k;
      forall k' | k' in m && k' !in todo && k' != k
        ensures exists i :: 0 <= i < |list| && list[i].0 == k'
      {
        var i :| 0 <= i < |before| && before[i].0 == k';
        assert list[i].0 == k';
      }
    }
  }

  /** Collecting a list of entries back into a map, remembering the largest value. */
  method Collect<K(==, !new)>(list: seq<(K, nat)>, max0: nat, ghost m: map<K, nat>)
    returns (r: map<K, nat>, max: nat)
    requires Lists(list, m)
    ensures r == m
    ensures max0 <= max && forall k :: k in m ==> m[k] <= max
    ensures max == max0 || exists k :: k in m && m[k] == max
  {
    r, max := map[], max0;
    for i := 0 to |list|
      invariant max == max0 || exists k :: k in m && m[k] == max
      invariant max0 <= max && forall k :: k in r ==> k in m && r[k] == m[k] && r[k] <= max
      invariant forall j :: 0 <= j < i ==> list[j].0 in r
    {
      max := if list[i].1 > max then list[i].1 else max;
      r := r[list[i].0 := list[i].1];
    }
    assert r.Keys == m.Keys;
  }

  method DurableState(b: IdentityBranch) returns (state: BranchState)
    ensures Lists(state.files, VisibleFiles(b)) && Lists(state.pages, VisiblePages(b))
  {
    var files := Entries(VisibleFiles(b));
    var pages := Entries(VisiblePages(b));
    state := BranchState(files, pages);
  }

  /** Some saved branch has a file object, or a page version, of this number. */
  ghost predicate HasObject(saved: seq<Names>, x: nat) {
    exists i, node :: 0 <= i < |saved| && node in saved[i].objects && saved[i].objects[node] == x
  }

  ghost predicate HasVersion(saved: seq<Names>, x: nat) {
    exists i, key :: 0 <= i < |saved| && key in saved[i].versions && saved[i].versions[key] == x
  }

  lemma SavedHas(saved: seq<Names>, i: nat, file: nat, maxFile: nat, version: nat, maxVersion: nat)
    requires i < |saved|
    requires maxFile == file || exists node :: node in saved[i].objects && saved[i].objects[node] == maxFile
    requires maxVersion == version || exists key :: key in saved[i].versions && saved[i].versions[key] == maxVersion
    ensures maxFile == file || HasObject(saved, maxFile)
    ensures maxVersion == version || HasVersion(saved, maxVersion)
  {
  }

  /**
   Restoring a lineage from the states its branches saved gives back every
   branch's names, and moves the counters beyond every restored one.
   */
  method RestoreLineage(states: seq<BranchState>, nextObject: nat, nextVersion: nat, ghost saved: seq<Names>)
    returns (branches: seq<IdentityBranch>, nextObject': nat, nextVersion': nat)
    requires |saved| == |states|
    requires forall i :: 0 <= i < |states| ==>
      Lists(states[i].files, saved[i].objects) && Lists(states[i].pages, saved[i].versions)
    ensures |branches| == |states|
    ensures forall i :: 0 <= i < |states| ==> NamesOf(branches[i]) == saved[i]
    ensures nextObject <= nextObject' && nextVersion <= nextVersion'
    ensures forall i :: 0 <= i < |states| ==> Issued(saved[i], nextObject', nextVersion')
    ensures nextObject' == nextObject || nextObject' == 1 || HasObject(saved, nextObject' - 1)
    ensures nextVersion' == nextVersion || nextVersion' == 1 || HasVersion(saved, nextVersion' - 1)
  {
    hide Issued, HasObject, HasVersion, NamesOf, Lists;
    branches := [];
    var maxFile, maxVersion := 0, 0;
    for i := 0 to |states|
      invariant |branches| == i
      invariant forall j :: 0 <= j < i ==> NamesOf(branches[j]) == saved[j]
      invariant forall j :: 0 <= j < i ==> Issued(saved[j], maxFile + 1, maxVersion + 1)
      invariant (maxFile == 0 || HasObject(saved, maxFile)) && (maxVersion == 0 || HasVersion(saved, maxVersion))
    {
      var b, file, version := RestoreOne(states[i], maxFile, maxVersion, saved[i]);
      SavedHas(saved, i, maxFile, file, maxVersion, version);
      forall j | 0 <= j < i ensures Issued(saved[j], file + 1, version + 1) {
        IssuedLater(saved[j], maxFile + 1, maxVersion + 1, file + 1, version + 1);
      }
      branches, maxFile, maxVersion := branches + [b], file, version;
    }
    nextObject' := if nextObject < maxFile + 1 then maxFile + 1 else nextObject;
    nextVersion' := if nextVersion < maxVersion + 1 then maxVersion + 1 else nextVersion;
    forall i | 0 <= i < |states| ensures Issued(saved[i], nextObject', nextVersion') {
      IssuedLater(saved[i], maxFile + 1, maxVersion + 1, nextObject', nextVersion');
    }
  }

  lemma IssuedLater(n: Names, file: nat, version: nat, file': nat, version': nat)
    requires Issued(n, file, version) && file <= file' && version <= version'
    ensures Issued(n, file', version')
  {
  }

  /** One branch, with the largest numbers seen so far. */
  method RestoreOne(state: BranchState, maxFile: nat, maxVersion: nat, ghost saved: Names)
    returns (b: IdentityBranch, file: nat, version: nat)
    requires Lists(state.files, saved.objects) && Lists(state.pages, saved.versions)
    ensures NamesOf(b) == saved && maxFile <= file && maxVersion <= version && Issued(saved, file + 1, version + 1)
    ensures file == maxFile || exists node :: node in saved.objects && saved.objects[node] == file
    ensures version == maxVersion || exists key :: key in saved.versions && saved.versions[key] == version
  {
    var files, pages;
    files, file := Collect(state.files, maxFile, saved.objects);
    pages, version := Collect(state.pages, maxVersion, saved.versions);
    b := IdentityBranch(EMPTY_GENERATION, files, pages);
    assert NamesOf(b) == saved;
  }

  /** Hence a checkpoint preserves which pages any two branches share. */
  lemma SharingSurvivesRestore(b: IdentityBranch, c: IdentityBranch, b': IdentityBranch, c': IdentityBranch,
                               node: NodeId, offset: nat)
    requires NamesOf(b') == NamesOf(b) && NamesOf(c') == NamesOf(c)
    ensures PageIdentityOf(b', node, offset) == PageIdentityOf(b, node, offset)
    ensures PageIdentityOf(b', node, offset) == PageIdentityOf(c', node, offset)
       <==> PageIdentityOf(b, node, offset) == PageIdentityOf(c, node, offset)
  {
    IdentityIsName(b, node, offset);
    IdentityIsName(c, node, offset);
    IdentityIsName(b', node, offset);
    IdentityIsName(c', node, offset);
  }
}
