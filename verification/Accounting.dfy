/**
 Reference counting over branches, as every accounting function of the engine
 does it: each branch contributes the set of identities it sees, an identity
 is resident when some branch sees it and shared when two do.
 */
module Accounting {
  import opened Basics

  datatype Account = Account(resident: nat, shared: nat)

  ghost function Resident(seen: seq<set<nat>>): set<nat> {
    set i, x | 0 <= i < |seen| && x in seen[i] :: x
  }

  ghost predicate SeenTwice(seen: seq<set<nat>>, x: nat) {
    exists i, j :: 0 <= i < j < |seen| && x in seen[i] && x in seen[j]
  }

  ghost function Shared(seen: seq<set<nat>>): set<nat> {
    set x | x in Resident(seen) && SeenTwice(seen, x)
  }

  /** Add one reference to every identity of a branch. */
  method AddReferences(references: map<nat, nat>, ids: set<nat>) returns (r: map<nat, nat>)
    ensures r.Keys == references.Keys + ids
    ensures forall x :: x in r ==> r[x] == (if x in references then references[x] else 0) + (if x in ids then 1 else 0)
  {
    r := references;
    var todo := ids;
    while todo != {}
      invariant todo <= ids
      invariant r.Keys == references.Keys + (ids - todo)
      invariant forall x :: x in r ==>
        r[x] == (if x in references then references[x] else 0) + (if x in ids - todo then 1 else 0)
      decreases todo
    {
      var x :| x in todo;
      r := r[x := (if x in r then r[x] else 0) + 1];
      todo := todo - {x};
    }
  }

  lemma ResidentStep(seen: seq<set<nat>>, i: nat)
    requires i < |seen|
    ensures Resident(seen[..i + 1]) == Resident(seen[..i]) + seen[i]
  {
    var a, b := seen[..i + 1], seen[..i];
    forall x | x in Resident(a) ensures x in Resident(b) + seen[i] {
      var j :| 0 <= j < |a| && x in a[j];
      assert j < i ==> x in b[j];
    }
    forall x | x in Resident(b) + seen[i] ensures x in Resident(a) {
      if x in seen[i] {
        assert x in a[i];
      } else {
        var j :| 0 <= j < |b| && x in b[j];
        assert x in a[j];
      }
    }
  }

  lemma SharedStep(seen: seq<set<nat>>, i: nat, x: nat)
    requires i < |seen|
    ensures SeenTwice(seen[..i + 1], x) <==> SeenTwice(seen[..i], x) || (x in Resident(seen[..i]) && x in seen[i])
  {
    var a, b := seen[..i + 1], seen[..i];
    if SeenTwice(a, x) {
      var j, k :| 0 <= j < k < |a| && x in a[j] && x in a[k];
      assert x in b[j];
      assert k < i ==> x in b[k];
    }
    if SeenTwice(b, x) {
      var j, k :| 0 <= j < k < |b| && x in b[j] && x in b[k];
      assert x in a[j] && x in a[k];
    }
    if x in Resident(b) && x in seen[i] {
      var j :| 0 <= j < |b| && x in b[j];
      assert x in a[j] && x in a[i];
    }
  }

  /** The counts are the sizes of the two sets. */
  method CountReferences(seen: seq<set<nat>>) returns (account: Account)
    ensures account == Account(|Resident(seen)|, |Shared(seen)|)
  {
    var references: map<nat, nat> := map[];
    for i := 0 to |seen|
      invariant references.Keys == Resident(seen[..i])
      invariant forall x :: x in references ==> 0 < references[x]
      invariant forall x :: x in references ==> (1 < references[x] <==> SeenTwice(seen[..i], x))
    {
      references := AddReferences(references, seen[i]);
      ResidentStep(seen, i);
      forall x | x in references ensures 1 < references[x] <==> SeenTwice(seen[..i + 1], x) {
        SharedStep(seen, i, x);
      }
    }
    assert seen[..|seen|] == seen;
    var counted := set x | x in references && 1 < references[x];
    assert counted == Shared(seen);
    account := Account(|references|, |counted|);
    assert |references| == |references.Keys|;
  }

  lemma SharedIsResident(seen: seq<set<nat>>)
    ensures Shared(seen) <= Resident(seen) && |Shared(seen)| <= |Resident(seen)|
  {
    SubsetSize(Shared(seen), Resident(seen));
  }

  lemma {:induction false} SubsetSize<T>(a: set<T>, b: set<T>)
    requires a <= b
    ensures |a| <= |b|
    decreases |a|
  {
    if a != {} {
      var x :| x in a;
      SubsetSize(a - {x}, b - {x});
    }
  }

  // ---------------------------------------------------------------------
  // Counting things by their names
  // ---------------------------------------------------------------------

  /** What some part holds, and what two parts hold. */
  ghost function AllOf<T(!new)>(parts: seq<set<T>>): set<T> {
    set i, x | 0 <= i < |parts| && x in parts[i] :: x
  }

  ghost predicate InTwo<T(!new)>(parts: seq<set<T>>, x: T) {
    exists i, j :: 0 <= i < j < |parts| && x in parts[i] && x in parts[j]
  }

  ghost function HeldTwice<T(!new)>(parts: seq<set<T>>): set<T> {
    set x | x in AllOf(parts) && InTwo(parts, x)
  }

  /** The names of the things of one part. */
  ghost predicate NamedBy<T(!new)>(part: set<T>, name: map<T, nat>, seen: set<nat>) {
    && (forall x :: x in part ==> x in name && name[x] in seen)
    && (forall id :: id in seen ==> exists x :: x in part && x in name && name[x] == id)
  }

  /** If no two things share a name, counting names counts things. */
  lemma NamesCountThings<T(!new)>(parts: seq<set<T>>, name: map<T, nat>, seen: seq<set<nat>>)
    requires |seen| == |parts| && name.Keys == AllOf(parts)
    requires forall x, y {:trigger name[x], name[y]} :: x in name && y in name && name[x] == name[y] ==> x == y
    requires forall i :: 0 <= i < |parts| ==> NamedBy(parts[i], name, seen[i])
    ensures |Resident(seen)| == |AllOf(parts)| && |Shared(seen)| == |HeldTwice(parts)|
  {
    forall id ensures id in Resident(seen) <==> id in Values(name) { ResidentIsNamed(parts, name, seen, id); }
    assert Resident(seen) == Values(name);
    InjectiveSize(name);
    assert |name| == |name.Keys|;
    var twice := map x | x in HeldTwice(parts) :: name[x];
    InjectiveSize(twice);
    assert twice.Keys == HeldTwice(parts);
    assert |twice| == |twice.Keys|;
    forall id ensures id in Shared(seen) <==> id in Values(twice) { SharedIsNamed(parts, name, seen, id); }
    assert Shared(seen) == Values(twice);
  }

  lemma ResidentIsNamed<T(!new)>(parts: seq<set<T>>, name: map<T, nat>, seen: seq<set<nat>>, id: nat)
    requires |seen| == |parts| && name.Keys == AllOf(parts)
    requires forall i :: 0 <= i < |parts| ==> NamedBy(parts[i], name, seen[i])
    ensures id in Resident(seen) <==> id in Values(name)
  {
    if id in Resident(seen) {
      var i :| 0 <= i < |seen| && id in seen[i];
      assert NamedBy(parts[i], name, seen[i]);
    }
    if id in Values(name) {
      var x :| x in name && name[x] == id;
      var i :| 0 <= i < |parts| && x in parts[i];
      assert NamedBy(parts[i], name, seen[i]);
    }
  }

  lemma SharedIsNamed<T(!new)>(parts: seq<set<T>>, name: map<T, nat>, seen: seq<set<nat>>, id: nat)
    requires |seen| == |parts| && name.Keys == AllOf(parts)
    requires forall x, y {:trigger name[x], name[y]} :: x in name && y in name && name[x] == name[y] ==> x == y
    requires forall i :: 0 <= i < |parts| ==> NamedBy(parts[i], name, seen[i])
    ensures id in Shared(seen) <==> exists x :: x in HeldTwice(parts) && name[x] == id
  {
    if id in Shared(seen) {
      var i, j :| 0 <= i < j < |seen| && id in seen[i] && id in seen[j];
      assert NamedBy(parts[i], name, seen[i]) && NamedBy(parts[j], name, seen[j]);
      var x :| x in parts[i] && x in name && name[x] == id;
      assert x in parts[j];
      assert InTwo(parts, x);
    }
    if x :| x in HeldTwice(parts) && name[x] == id {
      var i, j :| 0 <= i < j < |parts| && x in parts[i] && x in parts[j];
      assert NamedBy(parts[i], name, seen[i]) && NamedBy(parts[j], name, seen[j]);
      assert id in seen[i] && id in seen[j];
    }
  }

  // ---------------------------------------------------------------------
  // Holders with ids
  // ---------------------------------------------------------------------

  /** What some holder has, and what two holders have. */
  ghost function HeldIn<T(!new)>(m: map<nat, set<T>>): set<T> {
    set k, x | k in m && x in m[k] :: x
  }

  ghost predicate TwoHave<T(!new)>(m: map<nat, set<T>>, x: T) {
    exists a, b :: a in m && b in m && a != b && x in m[a] && x in m[b]
  }

  ghost function TwiceIn<T(!new)>(m: map<nat, set<T>>): set<T> {
    set x | x in HeldIn(m) && TwoHave(m, x)
  }

  ghost predicate Lists<T(!new)>(m: map<nat, set<T>>, order: seq<nat>) {
    Distinct(order) && (forall i :: 0 <= i < |order| ==> order[i] in m) && forall k :: k in m ==> k in order
  }

  ghost function Listed<T(!new)>(m: map<nat, set<T>>, order: seq<nat>): seq<set<T>>
    requires forall i :: 0 <= i < |order| ==> order[i] in m
  {
    seq(|order|, i requires 0 <= i < |order| => m[order[i]])
  }

  /** Going through the holders one by one finds what they have. */
  lemma ListedHold<T(!new)>(m: map<nat, set<T>>, order: seq<nat>)
    requires Lists(m, order)
    ensures AllOf(Listed(m, order)) == HeldIn(m) && HeldTwice(Listed(m, order)) == TwiceIn(m)
  {
    var parts := Listed(m, order);
    forall x ensures (x in AllOf(parts) <==> x in HeldIn(m)) && (InTwo(parts, x) <==> TwoHave(m, x)) {
      ListedOne(m, order, x);
      ListedTwo(m, order, x);
    }
    hide InTwo, TwoHave;
    assert AllOf(parts) == HeldIn(m);
  }

  lemma ListedOne<T(!new)>(m: map<nat, set<T>>, order: seq<nat>, x: T)
    requires Lists(m, order)
    ensures x in AllOf(Listed(m, order)) <==> x in HeldIn(m)
  {
    var parts := Listed(m, order);
    if x in AllOf(parts) {
      var i :| 0 <= i < |parts| && x in parts[i];
      assert x in m[order[i]];
    }
    if x in HeldIn(m) {
      var k :| k in m && x in m[k];
      var i :| 0 <= i < |order| && order[i] == k;
      assert x in parts[i];
    }
  }

  lemma ListedTwo<T(!new)>(m: map<nat, set<T>>, order: seq<nat>, x: T)
    requires Lists(m, order)
    ensures InTwo(Listed(m, order), x) <==> TwoHave(m, x)
  {
    var parts := Listed(m, order);
    if InTwo(parts, x) {
      var i, j :| 0 <= i < j < |parts| && x in parts[i] && x in parts[j];
      assert order[i] != order[j] && x in m[order[i]] && x in m[order[j]];
    }
    if TwoHave(m, x) {
      var a, b :| a in m && b in m && a != b && x in m[a] && x in m[b];
      var i :| 0 <= i < |order| && order[i] == a;
      var j :| 0 <= j < |order| && order[j] == b;
      assert x in parts[i] && x in parts[j];
    }
  }

  /** A copy of one holder adds nothing and makes all it has shared. */
  lemma CopyShares<T(!new)>(m: map<nat, set<T>>, source: nat, child: nat)
    requires source in m && child !in m
    ensures var t := m[child := m[source]];
      HeldIn(t) == HeldIn(m) && TwiceIn(t) == TwiceIn(m) + m[source]
  {
    var t := m[child := m[source]];
    forall x ensures (x in HeldIn(t) <==> x in HeldIn(m)) && (TwoHave(t, x) <==> TwoHave(m, x) || x in m[source]) {
      CopySharesOne(m, source, child, x);
    }
    hide TwoHave;
    assert HeldIn(t) == HeldIn(m);
  }

  lemma CopySharesOne<T(!new)>(m: map<nat, set<T>>, source: nat, child: nat, x: T)
    requires source in m && child !in m
    ensures var t := m[child := m[source]];
      (x in HeldIn(t) <==> x in HeldIn(m)) && (TwoHave(t, x) <==> TwoHave(m, x) || x in m[source])
  {
    var t := m[child := m[source]];
    if k :| k in t && x in t[k] {
      assert x in m[if k == child then source else k];
    }
    if k :| k in m && x in m[k] {
      assert x in t[k];
    }
    if TwoHave(t, x) {
      var a, b :| a in t && b in t && a != b && x in t[a] && x in t[b];
      assert a != child && b != child ==> x in m[a] && x in m[b];
    }
    if TwoHave(m, x) {
      var a, b :| a in m && b in m && a != b && x in m[a] && x in m[b];
      assert x in t[a] && x in t[b];
    }
    if x in m[source] {
      assert x in t[source] && x in t[child];
    }
  }
}
