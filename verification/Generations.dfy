/**
 Chains of immutable generations.

 Four structures of the engine share this shape: a branch holds private
 changes over a chain of sealed generations, and a fork seals the private
 changes into a new generation that both sides then share.
 */
module Generations {
  import opened Basics

  datatype Generation<K, V> = Generation(parent: Option<Generation<K, V>>, changes: map<K, V>)

  datatype Branch<K, V> = Branch(base: Generation<K, V>, changes: map<K, V>)

  /** Recursive lookup: the newest generation that mentions the key decides. */
  function LookupIn<K, V>(g: Generation<K, V>, key: K): Option<V> {
    if key in g.changes then Some(g.changes[key])
    else match g.parent
      case None => None
      case Some(p) => LookupIn(p, key)
  }

  function Lookup<K, V>(b: Branch<K, V>, key: K): Option<V> {
    if key in b.changes then Some(b.changes[key]) else LookupIn(b.base, key)
  }

  /** Flattening oldest first: each generation overwrites its ancestors. */
  function VisibleIn<K, V>(g: Generation<K, V>): map<K, V> {
    match g.parent
    case None => g.changes
    case Some(p) => VisibleIn(p) + g.changes
  }

  function Visible<K, V>(b: Branch<K, V>): map<K, V> {
    VisibleIn(b.base) + b.changes
  }

  function EmptyBranch<K, V>(): (b: Branch<K, V>)
    ensures Visible(b) == map[]
  {
    Branch(Generation(None, map[]), map[])
  }

  /** What a fork does to its source: private changes become a generation. */
  function Seal<K, V>(b: Branch<K, V>): (r: Branch<K, V>)
    ensures r.changes == map[]
    ensures Visible(r) == Visible(b)
  {
    if b.changes != map[] then Branch(Generation(Some(b.base), b.changes), map[]) else b
  }

  function Put<K, V>(b: Branch<K, V>, key: K, value: V): (r: Branch<K, V>)
    ensures Visible(r) == Visible(b)[key := value]
  {
    b.(changes := b.changes[key := value])
  }

  /** Recursive lookup and oldest-first overwrite define the same map. */
  lemma {:induction false} LookupInIsVisible<K, V>(g: Generation<K, V>, key: K)
    ensures LookupIn(g, key) == (if key in VisibleIn(g) then Some(VisibleIn(g)[key]) else None)
  {
    if key !in g.changes && g.parent.Some? {
      LookupInIsVisible(g.parent.value, key);
    }
  }

  lemma LookupIsVisible<K, V>(b: Branch<K, V>, key: K)
    ensures Lookup(b, key) == (if key in Visible(b) then Some(Visible(b)[key]) else None)
  {
    LookupInIsVisible(b.base, key);
  }

  /** Insert every entry of `changes` whose key `visible` does not hold yet. */
  method InsertMissing<K, V>(visible: map<K, V>, changes: map<K, V>) returns (r: map<K, V>)
    ensures r == changes + visible
  {
    r := visible;
    var todo := changes.Keys;
    while todo != {}
      invariant todo <= changes.Keys
      invariant r == (changes - todo) + visible
      decreases todo
    {
      var key :| key in todo;
      if key !in r {
        r := r[key := changes[key]];
      }
      todo := todo - {key};
    }
  }

  /** Flattening newest first, inserting only keys not seen yet. */
  method FlattenNewestFirst<K, V>(b: Branch<K, V>) returns (visible: map<K, V>)
    ensures visible == Visible(b)
  {
    visible := b.changes;
    var generation := Some(b.base);
    while generation.Some?
      invariant Visible(b) == (if generation.Some? then VisibleIn(generation.value) + visible else visible)
      decreases generation
    {
      var current := generation.value;
      visible := InsertMissing(visible, current.changes);
      generation := current.parent;
    }
  }

  /** Every value some generation of the branch still holds, visible or shadowed. */
  function RetainedIn<K, V>(g: Generation<K, V>): set<V> {
    Values(g.changes) + match g.parent
                        case None => {}
                        case Some(p) => RetainedIn(p)
  }

  function Retained<K, V>(b: Branch<K, V>): set<V> {
    Values(b.changes) + RetainedIn(b.base)
  }

  lemma {:induction false} VisibleIsRetained<K, V>(g: Generation<K, V>)
    ensures Values(VisibleIn(g)) <= RetainedIn(g)
  {
    if g.parent.Some? {
      VisibleIsRetained(g.parent.value);
    }
  }
}
