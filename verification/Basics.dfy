/** Values shared by every layer of the copy-on-write engine. */
module Basics {
  datatype Option<+T> = None | Some(value: T) {
    function Or(other: Option<T>): Option<T> {
      if Some? then this else other
    }

    function GetOr(default: T): T {
      match this
      case Some(v) => v
      case None => default
    }
  }

  datatype Result<+T, +E> = Ok(value: T) | Err(error: E)

  newtype Byte = x: int | 0 <= x < 256

  const PAGE_SIZE: nat := 4096
  const U64_MAX: nat := 0xffff_ffff_ffff_ffff

  type NodeId = nat

  function Min(a: nat, b: nat): nat {
    if a < b then a else b
  }

  function Zeros(n: nat): (z: seq<Byte>)
    ensures |z| == n
    ensures forall i :: 0 <= i < n ==> z[i] == 0
  {
    seq(n, i => 0 as Byte)
  }

  /** `target` with `bytes` written over it, starting at `offset`. */
  function Splice(target: seq<Byte>, offset: nat, bytes: seq<Byte>): (r: seq<Byte>)
    requires offset + |bytes| <= |target|
    ensures |r| == |target|
    ensures forall i :: 0 <= i < |r| ==>
      r[i] == if offset <= i < offset + |bytes| then bytes[i - offset] else target[i]
  {
    target[..offset] + bytes + target[offset + |bytes|..]
  }

  predicate Aligned(offset: nat) {
    offset % PAGE_SIZE == 0
  }

  /** Two page-aligned offsets less than a page apart are the same. */
  lemma AlignedApart(a: nat, b: nat)
    requires Aligned(a) && Aligned(b) && a < b
    ensures a + PAGE_SIZE <= b
  {
  }

  predicate Distinct<T(==)>(q: seq<T>) {
    forall i, j :: 0 <= i < j < |q| ==> q[i] != q[j]
  }

  lemma SliceConcat<T>(s: seq<T>, a: nat, b: nat, c: nat)
    requires a <= b <= c <= |s|
    ensures s[a..b] + s[b..c] == s[a..c]
  {
  }

  function Values<K, V>(m: map<K, V>): set<V> {
    set k | k in m :: m[k]
  }

  /** A map that never repeats a value has as many values as keys. */
  lemma {:induction false} InjectiveSize<K, V>(m: map<K, V>)
    requires forall i, j {:trigger m[i], m[j]} :: i in m && j in m && m[i] == m[j] ==> i == j
    ensures |Values(m)| == |m|
    decreases |m|
  {
    if m != map[] {
      var k :| k in m;
      var rest := m - {k};
      InjectiveSize(rest);
      assert forall i :: i in m ==> i in rest || i == k;
      assert m[k] !in Values(rest);
      forall v | v in Values(m) ensures v in Values(rest) + {m[k]} {
        var i :| i in m && m[i] == v;
        assert i == k || rest[i] == v;
      }
      forall v | v in Values(rest) ensures v in Values(m) {
        var i :| i in rest && rest[i] == v;
        assert m[i] == v;
      }
      assert Values(m) == Values(rest) + {m[k]};
      assert m.Keys == rest.Keys + {k};
    }
  }
}
