/** Types shared by every module: options, 64-bit words and transaction hashes. */
module Prelude {

  datatype Option<+T> = None | Some(value: T)

  datatype Outcome<+T, +E> = Ok(value: T) | Err(error: E)

  const TWO_64: int := 0x1_0000_0000_0000_0000

  /** Go's uint64. Sums that can overflow are written with `Wrap64`. */
  type uint64 = n: int | 0 <= n < 0x1_0000_0000_0000_0000

  function Wrap64(n: int): (w: uint64)
    ensures 0 <= n < TWO_64 ==> w == n
    ensures (w - n) % TWO_64 == 0
  {
    var w := n % TWO_64;
    assert n == TWO_64 * (n / TWO_64) + w;
    assert w - n == TWO_64 * (-(n / TWO_64));
    w
  }

  /** A 32-byte transaction hash; only its identity matters. */
  type Hash = nat

  ghost predicate NoDuplicates<T>(s: seq<T>) {
    forall i, j :: 0 <= i < j < |s| ==> s[i] != s[j]
  }

  function Elements<T>(s: seq<T>): set<T> {
    set x | x in s
  }

  lemma DisjointConcat<T>(s: seq<T>, t: seq<T>)
    requires NoDuplicates(s) && NoDuplicates(t)
    requires forall x :: x in s ==> x !in t
    ensures NoDuplicates(s + t)
  {
    forall i, j | 0 <= i < j < |s + t| ensures (s + t)[i] != (s + t)[j] {
      if i < |s| <= j {
        assert s[i] in s && t[j - |s|] in t;
      }
    }
  }

  lemma FirstTime<T>(s: seq<T>, k: nat)
    requires NoDuplicates(s) && k < |s|
    ensures s[k] !in s[..k]
  {
  }

  lemma InsertedOnce<T>(a: seq<T>, x: T, b: seq<T>)
    ensures multiset(a + [x] + b) == multiset(a + b) + multiset{x}
  {
  }

  /** Ranging over a Go map: every key once, in no particular order. */
  method Range<K, V>(m: map<K, V>) returns (keys: seq<K>)
    ensures NoDuplicates(keys)
    ensures forall k :: k in keys <==> k in m
  {
    keys := [];
    var left := m.Keys;
    while left != {}
      invariant left <= m.Keys
      invariant NoDuplicates(keys)
      invariant forall k :: k in keys <==> k in m.Keys - left
      decreases |left|
    {
      var k :| k in left;
      left := left - {k};
      assert forall i :: 0 <= i < |keys| ==> keys[i] in keys;
      keys := keys + [k];
    }
  }

  /** A duplicate-free listing has as many entries as the set it lists. */
  lemma {:induction false} ListingLength<T>(s: seq<T>, elems: set<T>)
    requires NoDuplicates(s)
    requires forall x :: x in elems <==> x in s
    ensures |s| == |elems|
  {
    if s == [] {
      assert elems == {};
    } else {
      var last := s[|s| - 1];
      var init := s[..|s| - 1];
      assert s == init + [last];
      ListingLength(init, elems - {last});
    }
  }

  lemma SubsetSize<T>(s: set<T>, t: set<T>)
    requires s <= t
    ensures |s| <= |t|
  {
    assert t == s + (t - s);
  }
}
