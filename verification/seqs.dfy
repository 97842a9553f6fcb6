/** Collection helpers: a document-store collection is a sequence of records
    in insertion order, and an equality query finds the first match. */
module Seqs {
  import opened Http

  /** Whether some record of `s` has key `k`. */
  predicate HasKey<T, K(==)>(s: seq<T>, key: T -> K, k: K) {
    exists j :: 0 <= j < |s| && key(s[j]) == k
  }

  /** Appending one record adds exactly its key to the keys present. */
  lemma HasKeyAppend<T, K>(s: seq<T>, key: T -> K, x: T, k: K)
    ensures HasKey(s + [x], key, k) <==> HasKey(s, key, k) || key(x) == k
  {
    if HasKey(s + [x], key, k) {
      var j :| 0 <= j < |s| + 1 && key((s + [x])[j]) == k;
      if j < |s| {
        assert key(s[j]) == k;
      }
    }
    if HasKey(s, key, k) {
      var j :| 0 <= j < |s| && key(s[j]) == k;
      assert key((s + [x])[j]) == k;
    }
    if key(x) == k {
      assert key((s + [x])[|s|]) == k;
    }
  }

  /** Position of the first record whose key is `k` (a `find_one` with an
      equality filter), or `None` when no record has that key. */
  function IndexOf<T, K(==)>(s: seq<T>, key: T -> K, k: K): (r: Option<nat>)
    ensures r.Some? ==> r.value < |s| && key(s[r.value]) == k
    ensures r.Some? ==> forall j :: 0 <= j < r.value ==> key(s[j]) != k
    ensures r.None? <==> forall j :: 0 <= j < |s| ==> key(s[j]) != k
    ensures r.Some? <==> HasKey(s, key, k)
    decreases |s|
  {
    if |s| == 0 then None
    else if key(s[0]) == k then Some(0)
    else match IndexOf(s[1..], key, k)
      case None => None
      case Some(i) => Some(i + 1)
  }

  /** At most one record per key: the one-record-per-key invariant of a collection. */
  predicate UniqueBy<T, K(==)>(s: seq<T>, key: T -> K) {
    forall i, j :: 0 <= i < j < |s| ==> key(s[i]) != key(s[j])
  }

  /** Dropping the first record keeps the keys unique. */
  lemma UniqueByTail<T, K>(s: seq<T>, key: T -> K)
    requires |s| > 0 && UniqueBy(s, key)
    ensures UniqueBy(s[1..], key)
  {
    forall a, b | 0 <= a < b < |s| - 1
      ensures key(s[1..][a]) != key(s[1..][b])
    {
      assert s[1..][a] == s[a + 1] && s[1..][b] == s[b + 1];
    }
  }

  /** On a collection with unique keys, the lookup of a record's own key
      finds that record. */
  lemma IndexOfUnique<T, K>(s: seq<T>, key: T -> K, i: nat)
    requires i < |s| && UniqueBy(s, key)
    ensures IndexOf(s, key, key(s[i])) == Some(i)
  {
  }

  /** Lookups only see keys: two collections with the same key at every
      position answer every lookup alike. */
  lemma IndexOfSameKeys<T, K>(s: seq<T>, t: seq<T>, key: T -> K, k: K)
    requires |s| == |t|
    requires forall j :: 0 <= j < |s| ==> key(s[j]) == key(t[j])
    ensures IndexOf(s, key, k) == IndexOf(t, key, k)
  {
  }

  /** Number of records whose key is `k`. */
  function CountBy<T, K(==)>(s: seq<T>, key: T -> K, k: K): (n: nat)
    ensures n <= |s|
    ensures n == 0 <==> forall j :: 0 <= j < |s| ==> key(s[j]) != k
    decreases |s|
  {
    if |s| == 0 then 0
    else CountBy(s[..|s| - 1], key, k) + (if key(s[|s| - 1]) == k then 1 else 0)
  }

  lemma CountByAppend<T, K>(s: seq<T>, x: T, key: T -> K, k: K)
    ensures CountBy(s + [x], key, k) == CountBy(s, key, k) + (if key(x) == k then 1 else 0)
  {
    assert (s + [x])[..|s|] == s;
  }

  predicate NoDup<T(==)>(xs: seq<T>) {
    forall i, j :: 0 <= i < j < |xs| ==> xs[i] != xs[j]
  }

  /** A document store's `$addToSet` on an array field: append `x` unless
      it is already an element. */
  function AddToSet(xs: seq<int>, x: int): (r: seq<int>)
    ensures forall y :: y in r <==> y in xs || y == x
    ensures xs <= r && |r| <= |xs| + 1
    ensures NoDup(xs) ==> NoDup(r)
    ensures x in xs ==> r == xs
  {
    if x in xs then xs else xs + [x]
  }
}
