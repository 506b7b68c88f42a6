/** `Array.prototype.sort` with a numeric comparator `(a, b) => key(a) - key(b)`,
    modelled as an insertion sort on sequences. */
module Sorting {
  import opened Seqs

  ghost predicate SortedBy<T>(s: seq<T>, key: T -> int) {
    forall i, j :: 0 <= i < j < |s| ==> key(s[i]) <= key(s[j])
  }

  /** Inserts `x` before the first element whose key is not smaller. */
  function InsertBy<T>(x: T, s: seq<T>, key: T -> int): (r: seq<T>)
    requires SortedBy(s, key)
    ensures SortedBy(r, key)
    ensures multiset(r) == multiset(s) + multiset{x}
    ensures |r| == |s| + 1 && (r[0] == x || (s != [] && r[0] == s[0]))
  {
    if s == [] || key(x) <= key(s[0]) then [x] + s
    else
      var rest := InsertBy(x, s[1..], key);
      assert key(s[0]) <= key(rest[0]);
      assert s == [s[0]] + s[1..];
      [s[0]] + rest
  }

  /** The elements of `s` ordered by ascending key. */
  function SortBy<T>(s: seq<T>, key: T -> int): (r: seq<T>)
    ensures SortedBy(r, key)
    ensures multiset(r) == multiset(s)
    ensures |r| == |s|
  {
    if s == [] then []
    else
      assert s == [s[0]] + s[1..];
      InsertBy(s[0], SortBy(s[1..], key), key)
  }

  /** A sequence that is already in order is left as it is. */
  lemma {:induction false} SortSorted<T>(s: seq<T>, key: T -> int)
    requires SortedBy(s, key)
    ensures SortBy(s, key) == s
  {
    if s != [] {
      SortSorted(s[1..], key);
    }
  }

  /** Inserting `x` puts it before every element of equal key: among the
      elements of one key, `x` comes first and the others keep their order. */
  lemma {:induction false} InsertByKeepsKeyOrder<T>(x: T, s: seq<T>, key: T -> int, keep: T -> bool, k: int)
    requires SortedBy(s, key)
    requires forall y :: keep(y) == (key(y) == k)
    ensures Filter(keep, InsertBy(x, s, key)) == (if keep(x) then [x] else []) + Filter(keep, s)
  {
    if s == [] || key(x) <= key(s[0]) {
      assert InsertBy(x, s, key) == [x] + s;
      assert ([x] + s)[1..] == s;
    } else {
      InsertByKeepsKeyOrder(x, s[1..], key, keep, k);
      var rest := InsertBy(x, s[1..], key);
      assert InsertBy(x, s, key) == [s[0]] + rest;
      assert ([s[0]] + rest)[1..] == rest;
      assert keep(x) ==> !keep(s[0]);
    }
  }

  /** `SortBy` is stable: the elements of any one key come out in the order
      they went in. */
  lemma {:induction false} SortByStable<T>(s: seq<T>, key: T -> int, keep: T -> bool, k: int)
    requires forall y :: keep(y) == (key(y) == k)
    ensures Filter(keep, SortBy(s, key)) == Filter(keep, s)
  {
    if s != [] {
      SortByStable(s[1..], key, keep, k);
      InsertByKeepsKeyOrder(s[0], SortBy(s[1..], key), key, keep, k);
    }
  }
}
