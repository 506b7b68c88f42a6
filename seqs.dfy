/** Generic sequence helpers: filtering (Array.prototype.filter / conditional push)
    and concatenation of pages. */
module Seqs {

  /** The elements of `s` that satisfy `keep`, in their original order. */
  function Filter<T>(keep: T -> bool, s: seq<T>): (r: seq<T>)
    ensures |r| <= |s|
    ensures forall i :: 0 <= i < |r| ==> keep(r[i])
  {
    if s == [] then []
    else (if keep(s[0]) then [s[0]] else []) + Filter(keep, s[1..])
  }

  /** An element is kept exactly when it occurs and satisfies `keep`. */
  lemma {:induction false} FilterMember<T>(keep: T -> bool, s: seq<T>, x: T)
    ensures x in Filter(keep, s) <==> x in s && keep(x)
  {
    if s != [] {
      FilterMember(keep, s[1..], x);
      assert s == [s[0]] + s[1..];
    }
  }

  /** Filtering distributes over concatenation: filtering page by page is
      the same as filtering the concatenated pages. */
  lemma {:induction false} FilterConcat<T>(keep: T -> bool, a: seq<T>, b: seq<T>)
    ensures Filter(keep, a + b) == Filter(keep, a) + Filter(keep, b)
  {
    if a == [] {
      assert a + b == b;
    } else {
      assert (a + b)[0] == a[0];
      assert (a + b)[1..] == a[1..] + b;
      FilterConcat(keep, a[1..], b);
    }
  }

  /** Filtering never merges equal elements: an element the filter keeps
      occurs in the result exactly as often as in the input. */
  lemma {:induction false} FilterMultiplicity<T>(keep: T -> bool, s: seq<T>, x: T)
    ensures multiset(Filter(keep, s))[x] == if keep(x) then multiset(s)[x] else 0
  {
    if s != [] {
      FilterMultiplicity(keep, s[1..], x);
      assert s == [s[0]] + s[1..];
    }
  }

  /** Splitting by a predicate and by its negation loses and adds nothing. */
  lemma {:induction false} FilterPartition<T>(keep: T -> bool, drop: T -> bool, s: seq<T>)
    requires forall x :: drop(x) == !keep(x)
    ensures multiset(Filter(keep, s)) + multiset(Filter(drop, s)) == multiset(s)
  {
    if s != [] {
      FilterPartition(keep, drop, s[1..]);
      if keep(s[0]) {
        HeadGoesOneWay(keep, drop, s);
      } else {
        HeadGoesOneWay(drop, keep, s);
      }
    }
  }

  /** The head of `s` goes to the `keep` side only; the rest is split as before. */
  lemma HeadGoesOneWay<T>(keep: T -> bool, drop: T -> bool, s: seq<T>)
    requires s != [] && keep(s[0]) && !drop(s[0])
    requires multiset(Filter(keep, s[1..])) + multiset(Filter(drop, s[1..])) == multiset(s[1..])
    ensures multiset(Filter(keep, s)) + multiset(Filter(drop, s)) == multiset(s)
  {
    var rest := s[1..];
    var k, d := multiset(Filter(keep, rest)), multiset(Filter(drop, rest));
    assert multiset(Filter(keep, s)) == multiset{s[0]} + k by {
      assert Filter(keep, s) == [s[0]] + Filter(keep, rest);
    }
    assert multiset(Filter(drop, s)) == d;
    assert multiset(s) == multiset{s[0]} + multiset(rest) by {
      assert s == [s[0]] + rest;
    }
    assert multiset{s[0]} + k + d == multiset{s[0]} + (k + d);
  }

  /** The prefix one element longer is the prefix with that element appended.
      Dafny proves it unaided; callers use it to keep loop proofs cheap. */
  lemma PrefixGrows<T>(s: seq<T>, i: nat)
    requires i < |s|
    ensures s[..i + 1] == s[..i] + [s[i]]
  {
  }

  /** Every element of `s` satisfies `keep`, so filtering keeps all of it. */
  lemma {:induction false} FilterAll<T>(keep: T -> bool, s: seq<T>)
    requires forall i :: 0 <= i < |s| ==> keep(s[i])
    ensures Filter(keep, s) == s
  {
    if s != [] {
      FilterAll(keep, s[1..]);
    }
  }

  /** No element of `s` satisfies `keep`, so filtering drops all of it. */
  lemma {:induction false} FilterNone<T>(keep: T -> bool, s: seq<T>)
    requires forall i :: 0 <= i < |s| ==> !keep(s[i])
    ensures Filter(keep, s) == []
  {
    if s != [] {
      FilterNone(keep, s[1..]);
    }
  }

  /** The concatenation of a sequence of pages. */
  function Flatten<T>(pages: seq<seq<T>>): (r: seq<T>)
  {
    if pages == [] then [] else pages[0] + Flatten(pages[1..])
  }

  /** Flattening distributes over concatenation of page lists. */
  lemma {:induction false} FlattenConcat<T>(a: seq<seq<T>>, b: seq<seq<T>>)
    ensures Flatten(a + b) == Flatten(a) + Flatten(b)
  {
    if a == [] {
      assert a + b == b;
    } else {
      assert (a + b)[0] == a[0];
      assert (a + b)[1..] == a[1..] + b;
      FlattenConcat(a[1..], b);
    }
  }
}
