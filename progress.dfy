/** The run's progress counters: `processed`, `error` and the `labelCount`
    object, the per-job update in the `try`/`catch`/`finally` of
    `labelSampleWithOpenAI`, and the `getSummary` text. */
module Progress {
  import opened Decimal
  import opened Strings
  import opened Seqs
  import opened Sorting

  predicate NoDuplicates<T(==)>(s: seq<T>) {
    forall i, j :: 0 <= i < j < |s| ==> s[i] != s[j]
  }

  // ---------------------------------------------------------------------------
  // The `labelCount` object

  /** A plain object `{ [k: string]: number }`: its own keys in the order they
      were created, and the count under each. */
  datatype LabelCount = LabelCount(order: seq<string>, counts: map<string, nat>)

  const Empty := LabelCount([], map[])

  /** Every key is created once, with a count of at least one. */
  ghost predicate WellFormed(lc: LabelCount) {
    (forall k :: k in lc.counts <==> k in lc.order)
    && NoDuplicates(lc.order)
    && (forall k :: k in lc.counts ==> lc.counts[k] >= 1)
  }

  /** `labelCount[k]`, with a missing key read as zero. */
  function CountOf(lc: LabelCount, k: string): nat {
    if k in lc.counts then lc.counts[k] else 0
  }

  /** The sum of the counts of `keys`. */
  function SumOver(keys: seq<string>, counts: map<string, nat>): nat
    requires forall k :: k in keys ==> k in counts
  {
    if keys == [] then 0 else counts[keys[0]] + SumOver(keys[1..], counts)
  }

  /** The sum of all counts of the object. */
  function Tallied(lc: LabelCount): nat
    requires WellFormed(lc)
  {
    SumOver(lc.order, lc.counts)
  }

  lemma {:induction false} SumOverAppend(keys: seq<string>, counts: map<string, nat>, k: string)
    requires forall x :: x in keys ==> x in counts
    requires k in counts
    ensures SumOver(keys + [k], counts) == SumOver(keys, counts) + counts[k]
  {
    if keys != [] {
      assert (keys + [k])[1..] == keys[1..] + [k];
      SumOverAppend(keys[1..], counts, k);
    }
  }

  /** Changing the count of a key that is not summed changes nothing. */
  lemma {:induction false} SumOverOther(keys: seq<string>, counts: map<string, nat>, k: string, v: nat)
    requires forall x :: x in keys ==> x in counts
    requires k !in keys
    ensures SumOver(keys, counts[k := v]) == SumOver(keys, counts)
  {
    if keys != [] {
      SumOverOther(keys[1..], counts, k, v);
    }
  }

  /** Adding one to the count of a key that is summed once adds one to the sum. */
  lemma {:induction false} SumOverBump(keys: seq<string>, counts: map<string, nat>, k: string)
    requires forall x :: x in keys ==> x in counts
    requires NoDuplicates(keys) && k in keys
    ensures SumOver(keys, counts[k := counts[k] + 1]) == SumOver(keys, counts) + 1
  {
    if keys[0] == k {
      assert k !in keys[1..];
      SumOverOther(keys[1..], counts, k, counts[k] + 1);
    } else {
      SumOverBump(keys[1..], counts, k);
    }
  }

  /** `if (!labelCount[name]) { labelCount[name] = 0; } labelCount[name]++;`
      on an object whose keys are all own keys with a positive count. */
  function Bump(lc: LabelCount, name: string): (r: LabelCount)
    requires WellFormed(lc)
    ensures WellFormed(r)
    ensures CountOf(r, name) == CountOf(lc, name) + 1
    ensures forall k :: k != name ==> CountOf(r, k) == CountOf(lc, k)
    ensures r.order == if name in lc.counts then lc.order else lc.order + [name]
    ensures Tallied(r) == Tallied(lc) + 1
  {
    if name in lc.counts then
      var r := LabelCount(lc.order, lc.counts[name := lc.counts[name] + 1]);
      SumOverBump(lc.order, lc.counts, name);
      r
    else
      var r := LabelCount(lc.order + [name], lc.counts[name := 1]);
      SumOverOther(lc.order, lc.counts, name, 1);
      SumOverAppend(lc.order, lc.counts[name := 1], name);
      r
  }

  // ---------------------------------------------------------------------------
  // Object.keys

  predicate IsOtherKey(k: string) { !IsArrayIndex(k) }

  /** `Object.keys(o)`: the keys that are array indices in ascending numeric
      order, then the other keys in the order they were created. */
  function ObjectKeys(order: seq<string>): (keys: seq<string>)
    ensures multiset(keys) == multiset(order)
    ensures forall i, j :: 0 <= i < j < |keys| && IsArrayIndex(keys[j]) ==> IsArrayIndex(keys[i])
    ensures forall i, j :: 0 <= i < j < |keys| && IsArrayIndex(keys[j]) ==> IndexValue(keys[i]) <= IndexValue(keys[j])
    ensures Filter(IsOtherKey, keys) == Filter(IsOtherKey, order)
  {
    var sorted := SortBy(Filter(IsArrayIndex, order), IndexValue);
    var others := Filter(IsOtherKey, order);
    FilterPartition(IsArrayIndex, IsOtherKey, order);
    SortedIndices(order);
    KeysInTwoRuns(sorted, others);
    FilterConcat(IsOtherKey, sorted, others);
    FilterNone(IsOtherKey, sorted);
    FilterAll(IsOtherKey, others);
    sorted + others
  }

  /** Sorting the index keys keeps them index keys. */
  lemma SortedIndices(order: seq<string>)
    ensures forall i :: 0 <= i < |SortBy(Filter(IsArrayIndex, order), IndexValue)| ==>
              IsArrayIndex(SortBy(Filter(IsArrayIndex, order), IndexValue)[i])
  {
    var indices := Filter(IsArrayIndex, order);
    var sorted := SortBy(indices, IndexValue);
    forall i | 0 <= i < |sorted| ensures IsArrayIndex(sorted[i]) {
      assert multiset(sorted)[sorted[i]] > 0;
      assert sorted[i] in indices;
    }
  }

  /** Sorted index keys followed by other keys: index keys come first, in
      ascending order. */
  lemma KeysInTwoRuns(sorted: seq<string>, others: seq<string>)
    requires SortedBy(sorted, IndexValue)
    requires forall i :: 0 <= i < |sorted| ==> IsArrayIndex(sorted[i])
    requires forall i :: 0 <= i < |others| ==> IsOtherKey(others[i])
    ensures var keys := sorted + others;
      forall i, j :: 0 <= i < j < |keys| && IsArrayIndex(keys[j]) ==>
        IsArrayIndex(keys[i]) && IndexValue(keys[i]) <= IndexValue(keys[j])
  {
    var keys := sorted + others;
    forall i, j | 0 <= i < j < |keys| && IsArrayIndex(keys[j])
      ensures IsArrayIndex(keys[i]) && IndexValue(keys[i]) <= IndexValue(keys[j])
    {
      assert keys[i] == sorted[i] && keys[j] == sorted[j];
    }
  }

  /** `Object.keys` lists each own key and nothing else. */
  lemma ObjectKeysMembers(order: seq<string>)
    ensures forall k :: k in ObjectKeys(order) <==> k in order
  {
    var keys := ObjectKeys(order);
    forall k ensures k in keys <==> k in order {
      assert k in keys <==> multiset(keys)[k] > 0;
      assert k in order <==> multiset(order)[k] > 0;
    }
  }

  /** Without numeric keys, `Object.keys` is creation order. */
  lemma ObjectKeysInCreationOrder(order: seq<string>)
    requires forall i :: 0 <= i < |order| ==> !IsArrayIndex(order[i])
    ensures ObjectKeys(order) == order
  {
    FilterNone(IsArrayIndex, order);
    FilterAll(IsOtherKey, order);
  }

  // ---------------------------------------------------------------------------
  // getSummary

  /** `k + '=' + labelCount[k]` for each key. */
  function Entries(keys: seq<string>, lc: LabelCount): (r: seq<string>)
    ensures |r| == |keys|
    ensures forall i :: 0 <= i < |keys| ==> r[i] == keys[i] + "=" + NatToString(CountOf(lc, keys[i]))
  {
    if keys == [] then [] else [keys[0] + "=" + NatToString(CountOf(lc, keys[0]))] + Entries(keys[1..], lc)
  }

  function ErrorPart(error: nat): string {
    "error=" + NatToString(error) + ")"
  }

  /** The text `getSummary()` returns. */
  function SummaryText(lc: LabelCount, error: nat): (s: string)
    requires WellFormed(lc)
    ensures |s| > |ErrorPart(error)| && s[0] == '('
    ensures EndsWith(s, ErrorPart(error))
  {
    var labelStr := JoinWith(Entries(ObjectKeys(lc.order), lc), ", ");
    var s := if |labelStr| > 0 then "(" + labelStr + ", " + ErrorPart(error)
             else "(" + ErrorPart(error);
    assert s[|s| - |ErrorPart(error)|..] == ErrorPart(error);
    s
  }

  /** The summary is the bare error count exactly when no sample got a label. */
  lemma SummaryBareIffNoLabels(lc: LabelCount, error: nat)
    requires WellFormed(lc)
    ensures SummaryText(lc, error) == "(" + ErrorPart(error) <==> lc.order == []
  {
    var keys := ObjectKeys(lc.order);
    var entries := Entries(keys, lc);
    var labelStr := JoinWith(entries, ", ");
    if lc.order == [] {
      assert |keys| == 0 by {
        assert |multiset(keys)| == |multiset(lc.order)|;
      }
      assert labelStr == "";
    } else {
      assert |keys| > 0 by {
        assert |multiset(keys)| == |multiset(lc.order)|;
      }
      assert |entries[0]| > 0;
      assert |labelStr| > 0;
      assert |SummaryText(lc, error)| == |labelStr| + 3 + |ErrorPart(error)|;
    }
  }

  /** Every label that was counted is listed with its count. */
  lemma SummaryListsEveryLabel(lc: LabelCount, k: string)
    requires WellFormed(lc) && k in lc.order
    ensures k + "=" + NatToString(lc.counts[k]) in Entries(ObjectKeys(lc.order), lc)
  {
    var keys := ObjectKeys(lc.order);
    ObjectKeysMembers(lc.order);
    var i :| 0 <= i < |keys| && keys[i] == k;
    assert Entries(keys, lc)[i] == k + "=" + NatToString(lc.counts[k]);
  }

  /** Every counted label appears in the summary text itself as
      `label=count`. */
  lemma SummaryShowsEveryLabel(lc: LabelCount, error: nat, k: string) returns (i: nat)
    requires WellFormed(lc) && k in lc.order
    ensures OccursAt(k + "=" + NatToString(lc.counts[k]), SummaryText(lc, error), i)
  {
    var entries := Entries(ObjectKeys(lc.order), lc);
    var entry := k + "=" + NatToString(lc.counts[k]);
    SummaryListsEveryLabel(lc, k);
    var j :| 0 <= j < |entries| && entries[j] == entry;
    var i' := JoinWithContains(entries, ", ", j);
    SummaryWithLabels(lc, error);
    OccursInside(entry, JoinWith(entries, ", "), ", " + ErrorPart(error), i');
    i := 1 + i';
  }

  /** With at least one label the summary is `(`, the entries, then the
      error part. */
  lemma SummaryWithLabels(lc: LabelCount, error: nat)
    requires WellFormed(lc) && lc.order != []
    ensures SummaryText(lc, error) == "(" + JoinWith(Entries(ObjectKeys(lc.order), lc), ", ") + (", " + ErrorPart(error))
  {
    LabelPartNonEmpty(lc);
  }

  /** With at least one label the label part of the summary is not empty. */
  lemma LabelPartNonEmpty(lc: LabelCount)
    requires WellFormed(lc) && lc.order != []
    ensures |JoinWith(Entries(ObjectKeys(lc.order), lc), ", ")| > 0
  {
    var keys := ObjectKeys(lc.order);
    assert |keys| > 0 by {
      assert |multiset(keys)| == |multiset(lc.order)|;
    }
    var entries := Entries(keys, lc);
    assert |entries[0]| > 0;
  }

  /** A string found in the middle part is found one further on once `(` is
      put in front. */
  lemma OccursInside(sub: string, mid: string, tail: string, i: nat)
    requires OccursAt(sub, mid, i)
    ensures OccursAt(sub, "(" + mid + tail, 1 + i)
  {
    var s := "(" + mid + tail;
    assert s[1 + i..1 + i + |sub|] == mid[i..i + |sub|];
  }

  // ---------------------------------------------------------------------------
  // The counters

  /** How a job ended: both retry blocks returned and the label was counted,
      or one of them threw. */
  datatype JobEnd = LabelApplied(labelName: string) | JobFailed

  /** The closure variables the jobs share. */
  class Counters {
    const total: nat
    var processed: nat
    var error: nat
    var labelCount: LabelCount

    /** Every finished job is either an error or one count of one label,
        and no more jobs finish than were handed to the pool. */
    ghost predicate Valid()
      reads this
    {
      WellFormed(labelCount) && processed == error + Tallied(labelCount) && processed <= total
    }

    constructor(total: nat)
      ensures Valid()
      ensures this.total == total && processed == 0 && error == 0 && labelCount == Empty
    {
      this.total := total;
      processed := 0;
      error := 0;
      labelCount := Empty;
    }

    /** The end of one job: the label count in `try`, `error++` in `catch`,
        `processed++` in `finally`. */
    method Finish(end: JobEnd)
      requires Valid() && processed < total
      modifies this
      ensures Valid()
      ensures processed == old(processed) + 1
      ensures end.JobFailed? ==> error == old(error) + 1 && labelCount == old(labelCount)
      ensures end.LabelApplied? ==> error == old(error) && labelCount == Bump(old(labelCount), end.labelName)
    {
      if end.LabelApplied? {
        labelCount := Bump(labelCount, end.labelName);
      } else {
        error := error + 1;
      }
      processed := processed + 1;
    }
  }

  // ---------------------------------------------------------------------------
  // The object as JavaScript sees it

  /** An own property's value after `++`: a number, or NaN when the
      property held something that is not a number. */
  datatype JsCount = Number(n: nat) | NotANumber

  /** The object with own properties only; other names fall through to
      `Object.prototype`. */
  datatype JsObject = JsObject(order: seq<string>, own: map<string, JsCount>)

  /** The names `Object.prototype` provides, all of them truthy. */
  const ObjectPrototypeKeys: set<string> := {
    "constructor", "__defineGetter__", "__defineSetter__", "hasOwnProperty",
    "__lookupGetter__", "__lookupSetter__", "isPrototypeOf",
    "propertyIsEnumerable", "toString", "valueOf", "__proto__", "toLocaleString"
  }

  function SetOwn(o: JsObject, name: string, v: JsCount): (r: JsObject)
    ensures r.own == o.own[name := v]
  {
    JsObject(if name in o.own then o.order else o.order + [name], o.own[name := v])
  }

  /** `!labelCount[name]`: missing, zero and NaN are falsy; an inherited
      member of `Object.prototype` is truthy. */
  predicate Falsy(o: JsObject, name: string) {
    if name in o.own then o.own[name] == Number(0) || o.own[name] == NotANumber
    else name !in ObjectPrototypeKeys
  }

  /** The counter update exactly as written, prototype included. */
  function BumpAsWritten(o: JsObject, name: string): (r: JsObject)
    ensures forall k :: k != name ==> (k in r.own <==> k in o.own) && (k in o.own ==> r.own[k] == o.own[k])
    ensures r.order == o.order || r.order == o.order + [name]
    ensures name in o.own && o.own[name].Number? ==> r.own == o.own[name := Number(o.own[name].n + 1)]
    ensures name !in o.own && name !in ObjectPrototypeKeys ==>
              r.own == o.own[name := Number(1)] && r.order == o.order + [name]
  {
    var o1 := if Falsy(o, name) then SetOwn(o, name, Number(0)) else o;
    if name in o1.own then
      SetOwn(o1, name, match o1.own[name] case Number(n) => Number(n + 1) case NotANumber => NotANumber)
    else if name == "__proto__" then
      o1 // assigning NaN to `__proto__` is ignored
    else
      SetOwn(o1, name, NotANumber) // an inherited function plus one
  }

  function AsJs(lc: LabelCount): JsObject {
    JsObject(lc.order, Numbers(lc.counts))
  }

  function Numbers(counts: map<string, nat>): map<string, JsCount> {
    map k | k in counts :: Number(counts[k])
  }

  /** Setting one count and then reading the counts as numbers is setting
      that number. Dafny proves it unaided; callers use it to keep their
      proofs cheap. */
  lemma NumbersUpdate(counts: map<string, nat>, name: string, v: nat)
    ensures Numbers(counts[name := v]) == Numbers(counts)[name := Number(v)]
  {
  }

  const EmptyJs := JsObject([], map[])

  /** A label named after a member of `Object.prototype` is miscounted: the
      first `toString` is counted as NaN, and `__proto__` is never counted,
      while `Bump` counts each once. */
  lemma PrototypeLabelsMiscounted()
    ensures BumpAsWritten(EmptyJs, "toString") == JsObject(["toString"], map["toString" := NotANumber])
    ensures BumpAsWritten(EmptyJs, "__proto__") == EmptyJs
    ensures AsJs(Bump(Empty, "toString")) == JsObject(["toString"], map["toString" := Number(1)])
    ensures AsJs(Bump(Empty, "__proto__")) == JsObject(["__proto__"], map["__proto__" := Number(1)])
  {
    assert !Falsy(EmptyJs, "toString");
    assert !Falsy(EmptyJs, "__proto__");
    assert AsJs(Bump(Empty, "toString")).own == map["toString" := Number(1)];
    assert AsJs(Bump(Empty, "__proto__")).own == map["__proto__" := Number(1)];
  }

  /** For every other label the code as written and `Bump` agree. */
  lemma BumpAsWrittenAgrees(lc: LabelCount, name: string)
    requires WellFormed(lc) && name !in ObjectPrototypeKeys
    ensures BumpAsWritten(AsJs(lc), name) == AsJs(Bump(lc, name))
  {
    if name in lc.counts {
      BumpCountedAgrees(lc, name);
    } else {
      BumpNewAgrees(lc, name);
    }
  }

  /** A label already counted is incremented alike. */
  lemma BumpCountedAgrees(lc: LabelCount, name: string)
    requires WellFormed(lc) && name in lc.counts
    ensures BumpAsWritten(AsJs(lc), name) == AsJs(Bump(lc, name))
  {
    var o := AsJs(lc);
    var n := lc.counts[name];
    assert Bump(lc, name) == LabelCount(lc.order, lc.counts[name := n + 1]);
    assert o.own[name] == Number(n);
    assert BumpAsWritten(o, name) == SetOwn(o, name, Number(n + 1));
    NumbersUpdate(lc.counts, name, n + 1);
  }

  /** A new label that `Object.prototype` does not provide starts at one alike. */
  lemma BumpNewAgrees(lc: LabelCount, name: string)
    requires WellFormed(lc) && name !in lc.counts && !(name in ObjectPrototypeKeys)
    ensures BumpAsWritten(AsJs(lc), name) == AsJs(Bump(lc, name))
  {
    var o := AsJs(lc);
    assert name !in o.own;
    assert Falsy(o, name);
    assert Bump(lc, name) == LabelCount(lc.order + [name], lc.counts[name := 1]);
    var o1 := SetOwn(o, name, Number(0));
    assert BumpAsWritten(o, name) == SetOwn(o1, name, Number(1));
    NumbersUpdate(lc.counts, name, 1);
    assert o.own[name := Number(0)][name := Number(1)] == o.own[name := Number(1)];
  }
}
