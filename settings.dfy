/** Run set-up taken from the command line: the labels that disable a sample
    (`--disable-labels`) and the number of samples to label (`--limit`). */
module Settings {
  import opened Wrappers
  import opened Strings
  import opened Seqs

  // ---------------------------------------------------------------------------
  // --disable-labels

  /** `x.trim().toLowerCase()` */
  function NormaliseEntry(x: string): string {
    ToLower(Trim(x))
  }

  function NormaliseAll(parts: seq<string>): (r: seq<string>)
    ensures |r| == |parts|
    ensures forall i {:trigger r[i]} :: 0 <= i < |parts| ==> r[i] == NormaliseEntry(parts[i])
  {
    if parts == [] then [] else [NormaliseEntry(parts[0])] + NormaliseAll(parts[1..])
  }

  predicate IsNonEmpty(x: string) { x != "" }

  /** A label as `disableLabelsArgv` holds it: non-empty, trimmed, without
      upper-case letters and without a comma. */
  predicate IsNormalLabel(x: string) {
    x != "" && IsTrimmed(x) && !HasUpper(x) && ',' !in x
  }

  /** Normalising a comma-free piece gives a trimmed, lower-case, comma-free string. */
  lemma NormaliseEntryShape(x: string)
    requires ',' !in x
    ensures var e := NormaliseEntry(x);
            IsTrimmed(e) && !HasUpper(e) && ',' !in e
  {
    var t := Trim(x);
    TrimKeepsOut(x, ',');
    ToLowerLowers(t);
    ToLowerKeepsTrimmed(t);
    ToLowerKeepsOut(t, ',');
  }

  /** Trimming adds no character: one absent before is absent after. */
  lemma TrimKeepsOut(x: string, c: char)
    requires c !in x
    ensures c !in Trim(x)
  {
    TrimCuts(x);
    var t := Trim(x);
    var i :| CutAt(x, t, i);
    forall j | 0 <= j < |t| ensures t[j] != c {
      assert t[j] == x[i + j];
    }
  }

  /** Lower-casing keeps a trimmed string trimmed. */
  lemma ToLowerKeepsTrimmed(t: string)
    requires IsTrimmed(t)
    ensures IsTrimmed(ToLower(t))
  {
    var e := ToLower(t);
    if |e| > 0 {
      assert e[0] == LowerChar(t[0]);
      assert e[|e| - 1] == LowerChar(t[|t| - 1]);
    }
  }

  /** Lower-casing keeps a non-letter out. */
  lemma ToLowerKeepsOut(t: string, c: char)
    requires c !in t && !IsUpper(c) && !('a' <= c <= 'z')
    ensures c !in ToLower(t)
  {
    var e := ToLower(t);
    forall j | 0 <= j < |e| ensures e[j] != c {
      assert e[j] == LowerChar(t[j]);
    }
  }

  /** `(program.disableLabels || '').split(',').map(x => x.trim().toLowerCase()).filter(x => !!x)` */
  function DisableLabels(arg: Option<string>): (labels: seq<string>)
    ensures forall i :: 0 <= i < |labels| ==> IsNonEmpty(labels[i])
  {
    Filter(IsNonEmpty, NormaliseAll(Split(arg.GetOr(""), ',')))
  }

  /** Without the argument nothing is disabled: `''` splits into one empty
      piece, and it is dropped. */
  lemma NothingToDisable()
    ensures DisableLabels(None) == []
  {
    assert Split("", ',') == [""];
    assert Trim("") == "";
    assert NormaliseAll([""]) == [""];
  }

  /** Every disabling label is normal: non-empty, trimmed, lower-case and
      comma-free. */
  lemma DisableLabelsNormal(arg: Option<string>)
    ensures forall x :: x in DisableLabels(arg) ==> IsNormalLabel(x)
  {
    var parts := Split(arg.GetOr(""), ',');
    NormalisedPieces(parts);
    forall x | x in DisableLabels(arg) ensures IsNormalLabel(x) {
      KeptIsNormal(NormaliseAll(parts), x);
    }
  }

  /** A piece the non-empty filter keeps from normalised pieces is normal. */
  lemma KeptIsNormal(normal: seq<string>, x: string)
    requires forall y :: y in normal ==> IsTrimmed(y) && !HasUpper(y) && ',' !in y
    requires x in Filter(IsNonEmpty, normal)
    ensures IsNormalLabel(x)
  {
    FilterMember(IsNonEmpty, normal, x);
  }

  lemma NormalisedPieces(parts: seq<string>)
    requires forall i :: 0 <= i < |parts| ==> ',' !in parts[i]
    ensures forall x :: x in NormaliseAll(parts) ==> IsTrimmed(x) && !HasUpper(x) && ',' !in x
  {
    var normal := NormaliseAll(parts);
    forall x | x in normal ensures IsTrimmed(x) && !HasUpper(x) && ',' !in x {
      var i :| 0 <= i < |normal| && normal[i] == x;
      NormaliseEntryShape(parts[i]);
    }
  }

  /** Joining normal labels with commas and passing them as the argument
      gives back exactly those labels, in order. */
  lemma DisableLabelsRoundTrip(labels: seq<string>)
    requires |labels| >= 1
    requires forall i :: 0 <= i < |labels| ==> IsNormalLabel(labels[i])
    ensures DisableLabels(Some(JoinWith(labels, ","))) == labels
  {
    SplitJoin(labels, ',');
    NormaliseAllNormal(labels);
    FilterAll(IsNonEmpty, labels);
  }

  /** Normal labels are left as they are by normalisation. */
  lemma {:induction false} NormaliseAllNormal(labels: seq<string>)
    requires forall i :: 0 <= i < |labels| ==> IsNormalLabel(labels[i])
    ensures NormaliseAll(labels) == labels
  {
    if labels != [] {
      TrimTrimmed(labels[0]);
      ToLowerIdempotent(labels[0]);
      NormaliseAllNormal(labels[1..]);
    }
  }

  /** `disableLabelsArgv.indexOf(label) > -1` */
  predicate IsDisabled(labels: seq<string>, labelName: string) {
    labelName in labels
  }

  /** The comparison is exact: a label with an upper-case letter, white space
      at an end, or a comma is never disabled, whatever the argument. */
  lemma OnlyNormalLabelsDisabled(arg: Option<string>, labelName: string)
    requires !IsNormalLabel(labelName)
    ensures !IsDisabled(DisableLabels(arg), labelName)
  {
    DisableLabelsNormal(arg);
  }

  /** A normal label given as the argument disables itself. */
  lemma NormalLabelDisablesItself(labelName: string)
    requires IsNormalLabel(labelName)
    ensures IsDisabled(DisableLabels(Some(labelName)), labelName)
  {
    SplitWithoutSeparator(labelName, ',');
    TrimTrimmed(labelName);
    ToLowerIdempotent(labelName);
    assert NormaliseAll([labelName]) == [labelName];
  }

  // ---------------------------------------------------------------------------
  // --limit

  /** `total` as written: `typeof limit === 'number' ? (n > limit ? limit : n) : n`. */
  function TotalAsWritten(limit: Option<int>, n: nat): (t: int)
    ensures t <= n && (limit.Some? ==> t <= limit.value)
    ensures t == n || (limit.Some? && t == limit.value)
  {
    if limit.Some? then (if n > limit.value then limit.value else n) else n
  }

  /** `s.slice(0, end)`: a negative end counts back from the end of `s`. */
  function SliceTo<T>(s: seq<T>, end: int): (r: seq<T>)
    ensures |r| <= |s| && r == s[..|r|]
    ensures 0 <= end <= |s| ==> |r| == end
    ensures end < 0 ==> |r| == if |s| + end > 0 then |s| + end else 0
  {
    if end < 0 then (if |s| + end > 0 then s[..|s| + end] else [])
    else if end <= |s| then s[..end]
    else s
  }

  /** With a negative limit, `total` is that negative number while
      `slice(0, total)` still hands samples to the pool: the displayed total
      and the number of samples labeled disagree. For instance, limit -1 and
      three samples: total is -1 and two samples are labeled. */
  lemma NegativeLimitMiscounts<T>(s: seq<T>, limit: int)
    requires limit < 0 && |s| + limit > 0
    ensures TotalAsWritten(Some(limit), |s|) == limit
    ensures |SliceTo(s, TotalAsWritten(Some(limit), |s|))| == |s| + limit
  {
  }

  /** The number of samples to label: at most `limit` (none when it is
      negative), at most all of them. */
  function Total(limit: Option<int>, n: nat): (t: nat)
    ensures t <= n
    ensures limit.Some? ==> t <= if limit.value < 0 then 0 else limit.value
    ensures t == n || (limit.Some? && t == if limit.value < 0 then 0 else limit.value)
  {
    if limit.Some? && limit.value < 0 then 0
    else TotalAsWritten(limit, n)
  }

  /** Without a negative limit, `Total` is the source's `total`, and the
      slice the pool receives has exactly `total` samples. */
  lemma TotalMatchesSource<T>(s: seq<T>, limit: Option<int>)
    requires limit.None? || limit.value >= 0
    ensures Total(limit, |s|) == TotalAsWritten(limit, |s|)
    ensures SliceTo(s, TotalAsWritten(limit, |s|)) == s[..Total(limit, |s|)]
  {
  }
}
