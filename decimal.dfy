/** Decimal rendering of integers as JavaScript's `Number.prototype.toString`
    produces it for integral values, and the "array index" property keys that
    JavaScript objects enumerate before all other keys. */
module Decimal {

  predicate IsDigit(c: char) { '0' <= c <= '9' }

  predicate AllDigits(s: string) {
    forall i :: 0 <= i < |s| ==> IsDigit(s[i])
  }

  /** A decimal numeral without superfluous leading zeros ("0", "7", "120"). */
  predicate IsCanonical(s: string) {
    |s| >= 1 && AllDigits(s) && (s[0] != '0' || |s| == 1)
  }

  function DigitChar(d: nat): (c: char)
    requires d < 10
    ensures IsDigit(c) && c as int - '0' as int == d
  {
    (d + '0' as int) as char
  }

  /** The decimal numeral of `n`. */
  function NatToString(n: nat): (s: string)
    ensures IsCanonical(s)
  {
    if n < 10 then [DigitChar(n)] else NatToString(n / 10) + [DigitChar(n % 10)]
  }

  /** The value of a string of decimal digits ("" has value 0). */
  function DecimalValue(s: string): nat
    requires AllDigits(s)
  {
    if s == [] then 0 else DecimalValue(s[..|s| - 1]) * 10 + (s[|s| - 1] as int - '0' as int)
  }

  /** Reading back a rendered numeral gives the number. */
  lemma {:induction false} ValueOfNatToString(n: nat)
    ensures DecimalValue(NatToString(n)) == n
  {
    if n >= 10 {
      ValueOfNatToString(n / 10);
      var s := NatToString(n);
      assert s[..|s| - 1] == NatToString(n / 10);
    }
  }

  /** A canonical numeral with a leading non-zero digit denotes a positive number. */
  lemma {:induction false} CanonicalPositive(s: string)
    requires IsCanonical(s) && s[0] != '0'
    ensures DecimalValue(s) >= 1
  {
    if |s| > 1 {
      var t := s[..|s| - 1];
      assert t[0] == s[0];
      CanonicalPositive(t);
    }
  }

  /** Rendering the value of a canonical numeral gives the numeral back. */
  lemma {:induction false} NatToStringOfValue(s: string)
    requires IsCanonical(s)
    ensures NatToString(DecimalValue(s)) == s
  {
    if |s| > 1 {
      var t := s[..|s| - 1];
      assert t[0] == s[0];
      assert IsCanonical(t);
      CanonicalPositive(t);
      NatToStringOfValue(t);
      var v := DecimalValue(s);
      assert v / 10 == DecimalValue(t) && v % 10 == s[|s| - 1] as int - '0' as int;
      assert s == t + [s[|s| - 1]];
    }
  }

  /** Distinct numbers render as distinct numerals. */
  lemma NatToStringInjective(a: nat, b: nat)
    requires NatToString(a) == NatToString(b)
    ensures a == b
  {
    ValueOfNatToString(a);
    ValueOfNatToString(b);
  }

  /** `n.toString()` for an integral JavaScript number that a double holds
      exactly, that is of magnitude below 2^53. */
  function IntToString(n: int): (s: string)
    ensures n >= 0 ==> s == NatToString(n)
    ensures n < 0 ==> s == "-" + NatToString(-n)
  {
    if n < 0 then "-" + NatToString(-n) else NatToString(n)
  }

  /** Distinct integers render as distinct strings. */
  lemma IntToStringInjective(a: int, b: int)
    requires IntToString(a) == IntToString(b)
    ensures a == b
  {
    if a < 0 && b < 0 {
      assert NatToString(-a) == IntToString(a)[1..];
      NatToStringInjective(-a, -b);
    } else if a >= 0 && b >= 0 {
      NatToStringInjective(a, b);
    }
  }

  /** 2^32 - 1: property keys denoting integers below it are array indices. */
  const ArrayIndexLimit: nat := 0x1_0000_0000 - 1

  /** A property key that a JavaScript object treats as an array index:
      the canonical numeral of an integer in [0, 2^32 - 2]. */
  predicate IsArrayIndex(k: string) {
    IsCanonical(k) && DecimalValue(k) < ArrayIndexLimit
  }

  /** The array-index keys are exactly the numerals of the integers below 2^32 - 1. */
  lemma ArrayIndexIffNumeral(k: string)
    ensures IsArrayIndex(k) <==> exists n: nat :: n < ArrayIndexLimit && k == NatToString(n)
  {
    if IsArrayIndex(k) {
      NatToStringOfValue(k);
    }
    if exists n: nat :: n < ArrayIndexLimit && k == NatToString(n) {
      var n: nat :| n < ArrayIndexLimit && k == NatToString(n);
      ValueOfNatToString(n);
    }
  }

  /** Numeric order of array-index keys (other keys are ranked below all of them). */
  function IndexValue(k: string): (v: int)
    ensures IsArrayIndex(k) ==> v == DecimalValue(k)
    ensures AllDigits(k) ==> v >= 0
  {
    if AllDigits(k) then DecimalValue(k) else -1
  }
}
