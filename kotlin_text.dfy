/**
 * The pieces of Kotlin's standard library that the benchmarks lean on:
 * `String.toIntOrNull()` (decimal, 32-bit `Int`), `Int.toString()` as its
 * inverse, and `String.compareTo`, the order `sortedBy { it.message }` uses.
 */
module KotlinText {
  import opened Wrappers

  const MinInt: int := -0x8000_0000
  const MaxInt: int := 0x7FFF_FFFF

  predicate IsInt(v: int) {
    MinInt <= v <= MaxInt
  }

  predicate IsDigit(c: char) {
    '0' <= c <= '9'
  }

  predicate AllDigits(s: string) {
    forall i :: 0 <= i < |s| ==> IsDigit(s[i])
  }

  function DigitValue(c: char): (d: nat)
    requires IsDigit(c)
    ensures d < 10
  {
    (c as int) - ('0' as int)
  }

  function DigitChar(d: nat): (c: char)
    requires d < 10
    ensures IsDigit(c) && DigitValue(c) == d
  {
    (('0' as int) + d) as char
  }

  /** The value of a string of decimal digits, most significant first (leading zeros allowed). */
  function DigitsValue(s: string): nat
    requires AllDigits(s)
  {
    if s == [] then 0 else DigitsValue(s[..|s| - 1]) * 10 + DigitValue(s[|s| - 1])
  }

  /** `Some(v)` when `v` fits a Kotlin `Int`; the overflow checks of `toIntOrNull` give null otherwise. */
  function FitInt(v: int): (r: Option<int>)
    ensures r.Some? <==> IsInt(v)
    ensures r.Some? ==> r.value == v
  {
    if IsInt(v) then Some(v) else None
  }

  /**
   * The parse of `toIntOrNull` without its 32-bit overflow check: an optional
   * leading `-` or `+`, then at least one decimal digit and nothing else.
   */
  function ParseUnbounded(s: string): (r: Option<int>)
    ensures |s| >= 1 && AllDigits(s) ==> r == Some(DigitsValue(s) as int)
    ensures |s| >= 2 && s[0] == '+' && AllDigits(s[1..]) ==> r == Some(DigitsValue(s[1..]) as int)
    ensures |s| >= 2 && s[0] == '-' && AllDigits(s[1..]) ==> r == Some(-(DigitsValue(s[1..]) as int))
    ensures r.Some? ==> |s| >= 1 && (IsDigit(s[0]) || s[0] == '-' || s[0] == '+') && AllDigits(s[1..])
    ensures r.Some? && !IsDigit(s[0]) ==> |s| >= 2
  {
    if |s| == 0 then None
    else if s[0] == '-' || s[0] == '+' then
      if |s| == 1 || !AllDigits(s[1..]) then None
      else if s[0] == '-' then Some(-(DigitsValue(s[1..]) as int))
      else Some(DigitsValue(s[1..]))
    else if !AllDigits(s) then None
    else Some(DigitsValue(s))
  }

  /**
   * `String.toIntOrNull()`: an optional leading `-` or `+`, then at least one
   * decimal digit and nothing else; null for an empty string, a lone sign,
   * any other character, or a value outside the 32-bit range.
   */
  function ToIntOrNull(s: string): (r: Option<int>)
    ensures r.Some? ==> IsInt(r.value)
    ensures |s| == 0 ==> r.None?
    ensures (s == "-" || s == "+") ==> r.None?
    ensures r.Some? ==> |s| >= 1 && (IsDigit(s[0]) || s[0] == '-' || s[0] == '+') && AllDigits(s[1..])
    ensures |s| >= 1 && AllDigits(s) ==> r == FitInt(DigitsValue(s))
    ensures |s| >= 2 && s[0] == '+' && AllDigits(s[1..]) ==> r == FitInt(DigitsValue(s[1..]))
    ensures |s| >= 2 && s[0] == '-' && AllDigits(s[1..]) ==> r == FitInt(-(DigitsValue(s[1..]) as int))
  {
    match ParseUnbounded(s)
    case None => None
    case Some(v) => FitInt(v)
  }

  /** `Int.toString()` for a non-negative value: its decimal digits without leading zeros. */
  function NatToString(n: nat): (s: string)
    ensures |s| >= 1 && AllDigits(s)
    ensures |s| > 1 ==> s[0] != '0'
    decreases n
  {
    if n < 10 then [DigitChar(n)] else NatToString(n / 10) + [DigitChar(n % 10)]
  }

  /** `Int.toString()`: a minus sign before the digits of a negative value. */
  function IntToString(n: int): (s: string)
    ensures |s| >= 1
    ensures (s[0] == '-') <==> n < 0
  {
    if n < 0 then "-" + NatToString(-n) else NatToString(n)
  }

  lemma {:induction false} NatToStringValue(n: nat)
    ensures DigitsValue(NatToString(n)) == n
    decreases n
  {
    var s := NatToString(n);
    if n >= 10 {
      NatToStringValue(n / 10);
      assert s[..|s| - 1] == NatToString(n / 10);
    }
  }

  lemma ParseUnsigned(d: string)
    requires |d| >= 1 && AllDigits(d)
    ensures ToIntOrNull(d) == FitInt(DigitsValue(d))
  {
    assert IsDigit(d[0]);
  }

  lemma ParseNegative(d: string)
    requires |d| >= 1 && AllDigits(d)
    ensures ToIntOrNull("-" + d) == FitInt(-(DigitsValue(d) as int))
  {
    assert ("-" + d)[1..] == d;
  }

  /** Printing an `Int` and parsing it back gives the same `Int`. */
  lemma {:induction false} ToIntOrNullRoundTrip(n: int)
    requires IsInt(n)
    ensures ToIntOrNull(IntToString(n)) == Some(n)
  {
    if n < 0 {
      NatToStringValue(-n);
      ParseNegative(NatToString(-n));
    } else {
      NatToStringValue(n);
      ParseUnsigned(NatToString(n));
    }
  }

  /**
   * Decimal numerals whose value is beyond the `Int` range are not integers
   * to `toIntOrNull`, with or without a sign and leading zeros.
   */
  lemma ToIntOrNullOverflow(d: string)
    requires |d| >= 1 && AllDigits(d) && DigitsValue(d) > MaxInt
    ensures ToIntOrNull(d) == None
    ensures ToIntOrNull("+" + d) == None
    ensures DigitsValue(d) > -MinInt ==> ToIntOrNull("-" + d) == None
  {
    assert ("+" + d)[1..] == d;
    assert ("-" + d)[1..] == d;
  }

  /**
   * `String.compareTo(other) <= 0`: code units compared left to right, the
   * first difference decides, and a proper prefix comes first.
   */
  predicate LessEq(a: string, b: string)
    ensures a <= b ==> LessEq(a, b)
    ensures LessEq(a, b) && a != [] ==> b != [] && a[0] <= b[0]
  {
    if a == [] then true
    else if b == [] then false
    else if a[0] != b[0] then a[0] < b[0]
    else LessEq(a[1..], b[1..])
  }

  /** At the first position where two strings differ, the smaller code unit orders them. */
  lemma {:induction false} LessEqFirstDifference(a: string, b: string, k: nat)
    requires k < |a| && k < |b| && a[..k] == b[..k] && a[k] != b[k]
    ensures LessEq(a, b) <==> a[k] < b[k]
  {
    if k > 0 {
      assert a[0] == a[..k][0] && b[0] == b[..k][0];
      assert a[1..][..k - 1] == a[..k][1..] && b[1..][..k - 1] == b[..k][1..];
      LessEqFirstDifference(a[1..], b[1..], k - 1);
    }
  }

  lemma {:induction false} LessEqReflexive(a: string)
    ensures LessEq(a, a)
  {
    if a != [] { LessEqReflexive(a[1..]); }
  }

  lemma {:induction false} LessEqTotal(a: string, b: string)
    ensures LessEq(a, b) || LessEq(b, a)
  {
    if a != [] && b != [] && a[0] == b[0] { LessEqTotal(a[1..], b[1..]); }
  }

  lemma {:induction false} LessEqAntisymmetric(a: string, b: string)
    requires LessEq(a, b) && LessEq(b, a)
    ensures a == b
  {
    if a != [] && b != [] {
      LessEqAntisymmetric(a[1..], b[1..]);
      assert a == [a[0]] + a[1..] && b == [b[0]] + b[1..];
    }
  }

  lemma {:induction false} LessEqTransitive(a: string, b: string, c: string)
    requires LessEq(a, b) && LessEq(b, c)
    ensures LessEq(a, c)
  {
    if a != [] && b != [] && c != [] && a[0] == b[0] && b[0] == c[0] {
      LessEqTransitive(a[1..], b[1..], c[1..]);
    }
  }
}
