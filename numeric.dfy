/** Decimal numerals as the helper reads and writes them: the subset of PHP's
    numeric strings that scorecard notation uses (digits, optionally one point
    and more digits), splitting on the point as `explode(".", ...)` does, and
    the text PHP prints for a float with at most one decimal place. */
module Numeric {

  predicate IsDigit(c: char) {
    '0' <= c <= '9'
  }

  function DigitValue(c: char): (d: nat)
    requires IsDigit(c)
    ensures d < 10
  {
    c as int - '0' as int
  }

  function DigitChar(d: nat): (c: char)
    requires d < 10
    ensures IsDigit(c) && DigitValue(c) == d
  {
    ('0' as int + d) as char
  }

  predicate AllDigits(s: string) {
    forall i :: 0 <= i < |s| ==> IsDigit(s[i])
  }

  /** A non-empty run of decimal digits. */
  predicate IsDigitString(s: string) {
    |s| > 0 && AllDigits(s)
  }

  /** The value of a run of decimal digits, most significant digit first;
      leading zeros are allowed, as PHP allows them in "05" or "2.05". */
  function DigitsValue(s: string): nat
    requires AllDigits(s)
  {
    if s == [] then 0 else 10 * DigitsValue(s[..|s| - 1]) + DigitValue(s[|s| - 1])
  }

  function Pow10(n: nat): (p: nat)
    ensures p >= 1
  {
    if n == 0 then 1 else 10 * Pow10(n - 1)
  }

  /** The shortest decimal text of n. */
  function NatToString(n: nat): (s: string)
    ensures IsDigitString(s)
    ensures n < 10 <==> |s| == 1
  {
    if n < 10 then [DigitChar(n)] else NatToString(n / 10) + [DigitChar(n % 10)]
  }

  lemma {:induction false} NatToStringValue(n: nat)
    ensures DigitsValue(NatToString(n)) == n
  {
    if n >= 10 {
      var s := NatToString(n);
      assert s[..|s| - 1] == NatToString(n / 10);
      NatToStringValue(n / 10);
    }
  }

  /** The position of the first '.' in s, or |s| when s has none. */
  function DotIndex(s: string): (k: nat)
    ensures k <= |s|
    ensures k < |s| ==> s[k] == '.'
    ensures forall i :: 0 <= i < k ==> s[i] != '.'
  {
    if s == [] || s[0] == '.' then 0 else 1 + DotIndex(s[1..])
  }

  /** `explode(".", s)`: the pieces of s between its points, in order. */
  function Explode(s: string): (bits: seq<string>)
    ensures |bits| >= 1
    ensures forall i :: 0 <= i < |bits| ==> '.' !in bits[i]
    decreases |s|
  {
    var k := DotIndex(s);
    if k == |s| then
      assert forall c :: c in s ==> c != '.';
      [s]
    else
      assert forall c :: c in s[..k] ==> c != '.';
      [s[..k]] + Explode(s[k + 1..])
  }

  /** `implode(".", bits)`: the pieces joined by points. */
  function Implode(bits: seq<string>): string
    requires |bits| >= 1
  {
    if |bits| == 1 then bits[0] else bits[0] + "." + Implode(bits[1..])
  }

  /** Splitting on the point loses nothing: joining the pieces gives s back. */
  lemma {:induction false} ImplodeExplode(s: string)
    ensures Implode(Explode(s)) == s
    decreases |s|
  {
    var k := DotIndex(s);
    if k < |s| {
      var rest := Explode(s[k + 1..]);
      var bits := Explode(s);
      assert bits == [s[..k]] + rest;
      assert bits[0] == s[..k] && bits[1..] == rest;
      ImplodeExplode(s[k + 1..]);
      assert Implode(bits) == s[..k] + "." + s[k + 1..];
      assert s == s[..k] + "." + s[k + 1..];
    }
  }

  /** There is one more piece than there are points. */
  lemma {:induction false} ExplodeCount(s: string)
    ensures |Explode(s)| == multiset(s)['.'] + 1
    decreases |s|
  {
    var k := DotIndex(s);
    assert '.' !in s[..k];
    if k == |s| {
      assert s == s[..k];
    } else {
      ExplodeCount(s[k + 1..]);
      assert s == s[..k] + ['.'] + s[k + 1..];
    }
  }

  /** The numeric strings of scorecard notation: a whole part of digits,
      optionally followed by one point and a non-empty run of digits. */
  predicate IsNumeric(s: string) {
    var k := DotIndex(s);
    IsDigitString(s[..k]) && (k == |s| || IsDigitString(s[k + 1..]))
  }

  /** The digits before the point, read as an integer. */
  function WholePart(s: string): nat
    requires IsNumeric(s)
  {
    DigitsValue(s[..DotIndex(s)])
  }

  /** The digits after the point read as an integer (not as a fraction),
      or 0 when there is no point. */
  function FractionalDigits(s: string): nat
    requires IsNumeric(s)
  {
    var k := DotIndex(s);
    if k == |s| then 0 else DigitsValue(s[k + 1..])
  }

  /** The value PHP gives the numeric string s in arithmetic and comparisons. */
  function NumericValue(s: string): (x: real)
    requires IsNumeric(s)
    ensures x >= 0.0
  {
    var k := DotIndex(s);
    WholePart(s) as real
      + (if k == |s| then 0.0 else FractionalDigits(s) as real / Pow10(|s| - k - 1) as real)
  }

  /** A numeric string is zero exactly when both its parts are zero
      ("0", "00", "0.0" and "0.00" are all zero). */
  lemma NumericZero(s: string)
    requires IsNumeric(s)
    ensures NumericValue(s) == 0.0 <==> WholePart(s) == 0 && FractionalDigits(s) == 0
  {
    var k := DotIndex(s);
    if k < |s| {
      var p := Pow10(|s| - k - 1) as real;
      assert FractionalDigits(s) as real / p >= 0.0;
      if FractionalDigits(s) > 0 {
        assert FractionalDigits(s) as real / p > 0.0;
      }
    }
  }

  /** `explode` on a numeric string gives the whole part alone, or the whole
      part and the digits after the point. */
  lemma ExplodeNumeric(s: string)
    requires IsNumeric(s)
    ensures DotIndex(s) == |s| ==> Explode(s) == [s]
    ensures DotIndex(s) < |s| ==> Explode(s) == [s[..DotIndex(s)], s[DotIndex(s) + 1..]]
  {
    var k := DotIndex(s);
    if k < |s| {
      var f := s[k + 1..];
      assert DotIndex(f) == |f| by {
        if DotIndex(f) < |f| {
          assert IsDigit(f[DotIndex(f)]);
        }
      }
    }
  }

  lemma DigitsHaveNoDot(a: string)
    requires AllDigits(a)
    ensures DotIndex(a) == |a|
  {
    if DotIndex(a) < |a| {
      assert IsDigit(a[DotIndex(a)]);
    }
  }

  lemma DotAfterDigits(a: string, rest: string)
    requires AllDigits(a)
    ensures DotIndex(a + "." + rest) == |a|
  {
    var s := a + "." + rest;
    assert s[|a|] == '.';
    assert forall i :: 0 <= i < |a| ==> s[i] == a[i];
  }

  /** Reading the text of a whole number back gives the number, with no
      fractional digits. */
  lemma ReadWhole(w: nat)
    ensures IsNumeric(NatToString(w))
    ensures WholePart(NatToString(w)) == w && FractionalDigits(NatToString(w)) == 0
  {
    var s := NatToString(w);
    DigitsHaveNoDot(s);
    assert s[..|s|] == s;
    NatToStringValue(w);
  }

  /** Reading "W.F" back gives W as the whole part and F's digits literally. */
  lemma ReadDotted(w: nat, f: string)
    requires IsDigitString(f)
    ensures IsNumeric(NatToString(w) + "." + f)
    ensures WholePart(NatToString(w) + "." + f) == w
    ensures FractionalDigits(NatToString(w) + "." + f) == DigitsValue(f)
  {
    var a := NatToString(w);
    var s := a + "." + f;
    DotAfterDigits(a, f);
    assert s[..|a|] == a;
    assert s[|a| + 1..] == f;
    NatToStringValue(w);
  }

  /** The float has at most one decimal place: ten times it is whole. */
  predicate HasOneDecimal(x: real) {
    (x * 10.0).Floor as real == x * 10.0
  }

  /** The text of whole part w and tenths d as PHP prints such a float:
      "5" when d is 0, "5.3" otherwise. */
  function TenthsText(w: nat, d: nat): (s: string)
    requires d < 10
    ensures IsNumeric(s)
    ensures WholePart(s) == w && FractionalDigits(s) == d
    ensures (DotIndex(s) == |s|) == (d == 0)
    ensures DotIndex(s) < |s| ==> |s| == DotIndex(s) + 2
  {
    ReadWhole(w);
    ReadDotted(w, [DigitChar(d)]);
    if d == 0 then NatToString(w) else NatToString(w) + "." + [DigitChar(d)]
  }

  /** The string a non-negative float with at most one decimal place becomes
      when PHP converts it to text (as `explode` does with a float argument). */
  function OneDecimalText(x: real): (s: string)
    requires x >= 0.0 && HasOneDecimal(x)
    ensures IsNumeric(s)
    ensures NumericValue(s) == x
    ensures WholePart(s) == x.Floor && FractionalDigits(s) == (x * 10.0).Floor - 10 * x.Floor
    ensures (DotIndex(s) == |s|) == (FractionalDigits(s) == 0)
    ensures DotIndex(s) < |s| ==> |s| == DotIndex(s) + 2
  {
    var w := x.Floor;
    var d := (x * 10.0).Floor - 10 * w;
    assert 0 <= d < 10;
    var s := TenthsText(w, d);
    assert x == w as real + d as real / 10.0;
    assert NumericValue(s) == x by {
      if d != 0 {
        DotAfterDigits(NatToString(w), [DigitChar(d)]);
        assert |s| - DotIndex(s) - 1 == 1;
      }
    }
    s
  }
}
