/** The cricket statistics helper: conversion between scorecard overs
    notation ("W.B": W whole overs and B further balls) and a raw ball count,
    and the batting average, bowling average and bowling economy. */
module CricketStats {
  import opened Numeric

  /** The outcome of a call that may throw InvalidArgumentException. */
  datatype Result<T> = Ok(value: T) | InvalidArgument(message: string)

  /** A statistic, or the `false` the helper returns when its denominator is zero. */
  datatype Stat = Figure(value: real) | NotApplicable

  const NonNumericOvers := "$overs must be int, numeric string or float"
  const NotOutsAboveInnings := "$notOuts may not be greater than $innings"

  /** `fmod` on whole numbers with a positive divisor: the remainder of
      truncating division, which takes the sign of the dividend. */
  function FMod(a: int, b: int): (r: int)
    requires b > 0
    ensures a >= 0 ==> r == a % b
    ensures a < 0 ==> -b < r <= 0
    ensures (a - r) % b == 0
  {
    if a >= 0 then
      DivMod(a, b);
      ModOfMultiple(a / b, b);
      a % b
    else
      DivMod(-a, b);
      assert a + (-a) % b == -((-a) / b) * b;
      ModOfMultiple(-((-a) / b), b);
      -((-a) % b)
  }

  /** A whole multiple of b leaves no remainder. */
  lemma ModOfMultiple(k: int, b: int)
    requires b > 0
    ensures (k * b) % b == 0
  {
    var x := k * b;
    var d := k - x / b;
    assert d * b == x % b;
    if d >= 1 {
      MulAtLeast(b, d);
    } else if d <= -1 {
      MulAtLeast(b, -d);
    }
  }

  class CricketStatsHelper {
    var ballsPerOver: int

    /** A helper counting `ballsPerOver` balls to the over, 6 unless told otherwise. */
    constructor (ballsPerOver: int := 6)
      ensures GetBallsPerOver() == ballsPerOver
    {
      this.ballsPerOver := ballsPerOver;
    }

    function GetBallsPerOver(): int
      reads this
    {
      ballsPerOver
    }

    method SetBallsPerOver(ballsPerOver: int)
      modifies this`ballsPerOver
      ensures GetBallsPerOver() == ballsPerOver
    {
      this.ballsPerOver := ballsPerOver;
    }

    /** Scorecard notation to balls: the whole part counts overs and the
        digits after the point count further balls, read literally. */
    function ConvertOversToBalls(overs: string): (r: Result<int>)
      reads this
      ensures r.InvalidArgument? <==> !IsNumeric(overs)
      ensures r.InvalidArgument? ==> r.message == NonNumericOvers
      ensures r.Ok? ==> r.value == WholePart(overs) * ballsPerOver + FractionalDigits(overs)
    {
      if !IsNumeric(overs) then
        InvalidArgument(NonNumericOvers)
      else
        ExplodeNumeric(overs);
        var bits := Explode(overs);
        if |bits| == 1 then
          assert overs[..|overs|] == overs;
          Ok(DigitsValue(overs) * ballsPerOver)
        else
          Ok(DigitsValue(bits[0]) * ballsPerOver + DigitsValue(bits[1]))
    }

    /** Balls to scorecard notation: whole overs, with the balls left over
        written as one digit after the point. */
    function ConvertBallsToOvers(balls: int): (r: real)
      reads this
      requires ballsPerOver > 0
      ensures balls >= 0 ==> r == (balls / ballsPerOver) as real + (balls % ballsPerOver) as real / 10.0
    {
      var remainder := FMod(balls, ballsPerOver);
      if remainder == 0 then
        balls as real / ballsPerOver as real
      else
        FloorOfQuotient(balls, ballsPerOver);
        (balls as real / ballsPerOver as real).Floor as real + remainder as real / 10.0
    }

    /** Balls to overs as an ordinary fraction: 20 balls of 6 to the over are
        3 1/3 overs, where scorecard notation writes 3.2. */
    function ConvertBallsToDecimal(balls: int): (r: real)
      reads this
      requires ballsPerOver > 0
      ensures r * ballsPerOver as real == balls as real
    {
      balls as real / ballsPerOver as real
    }

    /** Runs per dismissal; `false` for a batsman never dismissed. */
    function CalculateBattingAverage(runs: int, innings: int, notOuts: int): (r: Result<Stat>)
      ensures r.InvalidArgument? <==> notOuts > innings
      ensures r.InvalidArgument? ==> r.message == NotOutsAboveInnings
      ensures r == Ok(NotApplicable) <==> notOuts == innings
      ensures r.Ok? && r.value.Figure? ==> r.value.value * (innings - notOuts) as real == runs as real
      ensures r.Ok? && r.value.Figure? && runs >= 0 ==> r.value.value >= 0.0
    {
      if notOuts > innings then
        InvalidArgument(NotOutsAboveInnings)
      else
        var dismissals := innings - notOuts;
        if dismissals == 0 then Ok(NotApplicable) else Ok(Figure(runs as real / dismissals as real))
    }

    /** Runs conceded per wicket; `false` when no wicket was taken. */
    function CalculateBowlingAverage(runs: int, wickets: int): (r: Stat)
      ensures r == NotApplicable <==> wickets == 0
      ensures r.Figure? ==> r.value * wickets as real == runs as real
      ensures r.Figure? && runs >= 0 && wickets > 0 ==> r.value >= 0.0
    {
      if wickets == 0 then NotApplicable else Figure(runs as real / wickets as real)
    }

    /** Runs conceded per true over, the overs given in scorecard notation;
        `false` when no ball was bowled. */
    function CalculateBowlingEconomy(overs: string, runs: int): (r: Result<Stat>)
      reads this
      requires ballsPerOver > 0
      ensures r.InvalidArgument? <==> !IsNumeric(overs)
      ensures r.InvalidArgument? ==> r.message == NonNumericOvers
      ensures r == Ok(NotApplicable) <==> ConvertOversToBalls(overs) == Ok(0)
      ensures r.Ok? && r.value.Figure? ==>
        r.value.value * ConvertOversToBalls(overs).value as real == runs as real * ballsPerOver as real
    {
      if !IsNumeric(overs) then
        InvalidArgument(NonNumericOvers)
      else if NumericValue(overs) == 0.0 then
        SomeBallBowled(this, overs);
        Ok(NotApplicable)
      else
        SomeBallBowled(this, overs);
        Ok(Figure(RunsPerOver(runs, ConvertOversToBalls(overs).value)))
    }

    /** The economy figure once a ball has been bowled: the runs divided by
        the overs bowled as an ordinary fraction, which is runs per true over. */
    function RunsPerOver(runs: int, balls: int): (e: real)
      reads this
      requires ballsPerOver > 0 && balls > 0
      ensures e * balls as real == runs as real * ballsPerOver as real
    {
      var decimalOvers := ConvertBallsToDecimal(balls);
      RateTimesBalls(runs, ballsPerOver, balls, decimalOvers);
      runs as real / decimalOvers
    }
  }

  /** At a positive over length, numeric overs text is non-zero exactly when
      it converts to at least one ball, so testing `$overs == 0` is testing
      for a bowler who bowled no ball. */
  lemma SomeBallBowled(h: CricketStatsHelper, overs: string)
    requires h.ballsPerOver > 0 && IsNumeric(overs)
    ensures NumericValue(overs) != 0.0 <==> h.ConvertOversToBalls(overs).value > 0
  {
    NumericZero(overs);
    if WholePart(overs) > 0 {
      MulAtLeast(h.ballsPerOver, WholePart(overs));
    }
  }

  /** Runs over the overs d as a fraction, with d * n = balls, times the
      balls is the runs times the over length n. */
  lemma RateTimesBalls(runs: int, n: int, balls: int, d: real)
    requires n > 0 && balls > 0 && d * n as real == balls as real
    ensures (runs as real / d) * balls as real == runs as real * n as real
  {
    var v := runs as real / d;
    assert v * d == runs as real;
    assert v * balls as real == (v * d) * n as real;
  }

  /** Flooring the real quotient of two whole numbers gives Euclidean division. */
  lemma FloorOfQuotient(a: int, b: int)
    requires b > 0
    ensures (a as real / b as real).Floor == a / b
  {
    var q, m := a / b, a % b;
    assert a as real == q as real * b as real + m as real;
    assert a as real / b as real == q as real + m as real / b as real;
    assert 0.0 <= m as real / b as real < 1.0;
  }

  /** A freshly made helper counts six balls to the over. */
  method NewDefaultHelper() returns (h: CricketStatsHelper)
    ensures fresh(h) && h.GetBallsPerOver() == 6
  {
    h := new CricketStatsHelper();
  }

  /** Setting the balls per over changes what the conversions compute: the
      same scorecard text now counts overs of the new length. */
  method ResetOverLength(h: CricketStatsHelper, n: int, overs: string)
    requires IsNumeric(overs)
    modifies h
    ensures h.ConvertOversToBalls(overs) == Ok(WholePart(overs) * n + FractionalDigits(overs))
  {
    h.SetBallsPerOver(n);
  }

  /** Scorecard notation "W" or "W.B", with B a single digit below the balls
      per over, becomes W * ballsPerOver + B balls, and those balls convert
      back to W + B/10, at any over length. */
  lemma {:induction false} OversRoundTrip(h: CricketStatsHelper, w: nat, b: nat)
    requires 1 <= h.ballsPerOver && b < h.ballsPerOver && b < 10
    ensures h.ConvertOversToBalls(NatToString(w) + "." + NatToString(b)) == Ok(w * h.ballsPerOver + b)
    ensures b == 0 ==> h.ConvertOversToBalls(NatToString(w)) == Ok(w * h.ballsPerOver)
    ensures h.ConvertBallsToOvers(w * h.ballsPerOver + b) == w as real + b as real / 10.0
  {
    ReadDotted(w, NatToString(b));
    NatToStringValue(b);
    ReadWhole(w);
    MixedToOvers(h, w, b);
  }

  /** W whole overs and B further balls, B short of an over, print as W + B/10. */
  lemma MixedToOvers(h: CricketStatsHelper, w: nat, b: nat)
    requires h.ballsPerOver > 0 && b < h.ballsPerOver
    ensures h.ConvertBallsToOvers(w * h.ballsPerOver + b) == w as real + b as real / 10.0
  {
    var n := h.ballsPerOver;
    var a := w * n + b;
    DivModOfMixed(w, n, b);
    var q, m := a / n, a % n;
    assert q == w && m == b;
    assert h.ConvertBallsToOvers(a) == q as real + m as real / 10.0;
  }

  lemma DivModOfMixed(w: nat, n: int, b: nat)
    requires n > 0 && b < n
    ensures (w * n + b) / n == w && (w * n + b) % n == b
  {
    var a := w * n + b;
    var q, m := a / n, a % n;
    var d := q - w;
    assert n * d == b - m;
    if d >= 1 {
      MulAtLeast(n, d);
    } else if d <= -1 {
      MulAtLeast(n, -d);
    }
  }

  lemma MulAtLeast(n: int, d: int)
    requires n > 0 && d >= 1
    ensures n * d >= n
  {
    var e := d - 1;
    assert n * d == n * e + n;
  }

  /** Any ball count survives the trip to scorecard notation, through the
      text PHP makes of the float, and back. The remainder must fit one
      digit, so this holds up to ten balls per over. */
  lemma BallsRoundTrip(h: CricketStatsHelper, balls: nat)
    requires 1 <= h.ballsPerOver <= 10
    ensures HasOneDecimal(h.ConvertBallsToOvers(balls))
    ensures h.ConvertOversToBalls(OneDecimalText(h.ConvertBallsToOvers(balls))) == Ok(balls)
  {
    var n := h.ballsPerOver;
    var q, m := balls / n, balls % n;
    DivMod(balls, n);
    var x := h.ConvertBallsToOvers(balls);
    assert x == q as real + m as real / 10.0;
    TenthsFloor(q, m);
    var s := OneDecimalText(x);
    assert s == TenthsText(q, m);
    assert h.ConvertOversToBalls(s) == Ok(q * n + m);
  }

  /** Dafny's division identity, stated on its own so that callers reason
      about quotient and remainder without the nonlinear product in scope. */
  lemma DivMod(a: nat, n: int)
    requires n > 0
    ensures a == (a / n) * n + a % n
  {
  }

  /** The floors that take whole part q and tenths m back out of q + m/10. */
  lemma TenthsFloor(q: nat, m: nat)
    requires m < 10
    ensures (q as real + m as real / 10.0).Floor == q
    ensures HasOneDecimal(q as real + m as real / 10.0)
    ensures ((q as real + m as real / 10.0) * 10.0).Floor == 10 * q + m
  {
    var x := q as real + m as real / 10.0;
    assert x * 10.0 == (10 * q + m) as real;
  }

  /** From eleven balls to the over the one-digit encoding breaks: ten balls
      become 1.0, which reads back as a whole over. */
  lemma BallsRoundTripFailsAboveTen(h: CricketStatsHelper)
    requires h.ballsPerOver > 10
    ensures h.ConvertBallsToOvers(10) == 1.0
    ensures h.ConvertOversToBalls(OneDecimalText(1.0)) == Ok(h.ballsPerOver)
    ensures h.ConvertOversToBalls(OneDecimalText(h.ConvertBallsToOvers(10))) != Ok(10)
  {
    assert OneDecimalText(1.0) == TenthsText(1, 0);
  }

  /** The conversion table of the PHP tests at six balls to the over:
      each scorecard value, a PHP number turned into text as `explode` does,
      gives its ball count, and each ball count gives the scorecard value. */
  lemma ConversionTable(h: CricketStatsHelper)
    requires h.ballsPerOver == 6
    ensures HasOneDecimal(1.0) && h.ConvertOversToBalls(OneDecimalText(1.0)) == Ok(6) && h.ConvertBallsToOvers(6) == 1.0
    ensures HasOneDecimal(3.0) && h.ConvertOversToBalls(OneDecimalText(3.0)) == Ok(18) && h.ConvertBallsToOvers(18) == 3.0
    ensures HasOneDecimal(5.0) && h.ConvertOversToBalls(OneDecimalText(5.0)) == Ok(30) && h.ConvertBallsToOvers(30) == 5.0
    ensures HasOneDecimal(2.1) && h.ConvertOversToBalls(OneDecimalText(2.1)) == Ok(13) && h.ConvertBallsToOvers(13) == 2.1
    ensures HasOneDecimal(2.2) && h.ConvertOversToBalls(OneDecimalText(2.2)) == Ok(14) && h.ConvertBallsToOvers(14) == 2.2
    ensures HasOneDecimal(4.3) && h.ConvertOversToBalls(OneDecimalText(4.3)) == Ok(27) && h.ConvertBallsToOvers(27) == 4.3
    ensures HasOneDecimal(6.4) && h.ConvertOversToBalls(OneDecimalText(6.4)) == Ok(40) && h.ConvertBallsToOvers(40) == 6.4
    ensures HasOneDecimal(5.5) && h.ConvertOversToBalls(OneDecimalText(5.5)) == Ok(35) && h.ConvertBallsToOvers(35) == 5.5
  {
    TenthsFloor(1, 0);
    TenthsFloor(3, 0);
    TenthsFloor(5, 0);
    TenthsFloor(2, 1);
    TenthsFloor(2, 2);
    TenthsFloor(4, 3);
    TenthsFloor(6, 4);
    TenthsFloor(5, 5);
  }

  /** The statistics tables of the PHP tests, at six balls to the over. */
  lemma StatisticsTables(h: CricketStatsHelper)
    requires h.ballsPerOver == 6
    ensures h.CalculateBattingAverage(150, 10, 0) == Ok(Figure(15.0))
    ensures h.CalculateBattingAverage(12, 2, 1) == Ok(Figure(12.0))
    ensures h.CalculateBattingAverage(255, 12, 2) == Ok(Figure(25.5))
    ensures h.CalculateBattingAverage(75, 2, 2) == Ok(NotApplicable)
    ensures h.CalculateBowlingAverage(100, 10) == Figure(10.0)
    ensures h.CalculateBowlingAverage(50, 0) == NotApplicable
    ensures h.CalculateBowlingAverage(185, 10) == Figure(18.5)
    ensures h.CalculateBowlingEconomy("5", 50) == Ok(Figure(10.0))
    ensures h.CalculateBowlingEconomy("0", 50) == Ok(NotApplicable)
    ensures h.CalculateBowlingEconomy("20", 165) == Ok(Figure(8.25))
  {
    ReadWhole(0);
    ReadWhole(5);
    ReadWhole(20);
    assert NatToString(0) == "0" && NatToString(5) == "5" && NatToString(20) == "20";
  }
}
