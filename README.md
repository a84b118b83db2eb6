# cricket-stats-helper in Dafny

A model of `CricketStatsHelper`, the one class of the cricket-stats-helper
PHP library, with proofs about what it computes.

The helper keeps one mutable setting: the number of balls per over (6 by
default). It uses that setting in two ways.

- **Scorecard notation.** It converts between scorecard notation and a raw
  ball count. In "10.3", the part before the point counts whole overs and
  the digits after the point count further balls. They are read as a
  literal count, not as a decimal fraction.
- **Statistics.** It computes three figures:
  - the batting average: runs per dismissal;
  - the bowling average: runs per wicket;
  - the bowling economy: runs per true over.

  Each statistic tells apart two outcomes. A bad argument throws
  `InvalidArgumentException`. A zero denominator returns `false`.

The model has two files.

- `numeric.dfy` (module `Numeric`) covers the text side:
  - the numeric strings scorecard notation uses: digits, optionally followed
    by one point and more digits;
  - their value, as PHP reads them in arithmetic and in `== 0`;
  - `explode(".", ...)` and its inverse `implode`;
  - the text PHP prints for a float with at most one decimal place, written
    exactly (PHP's 14-digit printing precision is not modelled).
- `cricket_stats_helper.dfy` (module `CricketStats`) has the class
  `CricketStatsHelper` with its field `ballsPerOver`:
  - the constructor and the setter assign the field;
  - the conversions and statistics are functions that read it.

  Outcomes are modelled with two datatypes:
  - `Result` keeps a thrown `InvalidArgumentException`, with its message,
    apart from a returned value;
  - `Stat` keeps the `false` sentinel (`NotApplicable`) apart from a figure.

  The module also holds the lemmas that relate the operations:
  - the round trips of the notation;
  - the boundary where the notation stops round-tripping;
  - economy as runs per true over;
  - the tables of the repository's tests.

PHP floats are modelled as exact `real` numbers, and ball counts as `int`.

## Model

| member | source | states |
|---|---|---|
| CricketStats.CricketStatsHelper.constructor | src/CricketStatsHelper.php:20-26 | the new helper's balls per over is the argument given |
| CricketStats.NewDefaultHelper | src/CricketStatsHelper.php:20-26 | a helper built with no argument counts 6 balls to the over |
| CricketStats.CricketStatsHelper.GetBallsPerOver | src/CricketStatsHelper.php:31-34 | reads the current balls per over; the constructor and setter rows state what it then returns |
| CricketStats.CricketStatsHelper.SetBallsPerOver | src/CricketStatsHelper.php:39-45 | afterwards the getter returns the new value; only that field may change |
| CricketStats.ResetOverLength | src/CricketStatsHelper.php:39-65 | after the setter, converting scorecard text counts overs of the new length |
| CricketStats.CricketStatsHelper.ConvertOversToBalls | src/CricketStatsHelper.php:55-65 | error with its message exactly when the text is not numeric; otherwise the whole part times balls per over plus the digits after the point read as an integer, with no check against the over length |
| CricketStats.FMod | src/CricketStatsHelper.php:75 | `fmod` of whole numbers: the dividend minus the result is a multiple of the divisor, and the result lies in [0, b) for a non-negative dividend and in (-b, 0] for a negative one, which fixes it |
| CricketStats.CricketStatsHelper.ConvertBallsToOvers | src/CricketStatsHelper.php:73-81 | for a non-negative count: the whole overs plus the balls left over as tenths; one formula covers both branches |
| CricketStats.CricketStatsHelper.ConvertBallsToDecimal | src/CricketStatsHelper.php:168-171 | the overs as a fraction: multiplied by balls per over, they give the balls back |
| CricketStats.CricketStatsHelper.CalculateBattingAverage | src/CricketStatsHelper.php:94-113 | error with its message exactly when not-outs exceed innings; `false` exactly when there was no dismissal; otherwise a figure that, times the dismissals, gives the runs, and is non-negative for non-negative runs |
| CricketStats.CricketStatsHelper.CalculateBowlingAverage | src/CricketStatsHelper.php:124-136 | `false` exactly when no wicket fell; otherwise a figure that, times the wickets, gives the runs, and is non-negative for non-negative runs and wickets |
| CricketStats.CricketStatsHelper.CalculateBowlingEconomy | src/CricketStatsHelper.php:145-159 | error with its message exactly when the overs text is not numeric; `false` exactly when the overs convert to zero balls; otherwise a figure that, times the balls bowled, gives the runs times the over length: runs per true over, not per scorecard value |
| CricketStats.CricketStatsHelper.RunsPerOver | src/CricketStatsHelper.php:156-158 | runs divided by the overs as an ordinary fraction, times the balls, is the runs times the over length |
| CricketStats.SomeBallBowled | src/CricketStatsHelper.php:153-157 | at a positive over length, numeric overs text is non-zero exactly when it converts to at least one ball, so the `$overs == 0` test is the no-ball test and the division never meets zero |
| CricketStats.OversRoundTrip | src/CricketStatsHelper.php:55-81 | at any positive over length, with B a single digit below it, "W.B" (and "W" when B is 0) converts to W overs and B balls, and those balls convert back to W + B/10 |
| CricketStats.MixedToOvers | src/CricketStatsHelper.php:73-81 | at any positive over length, W overs and B < ballsPerOver balls print as W + B/10 |
| CricketStats.BallsRoundTrip | src/CricketStatsHelper.php:55-81 | up to ten balls per over, every ball count converted to scorecard notation, written as one-decimal text, and read back gives the same count (in exact arithmetic) |
| CricketStats.BallsRoundTripFailsAboveTen | src/CricketStatsHelper.php:80 | from eleven balls per over the notation breaks: 10 balls become 1.0, which reads back as a whole over |
| CricketStats.ConversionTable | tests/CricketStatsHelperTest.php:19-66 | at 6 balls per over, every pair of the tests' conversion table holds in both directions |
| CricketStats.StatisticsTables | tests/CricketStatsHelperTest.php:68-171 | at 6 balls per over, every row of the tests' batting-average, bowling-average and economy tables holds |
| Numeric.IsNumeric | src/CricketStatsHelper.php:57 | the `is_numeric` test on the overs text, for decimal text: digits, optionally one point and more digits |
| Numeric.Explode | src/CricketStatsHelper.php:60 | `explode(".", ...)`: at least one piece, and no piece contains a point |
| Numeric.NumericValue | src/CricketStatsHelper.php:153 | the value PHP compares with 0: whole part plus the digits after the point as a decimal fraction; never negative |
| Numeric.NumericZero | src/CricketStatsHelper.php:153 | a numeric string equals 0 exactly when its whole part and its digits after the point are both 0 |
| Numeric.ExplodeNumeric | src/CricketStatsHelper.php:60-64 | `explode` on a numeric string gives the whole string, or the whole part and the digits after the point |
| Numeric.ImplodeExplode | src/CricketStatsHelper.php:60 | joining the pieces `explode` makes with points gives the original string back |
| Numeric.ExplodeCount | src/CricketStatsHelper.php:60-61 | `explode` makes one more piece than the string has points |
| Numeric.NatToStringValue | src/CricketStatsHelper.php:60-64 | reading back the decimal text of a number gives the number |
| Numeric.OneDecimalText | src/CricketStatsHelper.php:60 | the text of a float with at most one decimal place is numeric, has that value, reads back as its floor and its tenths digit, has no point when the tenths are 0, and otherwise exactly one digit after the point |
| Numeric.TenthsText | src/CricketStatsHelper.php:60-64 | the text "W" or "W.D" reads back as whole part W and digit D, with a point exactly when D is not 0 and then one digit after it |

## Left out

- The `is_int` type checks and their exceptions are not modelled. Parameters are Dafny `int`s, so these checks cannot fail. This leaves the bowling average with no error outcome.
- `is_numeric` is modelled only for non-negative decimal text: digits, or digits, one point and more digits. The model treats other text as not numeric. In PHP, signs, exponents, surrounding whitespace, ".5" and "5." are numeric.
- PHP's loose typing of the overs argument is not modelled. The overs are always text. An int or float argument is its text as PHP would print it. `OneDecimalText` gives that text for floats with at most one decimal place, which are the only floats scorecard notation produces.
- OneDecimalText: PHP prints floats with its `precision` setting (14 significant digits by default). From about 1e13 the tenths digit is rounded away, and from 1e14 PHP prints exponent form such as "1.0E+14". The model writes every value exactly, so BallsRoundTrip holds in exact arithmetic only, not for such large counts.
- IEEE floating point is not modelled: no rounding, and no `(float)` casts. Results are exact `real`s and ball counts are `int`s.
- ConvertBallsToOvers, ConvertBallsToDecimal and CalculateBowlingEconomy require a positive balls per over. The PHP class never rejects zero or a negative value, and with zero it divides by zero.
- ConvertBallsToOvers: its contract states the result only for non-negative ball counts. For negative counts the body follows `fmod`'s truncated remainder, but no closed form is stated. Non-integer ball counts are not modelled.
- BallsRoundTrip requires at most ten balls per over. The balls-to-text-to-balls round trip holds up to ten, not only up to nine. From eleven it fails, as BallsRoundTripFailsAboveTen shows. The encoding is kept as written. The other direction, OversRoundTrip, holds at any positive over length for a single-digit B.
- The strike rate is not modelled. The tests call a `calculateStrikeRate` method that the class does not define.
- The PHPUnit scaffolding is not modelled. Its data tables appear as the ConversionTable and StatisticsTables lemmas.
