/** Choosing the scale of a group of weights: codes are assigned to the nearest level and the scale
    refitted to the assignment, in turn.  Arithmetic is over the reals. */
module ScaleFit {
  import opened LowBitCodes
  import Seals

  predicate IsLevel(q: int, f: Format) {
    match f
    case W2 => q == -3 || q == -1 || q == 1 || q == 3
    case W3 => -4 <= q <= 3
    case W4 => -8 <= q <= 7
  }

  function Abs(x: real): (r: real)
    ensures r >= 0.0 && (r == x || r == -x)
  {
    if x < 0.0 then -x else x
  }

  /** The first of the four levels with the smallest distance. */
  function NearestW2(n: real): int {
    var a := if Abs(n + 1.0) < Abs(n + 3.0) then -1 else -3;
    var b := if Abs(n - 1.0) < Abs(n - a as real) then 1 else a;
    if Abs(n - 3.0) < Abs(n - b as real) then 3 else b
  }

  /** Rounding to the nearest integer, ties to the even one. */
  function NearbyInt(n: real): int {
    var low := n.Floor;
    if n - low as real < 0.5 then low
    else if n - low as real > 0.5 then low + 1
    else if low % 2 == 0 then low else low + 1
  }

  function Clamp(q: int, low: int, high: int): int {
    if q < low then low else if q > high then high else q
  }

  /** The level of a value given in units of the scale. */
  function LevelFor(n: real, f: Format): (q: int)
    ensures IsLevel(q, f)
  {
    match f
    case W2 => NearestW2(n)
    case W3 => Clamp(NearbyInt(n), -4, 3)
    case W4 => Clamp(NearbyInt(n), -8, 7)
  }

  /** The level encode_value assigns. */
  function LevelOf(value: real, scale: real, f: Format): (q: int)
    ensures IsLevel(q, f)
  {
    LevelFor(if scale == 0.0 then 0.0 else value / scale, f)
  }

  lemma NearbyIsNearest(n: real, q: int)
    ensures Abs(n - NearbyInt(n) as real) <= Abs(n - q as real) && Abs(n - NearbyInt(n) as real) <= 0.5
  {
    var low := n.Floor;
    assert low as real <= n < low as real + 1.0;
    if q <= low {
      assert q as real <= low as real;
    } else {
      assert q as real >= low as real + 1.0;
    }
  }

  lemma ClampIsNearest(n: real, low: int, high: int, q: int)
    requires low <= q <= high
    ensures Abs(n - Clamp(NearbyInt(n), low, high) as real) <= Abs(n - q as real)
  {
    NearbyIsNearest(n, q);
    NearbyIsNearest(n, Clamp(NearbyInt(n), low, high));
    var r := NearbyInt(n);
    if r < low {
      assert r as real <= low as real - 1.0 && q as real >= low as real;
    } else if r > high {
      assert r as real >= high as real + 1.0 && q as real <= high as real;
    }
  }

  /** The assigned level is nearest among all levels of the format. */
  lemma LevelIsNearest(n: real, f: Format, q: int)
    requires IsLevel(q, f)
    ensures Abs(n - LevelFor(n, f) as real) <= Abs(n - q as real)
  {
    match f
    case W2 =>
    case W3 => ClampIsNearest(n, -4, 3, q);
    case W4 => ClampIsNearest(n, -8, 7, q);
  }

  /** It has the sign of the value, and is zero only for values within half a scale; a two-bit level
      is never zero. */
  lemma LevelSign(n: real, f: Format)
    ensures var q := LevelFor(n, f);
            && (n > 0.0 ==> q >= 0) && (n < 0.0 ==> q <= 0) && (f == W2 ==> q != 0)
            && (q == 0 ==> -0.5 <= n <= 0.5) && (n == 0.0 && f != W2 ==> q == 0)
  {
    NearbyIsNearest(n, 0);
    var r := NearbyInt(n);
    assert n > 0.0 ==> r as real > -0.5;
    assert n < 0.0 ==> (r as real) < 0.5;
  }

  lemma Quotient(value: real, scale: real)
    requires scale > 0.0
    ensures var n := value / scale;
            n * scale == value && (value > 0.0 <==> n > 0.0) && (value < 0.0 <==> n < 0.0)
  {
    var n := value / scale;
    assert n * scale == value;
  }

  // ---- error of a scale and an assignment

  function Levels(values: seq<real>, scale: real, f: Format): (r: seq<int>)
    ensures |r| == |values| && forall i | 0 <= i < |r| :: IsLevel(r[i], f)
  {
    var r := seq(|values|, i requires 0 <= i < |values| => LevelOf(values[i], scale, f));
    assert forall i | 0 <= i < |r| :: r[i] == LevelOf(values[i], scale, f);
    r
  }

  function Square(x: real): (r: real)
    ensures r >= 0.0
  {
    x * x
  }

  /** The squared error of a group under a scale and an assignment of levels. */
  function SquaredError(values: seq<real>, scale: real, levels: seq<int>): real
    requires |levels| == |values|
  {
    if values == [] then 0.0
    else
      var n := |values| - 1;
      SquaredError(values[..n], scale, levels[..n]) + Square(values[n] - scale * levels[n] as real)
  }

  /** The group's reconstruction error under a scale. */
  function Error(values: seq<real>, scale: real, f: Format): real {
    SquaredError(values, scale, Levels(values, scale, f))
  }

  function Numerator(values: seq<real>, levels: seq<int>): real
    requires |levels| == |values|
  {
    if values == [] then 0.0
    else
      var n := |values| - 1;
      Numerator(values[..n], levels[..n]) + values[n] * levels[n] as real
  }

  function Denominator(levels: seq<int>): real {
    if levels == [] then 0.0
    else
      var n := |levels| - 1;
      Denominator(levels[..n]) + levels[n] as real * levels[n] as real
  }

  // ---- one refit

  /** Moving from the levels of one assignment to nearer ones does not increase the error. */
  lemma NearerSquare(a: real, b: real)
    requires Abs(a) <= Abs(b)
    ensures Square(a) <= Square(b)
  {
    SameSquare(a, Abs(a));
    SameSquare(b, Abs(b));
    SquaresGrow(Abs(a), Abs(b));
  }

  lemma SameSquare(a: real, x: real)
    requires x == a || x == -a
    ensures a * a == x * x
  {
  }

  lemma SquaresGrow(x: real, y: real)
    requires 0.0 <= x <= y
    ensures x * x <= y * y
  {
    Grow(x, y, x);
    Grow(x, y, y);
  }

  lemma Grow(x: real, y: real, z: real)
    requires x <= y && z >= 0.0
    ensures z * x <= z * y && x * z <= y * z
  {
    assert z * (y - x) >= 0.0;
  }

  /** Level a leaves at most the error that level b leaves. */
  ghost predicate NearerLevel(value: real, scale: real, a: real, b: real) {
    forall seal {:trigger Seals.Opened(seal)} | Seals.Opened(seal) && seal == Seals.Fit ::
      Square(value - scale * a) <= Square(value - scale * b)
  }

  /** The error that a level leaves, behind the same seal. */
  ghost predicate IsTerm(e: real, value: real, scale: real, q: real) {
    forall seal {:trigger Seals.Opened(seal)} | Seals.Opened(seal) && seal == Seals.Fit ::
      e == Square(value - scale * q)
  }

  lemma TermsOf(value: real, scale: real, a: real, b: real) returns (x: real, y: real)
    requires NearerLevel(value, scale, a, b)
    ensures IsTerm(x, value, scale, a) && IsTerm(y, value, scale, b) && x <= y
  {
    x, y := Square(value - scale * a), Square(value - scale * b);
    assert Seals.Opened(Seals.Fit);
  }

  lemma ScaledSquare(value: real, scale: real, n: real, a: real, b: real)
    requires n * scale == value && Abs(n - a) <= Abs(n - b)
    ensures Square(value - scale * a) <= Square(value - scale * b)
  {
    NearerSquare(n - a, n - b);
    ScaledDistance(value, scale, n, a);
    ScaledDistance(value, scale, n, b);
    Grow(Square(n - a), Square(n - b), Square(scale));
  }

  lemma ScaledNearer(value: real, scale: real, n: real, a: real, b: real)
    requires n * scale == value && Abs(n - a) <= Abs(n - b)
    ensures NearerLevel(value, scale, a, b)
  {
    ScaledSquare(value, scale, n, a, b);
  }

  lemma ScaledDistance(v: real, s: real, n: real, q: real)
    requires n * s == v
    ensures Square(v - s * q) == Square(s) * Square(n - q)
  {
    assert v - s * q == s * (n - q);
    SquareProduct(s, n - q);
  }

  lemma SquareProduct(s: real, a: real)
    ensures Square(s * a) == Square(s) * Square(a)
  {
  }

  /** The error of an assignment, behind the same seal. */
  ghost predicate IsError(e: real, values: seq<real>, scale: real, levels: seq<int>) {
    && |levels| == |values|
    && forall seal {:trigger Seals.Opened(seal)} | Seals.Opened(seal) && seal == Seals.Fit ::
         e == SquaredError(values, scale, levels)
  }

  lemma NoError(scale: real)
    ensures IsError(0.0, [], scale, [])
  {
  }

  lemma OneMoreTerm(values: seq<real>, scale: real, levels: seq<int>, n: nat, e: real, d: real, sum: real)
    requires |values| == |levels| == n + 1 && IsError(e, values[..n], scale, levels[..n])
    requires IsTerm(d, values[n], scale, levels[n] as real) && sum == e + d
    ensures IsError(sum, values, scale, levels)
  {
    assert Seals.Opened(Seals.Fit);
  }

  lemma {:induction false} ErrorsInOrder(values: seq<real>, scale: real, a: seq<int>, b: seq<int>)
    returns (x: real, y: real)
    requires |a| == |b| == |values|
    requires forall i | 0 <= i < |values| :: NearerLevel(values[i], scale, a[i] as real, b[i] as real)
    ensures IsError(x, values, scale, a) && IsError(y, values, scale, b) && x <= y
  {
    if values == [] {
      NoError(scale);
      x, y := 0.0, 0.0;
    } else {
      var n := |values| - 1;
      var e, f := ErrorsInOrder(values[..n], scale, a[..n], b[..n]);
      var d, g := TermsOf(values[n], scale, a[n] as real, b[n] as real);
      x, y := e + d, f + g;
      OneMoreTerm(values, scale, a, n, e, d, x);
      OneMoreTerm(values, scale, b, n, f, g, y);
    }
  }

  lemma {:induction false} ErrorIs(e: real, values: seq<real>, scale: real, levels: seq<int>)
    requires IsError(e, values, scale, levels)
    ensures e == SquaredError(values, scale, levels)
  {
    assert Seals.Opened(Seals.Fit);
  }

  lemma {:induction false} SquaredErrorMonotone(values: seq<real>, scale: real, a: seq<int>, b: seq<int>)
    requires |a| == |b| == |values|
    requires forall i | 0 <= i < |values| :: NearerLevel(values[i], scale, a[i] as real, b[i] as real)
    ensures SquaredError(values, scale, a) <= SquaredError(values, scale, b)
  {
    var x, y := ErrorsInOrder(values, scale, a, b);
    ErrorIs(x, values, scale, a);
    ErrorIs(y, values, scale, b);
  }

  ghost predicate NearestAt(value: real, scale: real, f: Format, level: int)
    requires scale != 0.0
  {
    forall seal {:trigger Seals.Opened(seal)} | Seals.Opened(seal) && seal == Seals.Fit ::
      forall q | IsLevel(q, f) :: Abs(value / scale - level as real) <= Abs(value / scale - q as real)
  }

  /** An assignment of nearest levels. */
  ghost predicate Nearest(values: seq<real>, scale: real, f: Format, levels: seq<int>)
    requires scale != 0.0
  {
    |levels| == |values| && forall i | 0 <= i < |values| :: NearestAt(values[i], scale, f, levels[i])
  }

  lemma LevelsAreNearest(values: seq<real>, scale: real, f: Format)
    requires scale != 0.0
    ensures Nearest(values, scale, f, Levels(values, scale, f))
  {
    forall i | 0 <= i < |values|
      ensures NearestAt(values[i], scale, f, Levels(values, scale, f)[i])
    {
      AssignedIsNearest(values[i], scale, f);
    }
  }

  lemma AssignedIsNearest(value: real, scale: real, f: Format)
    requires scale != 0.0
    ensures NearestAt(value, scale, f, LevelOf(value, scale, f))
  {
    forall q | IsLevel(q, f)
      ensures Abs(value / scale - LevelOf(value, scale, f) as real) <= Abs(value / scale - q as real)
    {
      LevelIsNearest(value / scale, f, q);
    }
  }

  lemma NearerError(value: real, scale: real, f: Format, nearest: int, level: int)
    requires scale > 0.0 && NearestAt(value, scale, f, nearest) && IsLevel(level, f)
    ensures NearerLevel(value, scale, nearest as real, level as real)
  {
    Quotient(value, scale);
    Nearer(value, scale, f, nearest, level);
    ScaledNearer(value, scale, value / scale, nearest as real, level as real);
  }

  lemma Nearer(value: real, scale: real, f: Format, nearest: int, level: int)
    requires scale > 0.0 && NearestAt(value, scale, f, nearest) && IsLevel(level, f)
    ensures Abs(value / scale - nearest as real) <= Abs(value / scale - level as real)
  {
    assert Seals.Opened(Seals.Fit);
  }

  /** Among all assignments, nearest levels have the smallest error. */
  lemma {:induction false} NearestMinimizes(values: seq<real>, scale: real, f: Format, nearest: seq<int>,
                                            levels: seq<int>)
    requires scale > 0.0 && Nearest(values, scale, f, nearest)
    requires |levels| == |values| && forall i | 0 <= i < |levels| :: IsLevel(levels[i], f)
    ensures SquaredError(values, scale, nearest) <= SquaredError(values, scale, levels)
  {
    forall i | 0 <= i < |values|
      ensures NearerLevel(values[i], scale, nearest[i] as real, levels[i] as real)
    {
      NearerError(values[i], scale, f, nearest[i], levels[i]);
    }
    SquaredErrorMonotone(values, scale, nearest, levels);
  }

  /** The error of an assignment as a quadratic in the scale. */
  lemma {:induction false} ErrorIsQuadratic(values: seq<real>, scale: real, levels: seq<int>)
    requires |levels| == |values|
    ensures SquaredError(values, scale, levels)
         == SquaredError(values, 0.0, levels) - 2.0 * scale * Numerator(values, levels)
           + scale * scale * Denominator(levels)
  {
    if values != [] {
      var n := |values| - 1;
      ErrorIsQuadratic(values[..n], scale, levels[..n]);
      TermIsQuadratic(values[n], scale, levels[n] as real);
      Expand(scale, Numerator(values[..n], levels[..n]), values[n] * levels[n] as real,
             Denominator(levels[..n]), levels[n] as real * levels[n] as real);
    }
  }

  lemma TermIsQuadratic(v: real, s: real, q: real)
    ensures Square(v - s * q) == Square(v - 0.0 * q) - 2.0 * s * (v * q) + s * s * (q * q)
  {
  }

  lemma Expand(s: real, a: real, b: real, c: real, d: real)
    ensures 2.0 * s * (a + b) == 2.0 * s * a + 2.0 * s * b
    ensures s * s * (c + d) == s * s * c + s * s * d
  {
  }

  /** The refitted scale minimizes that quadratic. */
  lemma RefitMinimizes(values: seq<real>, scale: real, levels: seq<int>)
    requires |levels| == |values| && Denominator(levels) > 0.0
    ensures SquaredError(values, Numerator(values, levels) / Denominator(levels), levels)
            <= SquaredError(values, scale, levels)
  {
    var num, den := Numerator(values, levels), Denominator(levels);
    var fit := num / den;
    assert fit * den == num;
    ErrorIsQuadratic(values, scale, levels);
    ErrorIsQuadratic(values, fit, levels);
    Parabola(num, den, fit, scale);
  }

  lemma PositiveProduct(a: real, b: real)
    requires a > 0.0 && b >= 0.0
    ensures a * b >= 0.0 && (b > 0.0 ==> a * b > 0.0)
  {
  }

  lemma EqualFactors(a: real, b: real)
    requires a == b
    ensures a * b >= 0.0 && (a != 0.0 ==> a * b > 0.0)
  {
    if a > 0.0 {
      PositiveProduct(a, b);
    } else if a < 0.0 {
      PositiveProduct(-a, -b);
    }
  }

  lemma Weighted(den: real, a: real, b: real)
    requires a == b && den > 0.0
    ensures den * (a * b) >= 0.0 && (a != 0.0 ==> den * (a * b) > 0.0)
  {
    EqualFactors(a, b);
    PositiveProduct(den, a * b);
  }

  lemma ParabolaGap(num: real, den: real, fit: real, s: real, d: real, e: real)
    requires fit * den == num && d == e == s - fit
    ensures s * s * den - 2.0 * s * num == fit * fit * den - 2.0 * fit * num + den * (d * e)
  {
    assert den * (d * e) == s * s * den - 2.0 * s * (fit * den) + fit * (fit * den);
    assert fit * fit * den == fit * (fit * den);
  }

  lemma Parabola(num: real, den: real, fit: real, s: real)
    requires den > 0.0 && fit * den == num
    ensures s * s * den - 2.0 * s * num >= fit * fit * den - 2.0 * fit * num
    ensures s != fit ==> s * s * den - 2.0 * s * num > fit * fit * den - 2.0 * fit * num
  {
    ParabolaGap(num, den, fit, s, s - fit, s - fit);
    Weighted(den, s - fit, s - fit);
  }

  /** The one scale with the smallest error for an assignment. */
  ghost predicate BestScale(values: seq<real>, levels: seq<int>, scale: real) {
    && |levels| == |values|
    && forall s: real | s != scale :: SquaredError(values, scale, levels) < SquaredError(values, s, levels)
  }

  /** The quotient of the two sums is that scale. */
  lemma {:induction false} QuotientIsBest(values: seq<real>, levels: seq<int>)
    requires |levels| == |values| && Denominator(levels) > 0.0
    ensures BestScale(values, levels, Numerator(values, levels) / Denominator(levels))
  {
    var num, den := Numerator(values, levels), Denominator(levels);
    var fit := num / den;
    assert fit * den == num;
    forall s: real | s != fit
      ensures SquaredError(values, fit, levels) < SquaredError(values, s, levels)
    {
      FitIsBelow(values, levels, num, den, fit, s);
    }
  }

  lemma {:induction false} FitIsBelow(values: seq<real>, levels: seq<int>, num: real, den: real, fit: real, s: real)
    requires |levels| == |values| && num == Numerator(values, levels) && den == Denominator(levels) > 0.0
    requires fit * den == num && s != fit
    ensures SquaredError(values, fit, levels) < SquaredError(values, s, levels)
  {
    ErrorIsQuadratic(values, s, levels);
    ErrorIsQuadratic(values, fit, levels);
    Below(SquaredError(values, 0.0, levels), num, den, fit, s, SquaredError(values, fit, levels),
          SquaredError(values, s, levels));
  }

  lemma Below(zero: real, num: real, den: real, fit: real, s: real, least: real, other: real)
    requires den > 0.0 && fit * den == num && s != fit
    requires least == zero - 2.0 * fit * num + fit * fit * den && other == zero - 2.0 * s * num + s * s * den
    ensures least < other
  {
    Parabola(num, den, fit, s);
  }

  /** The scale refitted to the levels a scale assigns. */
  function Refit(values: seq<real>, scale: real, f: Format): real
    requires Denominator(Levels(values, scale, f)) != 0.0
  {
    Numerator(values, Levels(values, scale, f)) / Denominator(Levels(values, scale, f))
  }

  predicate Nonzero(values: seq<real>) {
    exists i :: 0 <= i < |values| && values[i] != 0.0
  }

  /** Some weight of the group has a nonzero level. */
  predicate Used(levels: seq<int>) {
    exists i :: 0 <= i < |levels| && levels[i] != 0
  }

  lemma {:induction false} DenominatorPositive(levels: seq<int>)
    ensures Denominator(levels) >= 0.0 && (Used(levels) ==> Denominator(levels) >= 1.0)
  {
    if levels != [] {
      var n := |levels| - 1;
      DenominatorPositive(levels[..n]);
      IntegerSquare(levels[n]);
      if levels[n] == 0 && Used(levels) {
        var i :| 0 <= i < |levels| && levels[i] != 0;
        assert levels[..n][i] != 0;
      }
    }
  }

  lemma IntegerSquare(q: int)
    ensures q as real * q as real >= 0.0 && (q != 0 ==> q as real * q as real >= 1.0)
    ensures Abs(q as real) <= q as real * q as real
  {
    if q > 0 {
      assert q as real >= 1.0;
      Grow(1.0, q as real, q as real);
    } else if q < 0 {
      assert q as real <= -1.0;
      Grow(1.0, -(q as real), -(q as real));
    }
  }

  // ---- what one refit keeps

  /** The invariant of the iteration: a positive scale under which some weight has a nonzero level. */
  ghost predicate Fitted(values: seq<real>, scale: real, f: Format) {
    scale > 0.0 && Used(Levels(values, scale, f))
  }

  /** Levels with the signs of the values. */
  ghost predicate Signed(values: seq<real>, levels: seq<int>) {
    |levels| == |values| && forall i | 0 <= i < |values| :: SignedAt(values[i], levels[i])
  }

  ghost predicate SignedAt(value: real, level: int) {
    (value > 0.0 ==> level >= 0) && (value < 0.0 ==> level <= 0)
  }

  lemma SignedProduct(value: real, level: int)
    requires SignedAt(value, level)
    ensures value * level as real >= 0.0 && (value != 0.0 && level != 0 ==> value * level as real > 0.0)
  {
  }

  lemma {:induction false} NumeratorPositive(values: seq<real>, levels: seq<int>)
    requires Signed(values, levels)
    ensures Numerator(values, levels) >= 0.0
    ensures (exists i :: 0 <= i < |values| && values[i] != 0.0 && levels[i] != 0) ==> Numerator(values, levels) > 0.0
  {
    if values != [] {
      var n := |values| - 1;
      NumeratorPositive(values[..n], levels[..n]);
      SignedProduct(values[n], levels[n]);
      if i :| 0 <= i < |values| && values[i] != 0.0 && levels[i] != 0 {
        if i < n {
          assert values[..n][i] != 0.0 && levels[..n][i] != 0;
        }
      }
    }
  }

  lemma LevelsAreSigned(values: seq<real>, scale: real, f: Format)
    requires scale > 0.0
    ensures Signed(values, Levels(values, scale, f))
  {
    forall i | 0 <= i < |values|
      ensures SignedAt(values[i], Levels(values, scale, f)[i])
    {
      Quotient(values[i], scale);
      LevelSign(values[i] / scale, f);
    }
  }

  ghost predicate Within(values: seq<real>, bound: real) {
    forall i | 0 <= i < |values| :: -bound <= values[i] <= bound
  }

  /** If every value is within a bound, so is what the levels fit. */
  lemma {:induction false} SmallNumerator(values: seq<real>, bound: real, levels: seq<int>)
    requires |levels| == |values| && Within(values, bound)
    ensures AtMost(Numerator(values, levels), bound, Denominator(levels))
  {
    if values == [] {
      assert bound * 0.0 == 0.0;
    } else {
      var n := |values| - 1;
      SmallNumerator(values[..n], bound, levels[..n]);
      SmallNumeratorStep(values, bound, levels, n);
    }
  }

  lemma {:induction false} SmallNumeratorStep(values: seq<real>, bound: real, levels: seq<int>, n: nat)
    requires n + 1 == |levels| == |values| && -bound <= values[n] <= bound
    requires AtMost(Numerator(values[..n], levels[..n]), bound, Denominator(levels[..n]))
    ensures AtMost(Numerator(values, levels), bound, Denominator(levels))
  {
    var b, d := LastTerms(values, bound, levels, n);
    BoundAdds(Numerator(values[..n], levels[..n]), b, Denominator(levels[..n]), d, bound, Numerator(values, levels),
              Denominator(levels));
  }

  /** The last terms of the two sums. */
  lemma LastTerms(values: seq<real>, bound: real, levels: seq<int>, n: nat) returns (b: real, d: real)
    requires n + 1 == |levels| == |values| && -bound <= values[n] <= bound
    ensures Numerator(values, levels) == Numerator(values[..n], levels[..n]) + b
    ensures Denominator(levels) == Denominator(levels[..n]) + d && AtMost(b, bound, d)
  {
    b, d := values[n] * levels[n] as real, levels[n] as real * levels[n] as real;
    SmallProduct(values[n], bound, levels[n]);
  }

  ghost predicate AtMost(num: real, bound: real, den: real) {
    forall seal {:trigger Seals.Opened(seal)} | Seals.Opened(seal) && seal == Seals.Fit :: num <= bound * den
  }

  lemma BoundAdds(a: real, b: real, c: real, d: real, bound: real, num: real, den: real)
    requires AtMost(a, bound, c) && AtMost(b, bound, d) && num == a + b && den == c + d
    ensures AtMost(num, bound, den)
  {
    assert Seals.Opened(Seals.Fit);
    Split(bound, c, d);
  }

  lemma Split(s: real, a: real, b: real)
    ensures s * (a + b) == s * a + s * b
  {
  }

  lemma SmallProduct(value: real, bound: real, level: int)
    requires -bound <= value <= bound
    ensures AtMost(value * level as real, bound, level as real * level as real)
  {
    var q := level as real;
    IntegerSquare(level);
    AbsProduct(value, q);
    Grow(Abs(value), bound, Abs(q));
    Grow(Abs(q), q * q, bound);
  }

  lemma AbsProduct(a: real, b: real)
    ensures a * b <= Abs(a) * Abs(b)
  {
  }

  /** A used group has a positive fit. */
  lemma RefitPositive(values: seq<real>, scale: real, f: Format)
    requires Fitted(values, scale, f) && Nonzero(values)
    ensures Denominator(Levels(values, scale, f)) >= 1.0 && Refit(values, scale, f) > 0.0
  {
    var levels := Levels(values, scale, f);
    DenominatorPositive(levels);
    LevelsAreSigned(values, scale, f);
    if f == W2 {
      var i :| 0 <= i < |values| && values[i] != 0.0;
      LevelSign(values[i] / scale, f);
      assert levels[i] == LevelOf(values[i], scale, f);
    } else {
      var i :| 0 <= i < |levels| && levels[i] != 0;
      Quotient(values[i], scale);
      LevelSign(values[i] / scale, f);
      assert levels[i] == LevelOf(values[i], scale, f);
    }
    NumeratorPositive(values, levels);
    PositiveQuotient(Numerator(values, levels), Denominator(levels));
  }

  lemma PositiveQuotient(a: real, b: real)
    requires a > 0.0 && b > 0.0
    ensures a / b > 0.0
  {
  }

  /** The fit uses some weight again: otherwise every weight would be within half the fit, and the
      fit within half of itself. */
  lemma RefitUsed(values: seq<real>, scale: real, f: Format)
    requires Fitted(values, scale, f) && Nonzero(values)
    ensures Denominator(Levels(values, scale, f)) != 0.0 && Used(Levels(values, Refit(values, scale, f), f))
  {
    RefitPositive(values, scale, f);
    var levels, fit := Levels(values, scale, f), Refit(values, scale, f);
    if !Used(Levels(values, fit, f)) {
      UnusedIsSmall(values, fit, f);
      SmallNumerator(values, 0.5 * fit, levels);
      HalfFit(Numerator(values, levels), Denominator(levels), fit);
    }
  }

  lemma WithinHalf(value: real, scale: real, f: Format)
    requires scale > 0.0 && LevelOf(value, scale, f) == 0
    ensures Abs(value) <= 0.5 * scale
  {
    var n := value / scale;
    Quotient(value, scale);
    LevelSign(n, f);
    ScaledWithin(n, value, scale);
  }

  lemma ScaledWithin(n: real, value: real, scale: real)
    requires scale > 0.0 && n * scale == value && -0.5 <= n <= 0.5
    ensures Abs(value) <= 0.5 * scale
  {
    var above, below := 0.5 - n, n + 0.5;
    assert 0.0 <= above * scale == 0.5 * scale - value;
    assert 0.0 <= below * scale == value + 0.5 * scale;
  }

  lemma UnusedIsSmall(values: seq<real>, scale: real, f: Format)
    requires scale > 0.0 && !Used(Levels(values, scale, f))
    ensures Within(values, 0.5 * scale)
  {
    forall i | 0 <= i < |values|
      ensures -(0.5 * scale) <= values[i] <= 0.5 * scale
    {
      assert Levels(values, scale, f)[i] == LevelOf(values[i], scale, f);
      WithinHalf(values[i], scale, f);
    }
  }

  lemma HalfFit(num: real, den: real, fit: real)
    requires den > 0.0 && fit == num / den && fit > 0.0
    ensures !AtMost(num, 0.5 * fit, den)
  {
    assert Seals.Opened(Seals.Fit);
    assert fit * den == num;
    assert fit * den > 0.0;
  }

  /** Scale fitting descends: from a positive scale that uses some weight, one refit has a nonzero
      denominator, gives such a scale again, and does not increase the squared error. */
  lemma RefitDescends(values: seq<real>, scale: real, f: Format)
    requires Fitted(values, scale, f) && Nonzero(values)
    ensures Denominator(Levels(values, scale, f)) > 0.0
    ensures Fitted(values, Refit(values, scale, f), f)
    ensures Error(values, Refit(values, scale, f), f) <= Error(values, scale, f)
  {
    RefitPositive(values, scale, f);
    RefitUsed(values, scale, f);
    var levels, fit := Levels(values, scale, f), Refit(values, scale, f);
    RefitMinimizes(values, scale, levels);
    LevelsAreNearest(values, fit, f);
    NearestMinimizes(values, fit, f, Levels(values, fit, f), levels);
  }

  // ---- choose_scale

  function Divisor(f: Format): (r: real)
    ensures r >= 3.0
  {
    match f case W2 => 3.0 case W3 => 4.0 case W4 => 8.0
  }

  /** The smallest positive normal single-precision number, 2 to the -126. */
  const SMALLEST_NORMAL: real := 1.0 / 85070591730234615865843651857942052864.0

  function Larger(a: real, b: real): real {
    if a < b then b else a
  }

  /** The largest magnitude of the first n values. */
  function MaximumOf(values: seq<real>, n: nat): (r: real)
    requires n <= |values|
    ensures r >= 0.0 && forall i | 0 <= i < n :: Abs(values[i]) <= r
    ensures r != 0.0 ==> exists i :: 0 <= i < n && Abs(values[i]) == r
  {
    if n == 0 then 0.0 else Larger(MaximumOf(values, n - 1), Abs(values[n - 1]))
  }

  /** n refits in turn; an assignment that uses no weight stops them. */
  function Refits(values: seq<real>, scale: real, f: Format, n: nat): real {
    if n == 0 then scale
    else
      var before := Refits(values, scale, f, n - 1);
      if Denominator(Levels(values, before, f)) == 0.0 then before else Refit(values, before, f)
  }

  function FirstScale(values: seq<real>, f: Format): real {
    MaximumOf(values, |values|) / Divisor(f)
  }

  /** The scale of a group: four refits from the scale that the largest weight calls for, and no
      less than the smallest normal number. */
  function ChosenScale(values: seq<real>, f: Format): real {
    if MaximumOf(values, |values|) == 0.0 then 1.0
    else Larger(Refits(values, FirstScale(values, f), f, 4), SMALLEST_NORMAL)
  }

  /** The largest weight has a nonzero level under the first scale. */
  lemma {:induction false} FirstScaleFitted(values: seq<real>, f: Format)
    requires MaximumOf(values, |values|) != 0.0
    ensures Fitted(values, FirstScale(values, f), f) && Nonzero(values)
  {
    var maximum, first := MaximumOf(values, |values|), FirstScale(values, f);
    var i :| 0 <= i < |values| && Abs(values[i]) == maximum;
    LargestLevel(values[i], maximum, first, f);
    assert Levels(values, first, f)[i] == LevelOf(values[i], first, f);
    assert values[i] != 0.0;
  }

  lemma LargestLevel(value: real, maximum: real, first: real, f: Format)
    requires Abs(value) == maximum > 0.0 && first == maximum / Divisor(f)
    ensures first > 0.0 && LevelOf(value, first, f) != 0
  {
    assert first * Divisor(f) == maximum;
    PositiveQuotient(maximum, Divisor(f));
    Grow(3.0, Divisor(f), first);
    if LevelOf(value, first, f) == 0 {
      WithinHalf(value, first, f);
    }
  }

  lemma {:induction false} RefitsFitted(values: seq<real>, first: real, f: Format, n: nat)
    requires Fitted(values, first, f) && Nonzero(values)
    ensures Fitted(values, Refits(values, first, f, n), f)
  {
    if n > 0 {
      RefitsFitted(values, first, f, n - 1);
      RefitDescends(values, Refits(values, first, f, n - 1), f);
    }
  }

  /** Over any number of refits no denominator is zero, and the error never increases. */
  lemma {:induction false} RefitsDescend(values: seq<real>, first: real, f: Format, n: nat)
    requires Fitted(values, first, f) && Nonzero(values)
    ensures Denominator(Levels(values, Refits(values, first, f, n), f)) > 0.0
    ensures NoWorse(values, first, f, n + 1, n)
  {
    RefitsFitted(values, first, f, n);
    RefitDescends(values, Refits(values, first, f, n), f);
  }

  /** The group and the first scale allow a refit; behind a seal. */
  ghost predicate Improvable(values: seq<real>, first: real, f: Format) {
    forall seal {:trigger Seals.Opened(seal)} | Seals.Opened(seal) && seal == Seals.Fit ::
        Fitted(values, first, f) && Nonzero(values)
  }

  lemma OneMoreRefit(values: seq<real>, first: real, f: Format, before: nat, after: nat)
    requires Improvable(values, first, f) && after == before + 1
    ensures NoWorse(values, first, f, after, before)
  {
    assert Seals.Opened(Seals.Fit);
    RefitsDescend(values, first, f, before);
  }

  lemma {:induction false} RefitsImprove(values: seq<real>, first: real, f: Format, n: nat, from: nat)
    requires Improvable(values, first, f) && from <= n
    ensures NoWorse(values, first, f, n, from)
  {
    if n == from {
      NoWorseThanItself(values, first, f, n);
    } else {
      RefitsImprove(values, first, f, n - 1, from);
      OneMoreRefit(values, first, f, n - 1, n);
      NoWorseChains(values, first, f, n, n - 1, from);
    }
  }

  /** The error after a refits is at most that after b. */
  ghost predicate NoWorse(values: seq<real>, first: real, f: Format, a: nat, b: nat) {
    forall seal {:trigger Seals.Opened(seal)} | Seals.Opened(seal) && seal == Seals.Fit ::
        ErrorAfter(values, first, f, a) <= ErrorAfter(values, first, f, b)
  }

  lemma NoWorseThanItself(values: seq<real>, first: real, f: Format, n: nat)
    ensures NoWorse(values, first, f, n, n)
  {
  }

  lemma NoWorseChains(values: seq<real>, first: real, f: Format, a: nat, b: nat, c: nat)
    requires NoWorse(values, first, f, a, b) && NoWorse(values, first, f, b, c)
    ensures NoWorse(values, first, f, a, c)
  {
    assert Seals.Opened(Seals.Fit);
  }

  /** The error after n refits. */
  function ErrorAfter(values: seq<real>, first: real, f: Format, n: nat): real {
    Error(values, Refits(values, first, f, n), f)
  }

  /** The chosen scale is positive, and no worse than the first one unless the final clamp set it. */
  lemma {:induction false} ChosenScaleFits(values: seq<real>, f: Format)
    ensures ChosenScale(values, f) > 0.0
    ensures MaximumOf(values, |values|) != 0.0 && ChosenScale(values, f) != SMALLEST_NORMAL ==>
              Error(values, ChosenScale(values, f), f) <= Error(values, FirstScale(values, f), f)
  {
    if MaximumOf(values, |values|) != 0.0 {
      FirstScaleFitted(values, f);
      RefitsFitted(values, FirstScale(values, f), f, 4);
      RefitsImprove(values, FirstScale(values, f), f, 4, 0);
      assert Seals.Opened(Seals.Fit);
    }
  }

  /** What the fit is, without its formula: from the scale under which the largest weight reaches the
      end of the range, four times the one best scale for the levels that the scale before it assigns;
      the last is no less than the smallest normal number. */
  lemma FourFits(values: seq<real>, f: Format) returns (scales: seq<real>)
    requires MaximumOf(values, |values|) != 0.0
    ensures |scales| == 5 && scales[0] * Divisor(f) == MaximumOf(values, |values|)
    ensures forall i | 0 <= i < 4 :: BestScale(values, Levels(values, scales[i], f), scales[i + 1])
    ensures ChosenScale(values, f) == if scales[4] < SMALLEST_NORMAL then SMALLEST_NORMAL else scales[4]
  {
    var first := FirstScale(values, f);
    FirstScaleFitted(values, f);
    scales := seq(5, i requires 0 <= i < 5 => Refits(values, first, f, i));
    forall i | 0 <= i < 4
      ensures BestScale(values, Levels(values, scales[i], f), scales[i + 1])
    {
      NextIsBest(values, first, f, i, i + 1);
    }
  }

  lemma {:induction false} NextIsBest(values: seq<real>, first: real, f: Format, n: nat, next: nat)
    requires Fitted(values, first, f) && Nonzero(values) && next == n + 1
    ensures BestScale(values, Levels(values, Refits(values, first, f, n), f), Refits(values, first, f, next))
  {
    RefitsDescend(values, first, f, n);
    QuotientIsBest(values, Levels(values, Refits(values, first, f, n), f));
  }

  /** The chosen scale with its nearest levels is no worse than any scale whatever with the levels of
      the first scale, or of any scale on the way, unless the final clamp set it. */
  lemma {:induction false} ChosenBeatsEvery(values: seq<real>, f: Format, n: nat, scale: real)
    requires MaximumOf(values, |values|) != 0.0 && ChosenScale(values, f) != SMALLEST_NORMAL && n < 4
    ensures var on := Refits(values, FirstScale(values, f), f, n);
            Error(values, ChosenScale(values, f), f) <= SquaredError(values, scale, Levels(values, on, f))
    ensures Error(values, ChosenScale(values, f), f)
            <= SquaredError(values, scale, Levels(values, FirstScale(values, f), f))
  {
    var first := FirstScale(values, f);
    FirstScaleFitted(values, f);
    BeatsAtOnce(values, first, f, n, n + 1, scale);
    RefitsImprove(values, first, f, 4, n + 1);
    BeatsAtOnce(values, first, f, 0, 1, scale);
    RefitsImprove(values, first, f, 4, 1);
    assert Seals.Opened(Seals.Fit);
  }

  /** The error after the last refit is at most that of a scale with the levels of refit n; behind a
      seal. */
  ghost predicate Beats(values: seq<real>, first: real, f: Format, n: nat, last: nat, scale: real) {
    forall seal {:trigger Seals.Opened(seal)} | Seals.Opened(seal) && seal == Seals.Fit ::
        ErrorAfter(values, first, f, last)
          <= SquaredError(values, scale, Levels(values, Refits(values, first, f, n), f))
  }

  lemma BeatsAtOnce(values: seq<real>, first: real, f: Format, n: nat, next: nat, scale: real)
    requires Improvable(values, first, f) && next == n + 1
    ensures Beats(values, first, f, n, next, scale)
  {
    assert Seals.Opened(Seals.Fit);
    RefitsFitted(values, first, f, n);
    OneFitBeatsEvery(values, Refits(values, first, f, n), f, scale);
  }

  lemma {:induction false} OneFitBeatsEvery(values: seq<real>, before: real, f: Format, scale: real)
    requires Fitted(values, before, f) && Nonzero(values)
    ensures Denominator(Levels(values, before, f)) > 0.0
    ensures Error(values, Refit(values, before, f), f) <= SquaredError(values, scale, Levels(values, before, f))
  {
    RefitDescends(values, before, f);
    var levels, fit := Levels(values, before, f), Refit(values, before, f);
    RefitMinimizes(values, scale, levels);
    LevelsAreNearest(values, fit, f);
    NearestMinimizes(values, fit, f, Levels(values, fit, f), levels);
  }

  /** Under the first scale every weight is within the range of the levels, and the largest one is at
      its end: the divisor is the largest magnitude of a level. */
  lemma FirstScaleCovers(values: seq<real>, f: Format)
    requires values != []
    ensures forall i | 0 <= i < |values| :: Abs(values[i]) <= FirstScale(values, f) * Divisor(f)
    ensures exists i | 0 <= i < |values| :: Abs(values[i]) == FirstScale(values, f) * Divisor(f)
    ensures (forall q | IsLevel(q, f) :: Abs(q as real) <= Divisor(f))
            && exists q :: IsLevel(q, f) && Abs(q as real) == Divisor(f)
  {
    var maximum := MaximumOf(values, |values|);
    assert FirstScale(values, f) * Divisor(f) == maximum;
    if maximum == 0.0 {
      assert Abs(values[0]) == maximum;
    }
    var end := match f case W2 => 3 case W3 => -4 case W4 => -8;
    assert IsLevel(end, f) && Abs(end as real) == Divisor(f);
  }

  /** Halfway between two levels the even one is taken, of the two-bit levels the lower one. */
  lemma TiesGoTo(n: real)
    ensures Abs(n - NearbyInt(n) as real) == 0.5 ==> NearbyInt(n) % 2 == 0
    ensures forall q | IsLevel(q, W2) && Abs(n - q as real) == Abs(n - LevelFor(n, W2) as real) :: LevelFor(n, W2) <= q
  {
    NearbyIsNearest(n, 0);
  }

  /** encode_value followed by decode_value. */
  method AssignLevel(values: seq<real>, scale: real, f: Format, i: nat, ghost levels: seq<int>) returns (level: int)
    requires i < |values| == |levels| && levels == Levels(values, scale, f)
    ensures level == levels[i]
  {
    level := LevelOf(values[i], scale, f);
  }

  ghost predicate Summed(values: seq<real>, levels: seq<int>, i: nat, numerator: real, denominator: real)
    requires i <= |values| == |levels|
  {
    numerator == Numerator(values[..i], levels[..i]) && denominator == Denominator(levels[..i])
  }

  lemma SumsNext(values: seq<real>, levels: seq<int>, i: nat, numerator: real, denominator: real)
    requires i < |values| == |levels| && Summed(values, levels, i, numerator, denominator)
    ensures Summed(values, levels, i + 1, numerator + values[i] * levels[i] as real,
                   denominator + levels[i] as real * levels[i] as real)
  {
    assert values[..i + 1][..i] == values[..i] && levels[..i + 1][..i] == levels[..i];
  }

  lemma {:induction false} SumsDone(values: seq<real>, levels: seq<int>, numerator: real, denominator: real)
    requires |values| == |levels| && Summed(values, levels, |values|, numerator, denominator)
    ensures numerator == Numerator(values, levels) && denominator == Denominator(levels)
  {
    assert values[..|values|] == values && levels[..|values|] == levels;
  }

  method AddTerm(values: seq<real>, i: nat, level: int, numerator: real, denominator: real, ghost levels: seq<int>)
    returns (numerator': real, denominator': real)
    requires i < |values| == |levels| && level == levels[i] && Summed(values, levels, i, numerator, denominator)
    ensures Summed(values, levels, i + 1, numerator', denominator')
  {
    SumsNext(values, levels, i, numerator, denominator);
    numerator' := numerator + values[i] * level as real;
    denominator' := denominator + level as real * level as real;
  }

  /** One pass over the group. */
  method Sums(values: seq<real>, scale: real, f: Format, ghost levels: seq<int>)
    returns (numerator: real, denominator: real)
    requires levels == Levels(values, scale, f)
    ensures numerator == Numerator(values, levels) && denominator == Denominator(levels)
  {
    numerator, denominator := 0.0, 0.0;
    for i := 0 to |values|
      invariant Summed(values, levels, i, numerator, denominator)
    {
      var level := AssignLevel(values, scale, f, i, levels);
      numerator, denominator := AddTerm(values, i, level, numerator, denominator, levels);
    }
    SumsDone(values, levels, numerator, denominator);
  }

  /** One refit; the iteration stops at a denominator of zero, which never occurs. */
  method RefitScale(values: seq<real>, scale: real, f: Format, ghost first: real, ghost n: nat)
    returns (refitted: real, last: bool)
    requires Fitted(values, first, f) && Nonzero(values) && scale == Refits(values, first, f, n)
    ensures !last && refitted == Refits(values, first, f, n + 1)
  {
    var numerator, denominator := Sums(values, scale, f, Levels(values, scale, f));
    RefitsDescend(values, first, f, n);
    refitted, last := scale, denominator == 0.0;
    if !last {
      refitted := numerator / denominator;
    }
  }

  /** choose_scale. */
  method ChooseScale(values: seq<real>, maximum: real, f: Format) returns (scale: real)
    requires maximum == MaximumOf(values, |values|)
    ensures scale == ChosenScale(values, f)
  {
    if maximum == 0.0 { return 1.0; }
    scale := maximum / Divisor(f);
    ghost var first := scale;
    FirstScaleFitted(values, f);
    for iteration := 0 to 4
      invariant scale == Refits(values, first, f, iteration)
    {
      var last;
      scale, last := RefitScale(values, scale, f, first, iteration);
      if last { break; }
    }
    scale := Larger(scale, SMALLEST_NORMAL);
  }
}
