/** omni/learning/aggregate.py: `_trend`, the normalised slope of a series, over the reals. */
module Trend {

  // ------------------------------------------------------------------ sums

  function Sum(v: seq<real>): real {
    if v == [] then 0.0 else Sum(v[..|v| - 1]) + v[|v| - 1]
  }

  /** `list(range(n))` */
  function Indices(n: nat): (xs: seq<real>)
    ensures |xs| == n && forall i :: 0 <= i < n ==> xs[i] == i as real
  {
    seq(n, i => i as real)
  }

  function Mean(v: seq<real>): real
    requires v != []
  {
    Sum(v) / (|v| as real)
  }

  /** `sum(x * y for x, y in zip(xs, ys))` */
  function Dot(x: seq<real>, y: seq<real>): real
    requires |x| == |y|
  {
    if x == [] then 0.0 else Dot(x[..|x| - 1], y[..|y| - 1]) + x[|x| - 1] * y[|y| - 1]
  }

  function Centred(v: seq<real>, m: real): (c: seq<real>)
    ensures |c| == |v| && forall i :: 0 <= i < |v| ==> c[i] == v[i] - m
  {
    seq(|v|, i requires 0 <= i < |v| => v[i] - m)
  }

  /** `sum((x - mx) ** 2 for x in xs)` */
  function Spread(xs: seq<real>, mx: real): real { Dot(Centred(xs, mx), Centred(xs, mx)) }

  /** `sum((x - mx) * (y - my) for x, y in zip(xs, values))` */
  function Cross(xs: seq<real>, ys: seq<real>, mx: real, my: real): real
    requires |xs| == |ys|
  {
    Dot(Centred(xs, mx), Centred(ys, my))
  }

  lemma CentredFront(v: seq<real>, m: real)
    requires v != []
    ensures Centred(v, m)[..|v| - 1] == Centred(v[..|v| - 1], m)
  {
  }

  // ------------------------------------------------------------------ rounding and clamping

  function Max(a: real, b: real): real { if a < b then b else a }

  function Min(a: real, b: real): real { if b < a then b else a }

  /** The nearest integer, ties to even. */
  function HalfEven(x: real): int {
    var f := x.Floor;
    var d := x - f as real;
    if d < 0.5 || (d == 0.5 && f % 2 == 0) then f else f + 1
  }

  /** `round(x, 4)` */
  function Round4(x: real): real { HalfEven(x * 10000.0) as real / 10000.0 }

  lemma HalfEvenIsOdd(x: real)
    ensures HalfEven(-x) == -HalfEven(x)
  {
    var f := x.Floor;
    if x == f as real {
      assert (-x).Floor == -f;
    } else {
      assert (-x).Floor == -f - 1;
    }
  }

  lemma Round4IsOdd(x: real)
    ensures Round4(-x) == -Round4(x)
  {
    HalfEvenIsOdd(x * 10000.0);
    assert (-x) * 10000.0 == -(x * 10000.0);
  }

  lemma HalfEvenBounds(x: real)
    ensures x - 0.5 <= HalfEven(x) as real <= x + 0.5
    ensures 0.0 <= x ==> 0 <= HalfEven(x)
    ensures x <= 10000.0 ==> HalfEven(x) <= 10000
  {
  }

  /** Rounding keeps the sign and the unit interval, and moves a value by at most half a unit. */
  lemma Round4Bounds(x: real)
    ensures x - 0.00005 <= Round4(x) <= x + 0.00005
    ensures 0.0 <= x ==> 0.0 <= Round4(x)
    ensures x <= 1.0 ==> Round4(x) <= 1.0
  {
    HalfEvenBounds(x * 10000.0);
  }

  // ------------------------------------------------------------------ the trend

  /** The slope of the regression line. */
  function Slope(v: seq<real>): real
    requires |v| >= 2
  {
    SpreadIsPositive(|v|);
    var xs := Indices(|v|);
    Cross(xs, v, Mean(xs), Mean(v)) / Spread(xs, Mean(xs))
  }

  function Clamped(x: real): real { Max(-1.0, Min(1.0, x)) }

  /** The slope relative to the mean, which counts as at least 0.01. */
  function Normalised(v: seq<real>): real
    requires |v| >= 2
  {
    Slope(v) / Max(Mean(v), 0.01)
  }

  /** `_trend`. The test for a zero denominator is kept as the code has it. */
  function TrendOf(v: seq<real>): real {
    if |v| < 3 then 0.0
    else
      var xs := Indices(|v|);
      if Spread(xs, Mean(xs)) == 0.0 then 0.0
      else Round4(Clamped(Normalised(v)))
  }

  lemma {:induction false} DotIsNonNegative(x: seq<real>)
    ensures 0.0 <= Dot(x, x)
  {
    if x != [] {
      DotIsNonNegative(x[..|x| - 1]);
      SquareIsNonNegative(x[|x| - 1]);
    }
  }

  lemma SquareIsNonNegative(x: real)
    ensures 0.0 <= x * x && (x != 0.0 ==> 0.0 < x * x)
  {
  }

  lemma IndicesFront(n: nat)
    requires n > 0
    ensures Indices(n)[..n - 1] == Indices(n - 1)
  {
  }

  function Triangle(n: nat): real { (n as real) * ((n as real - 1.0) / 2.0) }

  lemma {:induction false} SumOfIndices(n: nat)
    ensures Sum(Indices(n)) == Triangle(n)
  {
    if n > 0 {
      SumOfIndices(n - 1);
      IndicesFront(n);
      TriangleNext(n);
    }
  }

  lemma TriangleNext(n: nat)
    requires n > 0
    ensures Triangle(n) == Triangle(n - 1) + (n as real - 1.0)
  {
    var r := n as real;
    assert r * ((r - 1.0) / 2.0) == (r - 1.0) * ((r - 2.0) / 2.0) + (r - 1.0);
  }

  lemma QuotientIs(p: real, r: real, q: real)
    requires r != 0.0 && q * r == p
    ensures p / r == q
  {
    var k := p / r;
    assert k * r == p;
    assert (k - q) * r == 0.0;
  }

  lemma MeanOfIndices(n: nat)
    requires n > 0
    ensures Mean(Indices(n)) == (n as real - 1.0) / 2.0
  {
    SumOfIndices(n);
    QuotientIs(Sum(Indices(n)), n as real, (n as real - 1.0) / 2.0);
  }

  /** With two points or more the denominator is positive: `_trend` never takes that early return. */
  lemma SpreadIsPositive(n: nat)
    requires n >= 2
    ensures 0.0 < Spread(Indices(n), Mean(Indices(n)))
  {
    var xs := Indices(n);
    MeanOfIndices(n);
    DotIsNonNegative(Centred(xs, Mean(xs))[..n - 1]);
    SquareIsNonNegative(xs[n - 1] - Mean(xs));
  }

  // ------------------------------------------------------------------ the sign of the slope

  /** How far `y` lies above the values of `v`, added up. */
  function Excess(v: seq<real>, y: real): real {
    if v == [] then 0.0 else Excess(v[..|v| - 1], y) + (y - v[|v| - 1])
  }

  /** The sum of `v[j] - v[i]` over all `i < j`: twice the numerator of the slope. */
  function Lean(v: seq<real>): real {
    if v == [] then 0.0 else Lean(v[..|v| - 1]) + Excess(v[..|v| - 1], v[|v| - 1])
  }

  function Deviations(v: seq<real>, m: real): real {
    if v == [] then 0.0 else Deviations(v[..|v| - 1], m) + (v[|v| - 1] - m)
  }

  /** `sum((i - mx) * values[i])` */
  function Moment(v: seq<real>, mx: real): real {
    if v == [] then 0.0 else Moment(v[..|v| - 1], mx) + (|v| as real - 1.0 - mx) * v[|v| - 1]
  }

  lemma {:induction false} DotSymmetric(x: seq<real>, y: seq<real>)
    requires |x| == |y|
    ensures Dot(x, y) == Dot(y, x)
  {
    if x != [] { DotSymmetric(x[..|x| - 1], y[..|y| - 1]); }
  }

  lemma CentreStep(dot: real, m: real, s: real, x: real, y: real)
    ensures dot - m * s + x * (y - m) == dot + x * y - m * (s + x)
  {
  }

  lemma {:induction false} DotCentred(x: seq<real>, y: seq<real>, m: real)
    requires |x| == |y|
    ensures Dot(x, Centred(y, m)) == Dot(x, y) - m * Sum(x)
  {
    if x != [] {
      var n := |x| - 1;
      DotCentred(x[..n], y[..n], m);
      CentredFront(y, m);
      CentreStep(Dot(x[..n], y[..n]), m, Sum(x[..n]), x[n], y[n]);
    }
  }

  lemma {:induction false} SumCentred(v: seq<real>, m: real)
    ensures Sum(Centred(v, m)) == Deviations(v, m)
  {
    if v != [] {
      SumCentred(v[..|v| - 1], m);
      CentredFront(v, m);
    }
  }

  /** Only one side of the product need be centred. */
  lemma {:induction false} CrossOneSided(xs: seq<real>, ys: seq<real>, my: real)
    requires |xs| == |ys| > 0
    ensures Cross(xs, ys, Mean(xs), my) == Dot(Centred(xs, Mean(xs)), ys)
  {
    hide Dot, Sum, Mean, Centred, Deviations;
    DotCentred(Centred(xs, Mean(xs)), ys, my);
    SumCentred(xs, Mean(xs));
    DeviationsVanish(xs);
  }

  lemma {:induction false} CrossExpanded(xs: seq<real>, ys: seq<real>, my: real)
    requires |xs| == |ys| > 0
    ensures Cross(xs, ys, Mean(xs), my) == Dot(ys, xs) - Mean(xs) * Sum(ys)
  {
    hide Dot, Sum, Mean, Centred, Cross;
    CrossOneSided(xs, ys, my);
    DotSymmetric(Centred(xs, Mean(xs)), ys);
    DotCentred(ys, xs, Mean(xs));
  }

  lemma {:induction false} MomentIsDot(v: seq<real>, mx: real)
    ensures Dot(Centred(Indices(|v|), mx), v) == Moment(v, mx)
  {
    if v != [] {
      MomentIsDot(v[..|v| - 1], mx);
      IndicesFront(|v|);
      CentredFront(Indices(|v|), mx);
    }
  }

  lemma ScaleStep(r: real, m: real)
    ensures r * m == (r - 1.0) * m + m
  {
  }

  lemma {:induction false} DeviationsExpanded(v: seq<real>, m: real)
    ensures Deviations(v, m) == Sum(v) - (|v| as real) * m
  {
    if v != [] {
      DeviationsExpanded(v[..|v| - 1], m);
      ScaleStep(|v| as real, m);
    }
  }

  lemma DeviationsVanish(v: seq<real>)
    requires v != []
    ensures Deviations(v, Mean(v)) == 0.0
  {
    DeviationsExpanded(v, Mean(v));
  }

  lemma {:induction false} ExcessExpanded(v: seq<real>, y: real)
    ensures Excess(v, y) == (|v| as real) * y - Sum(v)
  {
    if v != [] {
      ExcessExpanded(v[..|v| - 1], y);
      ScaleStep(|v| as real, y);
    }
  }

  lemma {:induction false} MomentMoves(v: seq<real>, mx: real, d: real)
    ensures Moment(v, mx + d) == Moment(v, mx) - d * Sum(v)
  {
    if v != [] {
      MomentMoves(v[..|v| - 1], mx, d);
      MomentStep(Sum(v[..|v| - 1]), |v| as real - 1.0 - mx, d, v[|v| - 1]);
    }
  }

  lemma MomentStep(s: real, dx: real, d: real, y: real)
    ensures (dx - d) * y - d * s == dx * y - d * (s + y)
  {
  }

  function Middle(n: nat): real { (n as real - 1.0) / 2.0 }

  lemma LeanStep(r: real, y: real, s: real, e: real)
    requires e == (r - 1.0) * y - s
    ensures (r - 1.0 - (r - 1.0) / 2.0) * y - 0.5 * s == e / 2.0
  {
  }

  lemma {:induction false} MomentIsLean(v: seq<real>)
    ensures 2.0 * Moment(v, Middle(|v|)) == Lean(v)
  {
    if v != [] {
      var n, front := |v|, v[..|v| - 1];
      MomentIsLean(front);
      MomentMoves(front, Middle(n - 1), 0.5);
      assert Middle(n) == Middle(n - 1) + 0.5;
      ExcessExpanded(front, v[n - 1]);
      LeanStep(n as real, v[n - 1], Sum(front), Excess(front, v[n - 1]));
    }
  }

  lemma {:induction false} CrossIsLean(v: seq<real>, my: real)
    requires v != []
    ensures 2.0 * Cross(Indices(|v|), v, Mean(Indices(|v|)), my) == Lean(v)
  {
    hide Dot, Sum, Mean, Centred, Cross, Moment, Lean;
    CrossOneSided(Indices(|v|), v, my);
    MomentIsDot(v, Mean(Indices(|v|)));
    MeanOfIndices(|v|);
    MomentIsLean(v);
  }

  predicate Nondecreasing(v: seq<real>) { forall i, j :: 0 <= i < j < |v| ==> v[i] <= v[j] }

  predicate Nonincreasing(v: seq<real>) { forall i, j :: 0 <= i < j < |v| ==> v[j] <= v[i] }

  lemma {:induction false} ExcessSign(v: seq<real>, top: real)
    requires forall i :: 0 <= i < |v| ==> v[i] <= top
    ensures 0.0 <= Excess(v, top)
    ensures v != [] && v[0] < top ==> 0.0 < Excess(v, top)
  {
    if v != [] { ExcessSign(v[..|v| - 1], top); }
  }

  lemma {:induction false} LeanSign(v: seq<real>)
    requires Nondecreasing(v)
    ensures 0.0 <= Lean(v)
    ensures v != [] && v[0] < v[|v| - 1] ==> 0.0 < Lean(v)
  {
    if v != [] {
      LeanSign(v[..|v| - 1]);
      ExcessSign(v[..|v| - 1], v[|v| - 1]);
    }
  }

  // ------------------------------------------------------------------ reversal

  function Reversed(v: seq<real>): (r: seq<real>)
    ensures |r| == |v| && forall i :: 0 <= i < |v| ==> r[i] == v[|v| - 1 - i]
  {
    if v == [] then [] else [v[|v| - 1]] + Reversed(v[..|v| - 1])
  }

  lemma {:induction false} FromFront(y: real, v: seq<real>, z: real)
    ensures Sum([y] + v) == y + Sum(v)
    ensures Excess([y] + v, z) == (z - y) + Excess(v, z)
  {
    if v != [] {
      FromFront(y, v[..|v| - 1], z);
      assert ([y] + v)[..|v|] == [y] + v[..|v| - 1];
    }
  }

  lemma {:induction false} LeanFromFront(y: real, v: seq<real>)
    ensures Lean([y] + v) == Lean(v) - Excess(v, y)
  {
    if v != [] {
      var n := |v| - 1;
      LeanFromFront(y, v[..n]);
      FromFront(y, v[..n], v[n]);
      assert ([y] + v)[..|v|] == [y] + v[..n];
    } else {
      assert [y][..0] == [];
    }
  }

  lemma {:induction false} SumReversed(v: seq<real>, y: real)
    ensures Sum(Reversed(v)) == Sum(v) && Excess(Reversed(v), y) == Excess(v, y)
  {
    if v != [] {
      SumReversed(v[..|v| - 1], y);
      FromFront(v[|v| - 1], Reversed(v[..|v| - 1]), y);
    }
  }

  lemma {:induction false} LeanReversed(v: seq<real>)
    ensures Lean(Reversed(v)) == -Lean(v)
  {
    if v != [] {
      var front, y := v[..|v| - 1], v[|v| - 1];
      LeanReversed(front);
      LeanFromFront(y, Reversed(front));
      SumReversed(front, y);
    }
  }

  // ------------------------------------------------------------------ the laws of the trend

  lemma QuotientSign(a: real, b: real)
    requires b > 0.0
    ensures (a > 0.0 <==> a / b > 0.0) && (a == 0.0 <==> a / b == 0.0)
  {
    var q := a / b;
    assert q * b == a;
  }

  lemma QuotientNegated(a: real, b: real, c: real)
    requires b > 0.0 && c == -a
    ensures c / b == -(a / b)
  {
    var q := a / b;
    assert q * b == a;
    assert (-q) * b == -(q * b);
    QuotientIs(c, b, -q);
  }

  ghost function Numerator(v: seq<real>): (c: real)
    requires |v| >= 2
    ensures 2.0 * c == Lean(v)
  {
    CrossIsLean(v, Mean(v));
    Cross(Indices(|v|), v, Mean(Indices(|v|)), Mean(v))
  }

  ghost function Denominator(n: nat): (d: real)
    requires n >= 2
    ensures d > 0.0
  {
    SpreadIsPositive(n);
    Spread(Indices(n), Mean(Indices(n)))
  }

  lemma {:induction false} SlopeSign(v: seq<real>)
    requires |v| >= 2
    ensures Lean(v) > 0.0 <==> Slope(v) > 0.0
    ensures Lean(v) == 0.0 <==> Slope(v) == 0.0
  {
    QuotientSign(Numerator(v), Denominator(|v|));
  }

  lemma {:induction false} SlopeReversed(v: seq<real>)
    requires |v| >= 2
    ensures Slope(Reversed(v)) == -Slope(v) && Mean(Reversed(v)) == Mean(v)
  {
    LeanReversed(v);
    SumReversed(v, 0.0);
    QuotientNegated(Numerator(v), Denominator(|v|), Numerator(Reversed(v)));
  }

  /** Before rounding, a series that never falls and does not stay level has a positive slope, and
      one that never rises and does not stay level a negative one. */
  lemma {:induction false} StrictSlope(v: seq<real>)
    requires |v| >= 3 && v[0] != v[|v| - 1]
    ensures Nondecreasing(v) ==> 0.0 < Slope(v)
    ensures Nonincreasing(v) ==> Slope(v) < 0.0
  {
    if Nondecreasing(v) {
      LeanSign(v);
      SlopeSign(v);
    }
    if Nonincreasing(v) {
      LeanSign(Reversed(v));
      SlopeSign(Reversed(v));
      SlopeReversed(v);
    }
  }

  lemma TrendBounds(v: seq<real>)
    requires |v| >= 3
    ensures 0.0 <= Slope(v) ==> 0.0 <= TrendOf(v)
    ensures -1.0 <= TrendOf(v) <= 1.0
  {
    QuotientSign(Slope(v), Max(Mean(v), 0.01));
    var c := Clamped(Normalised(v));
    Round4Bounds(c);
    Round4Bounds(-c);
    Round4IsOdd(c);
  }

  /** Reading a series backwards negates its trend. */
  lemma {:induction false} TrendReversed(v: seq<real>)
    ensures TrendOf(Reversed(v)) == -TrendOf(v)
  {
    if |v| >= 3 {
      SlopeReversed(v);
      SpreadIsPositive(|v|);
      QuotientNegated(Slope(v), Max(Mean(v), 0.01), Slope(Reversed(v)));
      Round4IsOdd(Clamped(Normalised(v)));
    }
  }

  /** Every trend lies between -1 and 1, is not negative where the series never falls, and not
      positive where it never rises. */
  lemma {:induction false} TrendLaw(v: seq<real>)
    ensures -1.0 <= TrendOf(v) <= 1.0
    ensures Nondecreasing(v) ==> 0.0 <= TrendOf(v)
    ensures Nonincreasing(v) ==> TrendOf(v) <= 0.0
  {
    if |v| >= 3 {
      TrendBounds(v);
      if Nondecreasing(v) {
        LeanSign(v);
        SlopeSign(v);
      }
      if Nonincreasing(v) {
        LeanSign(Reversed(v));
        SlopeSign(Reversed(v));
        TrendBounds(Reversed(v));
        TrendReversed(v);
      }
    }
  }

  // ------------------------------------------------------------------ least squares

  /** `y - b * x`, index by index. */
  function Tilted(y: seq<real>, x: seq<real>, b: real): (e: seq<real>)
    requires |x| == |y|
    ensures |e| == |y|
  {
    if y == [] then [] else Tilted(y[..|y| - 1], x[..|x| - 1], b) + [y[|y| - 1] - b * x[|x| - 1]]
  }

  /** The squared error of the line `a + b * i`. */
  function SquaredError(v: seq<real>, a: real, b: real): real {
    var misses := Centred(Tilted(v, Indices(|v|), b), a);
    Dot(misses, misses)
  }

  lemma LiftStep(low: real, m: real, e: real, c: real, r: real)
    ensures low - 2.0 * (c * m) + (r - 1.0) * (c * c) + (e - c) * (e - c)
            == low + e * e - 2.0 * (c * (m + e)) + r * (c * c)
  {
  }

  ghost function Lifted(dot: real, sum: real, n: real, c: real): real { dot - 2.0 * (c * sum) + n * (c * c) }

  lemma {:induction false} DotLifted(e: seq<real>, c: real)
    ensures Dot(Centred(e, c), Centred(e, c)) == Lifted(Dot(e, e), Sum(e), |e| as real, c)
  {
    if e != [] {
      var n, front := |e|, e[..|e| - 1];
      DotLifted(front, c);
      CentredFront(e, c);
      LiftStep(Dot(front, front), Sum(front), e[n - 1], c, n as real);
    }
  }

  lemma TiltedFront(y: seq<real>, x: seq<real>, b: real)
    requires |x| == |y| > 0
    ensures Tilted(y, x, b)[..|y| - 1] == Tilted(y[..|y| - 1], x[..|x| - 1], b)
    ensures Tilted(y, x, b)[|y| - 1] == y[|y| - 1] - b * x[|x| - 1]
  {
  }

  lemma SumStep(s: real, b: real, d: real, x: real, y: real)
    ensures s - b * d + (y - b * x) == s + y - b * (d + x)
  {
  }

  lemma {:induction false} SumTilted(y: seq<real>, x: seq<real>, b: real)
    requires |x| == |y|
    ensures Sum(Tilted(y, x, b)) == Sum(y) - b * Sum(x)
  {
    if y != [] {
      var n := |y| - 1;
      SumTilted(y[..n], x[..n], b);
      TiltedFront(y, x, b);
      SumStep(Sum(y[..n]), b, Sum(x[..n]), x[n], y[n]);
    }
  }

  lemma TiltStep(dy: real, dx: real, x: real, y: real, z: real, b: real)
    ensures dy - b * dx + (y - b * x) * z == dy + y * z - b * (dx + x * z)
  {
  }

  lemma DotLast(x: seq<real>, z: seq<real>)
    requires |x| == |z| > 0
    ensures Dot(x, z) == Dot(x[..|x| - 1], z[..|z| - 1]) + x[|x| - 1] * z[|z| - 1]
  {
  }

  lemma DotNothing(x: seq<real>, z: seq<real>)
    requires |x| == |z| == 0
    ensures Dot(x, z) == 0.0
  {
  }

  lemma {:induction false} DotTiltedOnce(y: seq<real>, x: seq<real>, b: real, z: seq<real>)
    requires |x| == |y| == |z|
    ensures Dot(Tilted(y, x, b), z) == Dot(y, z) - b * Dot(x, z)
  {
    if y != [] {
      hide Dot;
      var n := |y| - 1;
      DotTiltedOnce(y[..n], x[..n], b, z[..n]);
      TiltedFront(y, x, b);
      DotLast(Tilted(y, x, b), z);
      DotLast(y, z);
      DotLast(x, z);
      TiltStep(Dot(y[..n], z[..n]), Dot(x[..n], z[..n]), x[n], y[n], z[n], b);
    } else {
      DotNothing(Tilted(y, x, b), z);
      DotNothing(y, z);
      DotNothing(x, z);
    }
  }

  lemma DotTilted(y: seq<real>, x: seq<real>, b: real)
    requires |x| == |y|
    ensures Dot(Tilted(y, x, b), Tilted(y, x, b)) == Dot(y, y) - 2.0 * (b * Dot(x, y)) + b * b * Dot(x, x)
  {
    hide Dot, Tilted;
    var t := Tilted(y, x, b);
    DotTiltedOnce(y, x, b, t);
    DotSymmetric(y, t);
    DotSymmetric(x, t);
    DotTiltedOnce(y, x, b, y);
    DotTiltedOnce(y, x, b, x);
    DotSymmetric(x, y);
    TiltTwice(Dot(y, y), Dot(x, y), Dot(x, x), b);
  }

  lemma TiltTwice(yy: real, xy: real, xx: real, b: real)
    ensures (yy - b * xy) - b * (xy - b * xx) == yy - 2.0 * (b * xy) + b * b * xx
  {
  }

  /** The squared error of a line from the sums over the series and its indices. */
  ghost function ErrorFromSums(vv: real, xv: real, xx: real, sv: real, sx: real, n: real, a: real, b: real): real {
    Lifted(vv - 2.0 * (b * xv) + b * b * xx, sv - b * sx, n, a)
  }

  lemma {:induction false} ErrorOfLine(v: seq<real>, a: real, b: real)
    ensures var xs := Indices(|v|);
            SquaredError(v, a, b)
            == ErrorFromSums(Dot(v, v), Dot(xs, v), Dot(xs, xs), Sum(v), Sum(xs), |v| as real, a, b)
  {
    hide Dot, Sum, Tilted, Lifted, Centred;
    var xs := Indices(|v|);
    DotLifted(Tilted(v, xs, b), a);
    DotTilted(v, xs, b);
    SumTilted(v, xs, b);
  }

  ghost function ErrorFromMeans(flat: real, n: real, c: real, cross: real, spread: real, b: real): real {
    flat + n * (c * c) - 2.0 * (b * cross) + b * b * spread
  }

  lemma AroundMeans(vv: real, cross: real, spread: real, mx: real, my: real, n: real, c: real, b: real)
    ensures ErrorFromSums(vv, cross + mx * (my * n), spread + mx * (mx * n), my * n, mx * n, n, my + c - b * mx, b)
            == ErrorFromMeans(vv - n * (my * my), n, c, cross, spread, b)
  {
  }

  lemma AroundMeansOf(
      vv: real, xv: real, xx: real, sv: real, sx: real, cross: real, spread: real, mx: real, my: real, n: real,
      flat: real, a: real, b: real, c: real)
    requires xv == cross + mx * (my * n) && xx == spread + mx * (mx * n) && sv == my * n && sx == mx * n
    requires a == my + c - b * mx && flat == vv - n * (my * my)
    ensures ErrorFromSums(vv, xv, xx, sv, sx, n, a, b) == ErrorFromMeans(flat, n, c, cross, spread, b)
  {
    hide ErrorFromSums, ErrorFromMeans;
    AroundMeans(vv, cross, spread, mx, my, n, c, b);
  }

  lemma MeanTimesLength(v: seq<real>)
    requires v != []
    ensures Sum(v) == Mean(v) * (|v| as real)
  {
    hide Sum;
  }

  lemma SpreadIsCross(xs: seq<real>, mx: real)
    ensures Spread(xs, mx) == Cross(xs, xs, mx, mx)
  {
    hide Dot, Centred;
  }

  /** The sums in terms of the means and of what `_trend` computes. */
  lemma {:induction false} SumsAtMeans(xs: seq<real>, v: seq<real>)
    requires |xs| == |v| > 0
    ensures var n, mx, my := |v| as real, Mean(xs), Mean(v);
            Sum(v) == my * n
            && Dot(xs, v) == Cross(xs, v, mx, my) + mx * (my * n)
            && Dot(xs, xs) == Spread(xs, mx) + mx * (mx * n)
  {
    hide Dot, Sum, Mean, Cross, Spread;
    MeanTimesLength(v);
    MeanTimesLength(xs);
    DotSymmetric(xs, v);
    CrossExpanded(xs, v, Mean(v));
    CrossExpanded(xs, xs, Mean(xs));
    SpreadIsCross(xs, Mean(xs));
  }

  ghost function Flatness(v: seq<real>): real
    requires v != []
  {
    Dot(v, v) - (|v| as real) * (Mean(v) * Mean(v))
  }

  /** The error of the line that misses the mean by `c` at the mean of the indices. */
  lemma {:induction false} ErrorAroundMeans(v: seq<real>, a: real, b: real, c: real)
    requires v != [] && a == Mean(v) + c - b * Mean(Indices(|v|))
    ensures var xs := Indices(|v|);
            SquaredError(v, a, b)
            == ErrorFromMeans(Flatness(v), |v| as real, c, Cross(xs, v, Mean(xs), Mean(v)), Spread(xs, Mean(xs)), b)
  {
    hide Dot, Sum, Mean, Cross, Spread, SquaredError, ErrorFromSums, ErrorFromMeans;
    var xs := Indices(|v|);
    var mx, my := Mean(xs), Mean(v);
    ErrorOfLine(v, a, b);
    SumsAtMeans(xs, v);
    MeanTimesLength(xs);
    AroundMeansOf(Dot(v, v), Dot(xs, v), Dot(xs, xs), Sum(v), Sum(xs), Cross(xs, v, mx, my), Spread(xs, mx), mx, my,
                  |v| as real, Flatness(v), a, b, c);
  }

  lemma ProductIsPositive(p: real, q: real)
    requires 0.0 < p && 0.0 < q
    ensures 0.0 < p * q
  {
  }

  lemma ErrorOverBest(flat: real, n: real, c: real, spread: real, s: real, e: real)
    ensures ErrorFromMeans(flat, n, c, s * spread, spread, s + e)
            == ErrorFromMeans(flat, n, 0.0, s * spread, spread, s) + n * (c * c) + spread * (e * e)
  {
  }

  lemma ScaledSquare(k: real, x: real) returns (p: real)
    requires 0.0 < k
    ensures p == k * (x * x) && 0.0 <= p && (x == 0.0 || 0.0 < p)
  {
    p := k * (x * x);
    if x > 0.0 {
      ProductIsPositive(k, x);
      ProductIsPositive(k * x, x);
    } else if x < 0.0 {
      ProductIsPositive(k, -x);
      ProductIsPositive(k * (-x), -x);
    }
  }

  lemma BestAtMeans(flat: real, n: real, c: real, cross: real, spread: real, s: real, b: real, e: real)
    requires n > 0.0 && spread > 0.0 && cross == s * spread && b == s + e
    ensures ErrorFromMeans(flat, n, 0.0, cross, spread, s) < ErrorFromMeans(flat, n, c, cross, spread, b)
            || (c == 0.0 && e == 0.0)
  {
    hide ErrorFromMeans;
    ErrorOverBest(flat, n, c, spread, s, e);
    var p := ScaledSquare(n, c);
    var q := ScaledSquare(spread, e);
  }

  /** Any other line misses the mean by some `c`, or has a slope that differs by some `e`. */
  lemma {:induction false} ErrorAwayFromBest(v: seq<real>, best: real, s: real, a: real, b: real, c: real, e: real)
    requires |v| >= 2 && s == Slope(v) && b == s + e
    requires best == Mean(v) - s * Mean(Indices(|v|)) && a == Mean(v) + c - b * Mean(Indices(|v|))
    ensures SquaredError(v, best, s) < SquaredError(v, a, b) || (c == 0.0 && e == 0.0)
  {
    hide Dot, Sum, Mean, Cross, Spread, SquaredError, ErrorFromMeans, Flatness;
    var xs := Indices(|v|);
    var mx, my := Mean(xs), Mean(v);
    SpreadIsPositive(|v|);
    ErrorAroundMeans(v, a, b, c);
    ErrorAroundMeans(v, best, s, 0.0);
    BestAtMeans(Flatness(v), |v| as real, c, Cross(xs, v, mx, my), Spread(xs, mx), s, b, e);
  }

  lemma SameProduct(p: real, q: real, x: real)
    ensures p == q ==> p * x == q * x
  {
  }

  /** The height at index 0 of the line through the means with the slope of `_trend`. */
  ghost function BestHeight(v: seq<real>): real
    requires |v| >= 2
  {
    Mean(v) - Slope(v) * Mean(Indices(|v|))
  }

  /** That line fits the series strictly better than any other. */
  lemma {:induction false} SlopeIsLeastSquares(v: seq<real>, a: real, b: real)
    requires |v| >= 2
    ensures (a == BestHeight(v) && b == Slope(v))
            || SquaredError(v, BestHeight(v), Slope(v)) < SquaredError(v, a, b)
  {
    hide Dot, Sum, Mean, Slope, SquaredError;
    var mx, my, s := Mean(Indices(|v|)), Mean(v), Slope(v);
    ErrorAwayFromBest(v, BestHeight(v), s, a, b, a - my + b * mx, b - s);
    SameProduct(b, s, mx);
  }

  // ------------------------------------------------------------------ values

  /** Rounding gives a multiple of a ten-thousandth that is at most half of one away, and of two that
      are equally far the even one. */
  lemma Round4Exactly(x: real) returns (k: int)
    ensures Round4(x) == k as real / 10000.0
    ensures x * 10000.0 - 0.5 <= k as real <= x * 10000.0 + 0.5
    ensures k as real == x * 10000.0 - 0.5 || k as real == x * 10000.0 + 0.5 ==> k % 2 == 0
  {
    k := HalfEven(x * 10000.0);
    HalfEvenBounds(x * 10000.0);
  }

  ghost predicate IsLine(v: seq<real>, a: real, d: real) { forall i :: 0 <= i < |v| ==> v[i] == a + i as real * d }

  lemma LineStep(s: real, t: real, r: real, a: real, d: real)
    requires s == (r - 1.0) * a + d * t
    ensures s + (a + (r - 1.0) * d) == r * a + d * (t + (r - 1.0))
  {
  }

  lemma {:induction false} SumOfLine(v: seq<real>, a: real, d: real)
    requires IsLine(v, a, d)
    ensures Sum(v) == |v| as real * a + d * Sum(Indices(|v|))
  {
    if v != [] {
      var n := |v| - 1;
      SumOfLine(v[..n], a, d);
      IndicesFront(|v|);
      LineStep(Sum(v[..n]), Sum(Indices(n)), |v| as real, a, d);
    }
  }

  lemma MeanStep(s: real, t: real, r: real, a: real, d: real)
    requires s == r * a + d * t && r > 0.0
    ensures s / r == a + d * (t / r)
  {
    var q := t / r;
    assert q * r == t;
    assert (a + d * q) * r == r * a + d * t;
    QuotientIs(s, r, a + d * q);
  }

  lemma MeanOfLine(v: seq<real>, a: real, d: real)
    requires IsLine(v, a, d) && v != []
    ensures Mean(v) == a + d * Mean(Indices(|v|))
  {
    SumOfLine(v, a, d);
    MeanStep(Sum(v), Sum(Indices(|v|)), |v| as real, a, d);
  }

  lemma ScaledStep(dot: real, d: real, x: real)
    ensures d * dot + x * (d * x) == d * (dot + x * x)
  {
  }

  lemma {:induction false} DotScaled(x: seq<real>, y: seq<real>, d: real)
    requires |x| == |y| && forall i :: 0 <= i < |x| ==> y[i] == d * x[i]
    ensures Dot(x, y) == d * Dot(x, x)
  {
    if x != [] {
      var n := |x| - 1;
      DotScaled(x[..n], y[..n], d);
      ScaledStep(Dot(x[..n], x[..n]), d, x[n]);
    }
  }

  lemma DeviationStep(a: real, i: real, d: real, m: real)
    ensures (a + i * d) - (a + d * m) == d * (i - m)
  {
  }

  lemma SlopeOfLine(v: seq<real>, a: real, d: real)
    requires IsLine(v, a, d) && |v| >= 2
    ensures Slope(v) == d
  {
    hide Mean, Dot;
    var xs := Indices(|v|);
    var x, y := Centred(xs, Mean(xs)), Centred(v, Mean(v));
    MeanOfLine(v, a, d);
    forall i | 0 <= i < |x| ensures y[i] == d * x[i] { DeviationStep(a, i as real, d, Mean(xs)); }
    DotScaled(x, y, d);
    SpreadIsPositive(|v|);
    QuotientIs(Cross(xs, v, Mean(xs), Mean(v)), Spread(xs, Mean(xs)), d);
  }

  /** A series that changes by the same amount each time has that amount, relative to its mean, as its
      trend: brought between -1 and 1 and rounded, with a mean below a hundredth counted as one. Fewer
      than three values have no trend. */
  lemma TrendOfLine(v: seq<real>, a: real, d: real)
    requires IsLine(v, a, d) && v != []
    ensures |v| < 3 ==> TrendOf(v) == 0.0
    ensures |v| >= 3 ==>
              var mean := a + d * ((|v| as real - 1.0) / 2.0);
              var x := d / if mean < 0.01 then 0.01 else mean;
              TrendOf(v) == Round4(if x < -1.0 then -1.0 else if x > 1.0 then 1.0 else x)
  {
    if |v| >= 3 {
      hide Mean, Slope, Spread, Round4;
      SlopeOfLine(v, a, d);
      MeanOfLine(v, a, d);
      MeanOfIndices(|v|);
      SpreadIsPositive(|v|);
      var mean := a + d * ((|v| as real - 1.0) / 2.0);
      assert Mean(v) == mean;
      assert Normalised(v) == d / if mean < 0.01 then 0.01 else mean;
    }
  }

  /** The trend of any series of three or more values: its slope relative to its mean, or to a
      hundredth where the mean is below that, brought between -1 and 1 and rounded. */
  lemma TrendExactly(v: seq<real>)
    requires |v| >= 3
    ensures var x := Slope(v) / if Mean(v) < 0.01 then 0.01 else Mean(v);
            TrendOf(v) == Round4(if x < -1.0 then -1.0 else if x > 1.0 then 1.0 else x)
  {
    hide Mean, Slope, Spread, Round4;
    SpreadIsPositive(|v|);
  }
}
