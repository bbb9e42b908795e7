/** The growth line of the pool-capacity forecast, over the reals.

    `Fit` computes slope and intercept from five sums. The theorems say what those sums are for:
    no other line has a smaller squared error, and no other line has the same one unless every
    sample was taken at the same moment. */
module Forecast {
  import opened Numbers
  import opened Wrappers

  /** One row of the history: a moment, in seconds, and the bytes allocated then. */
  datatype Sample = Sample(ts: real, alloc: real)

  /** A line through (days since the first sample, bytes). */
  datatype Line = Line(slope: real, intercept: real)

  const SECONDS_PER_DAY := 86400.0

  function Days(rows: seq<Sample>, t0: real): (xs: seq<real>)
    ensures |xs| == |rows|
    ensures forall i :: 0 <= i < |rows| ==> xs[i] == (rows[i].ts - t0) / SECONDS_PER_DAY
  {
    seq(|rows|, i requires 0 <= i < |rows| => (rows[i].ts - t0) / SECONDS_PER_DAY)
  }

  function Allocs(rows: seq<Sample>): (ys: seq<real>)
    ensures |ys| == |rows|
    ensures forall i :: 0 <= i < |rows| ==> ys[i] == rows[i].alloc
  {
    seq(|rows|, i requires 0 <= i < |rows| => rows[i].alloc)
  }

  function Sum(xs: seq<real>): real {
    if xs == [] then 0.0 else xs[0] + Sum(xs[1..])
  }

  function Dot(xs: seq<real>, ys: seq<real>): real
    requires |xs| == |ys|
  {
    if xs == [] then 0.0 else xs[0] * ys[0] + Dot(xs[1..], ys[1..])
  }

  /** The five sums the fit is computed from. */
  datatype Sums = Sums(n: real, sx: real, sy: real, sxx: real, sxy: real)

  function SumsOf(xs: seq<real>, ys: seq<real>): Sums
    requires |xs| == |ys|
  {
    Sums(|xs| as real, Sum(xs), Sum(ys), Dot(xs, xs), Dot(xs, ys))
  }

  function Denominator(m: Sums): real {
    m.n * m.sxx - m.sx * m.sx
  }

  function Solve(m: Sums): Line
    requires m.n > 0.0
  {
    var denom := Denominator(m);
    if denom == 0.0 then
      Line(0.0, m.sy / m.n)
    else
      var slope := (m.n * m.sxy - m.sx * m.sy) / denom;
      Line(slope, (m.sy - slope * m.sx) / m.n)
  }

  function SumsOfRows(rows: seq<Sample>): (m: Sums)
    requires rows != []
    ensures m.n > 0.0
  {
    SumsOf(Days(rows, rows[0].ts), Allocs(rows))
  }

  function Fit(rows: seq<Sample>): Line
    requires rows != []
  {
    Solve(SumsOfRows(rows))
  }

  function Crossing(t0: real, line: Line, threshold: real): Option<real> {
    if line.slope <= 0.0 then None
    else Some(t0 + (threshold - line.intercept) / line.slope * SECONDS_PER_DAY)
  }

  // ----- what the numbers are for ------------------------------------------------------------

  /** The height of a line at a moment, measured from the moment the line starts at. */
  function HeightAt(line: Line, t0: real, t: real): real {
    line.intercept + line.slope * ((t - t0) / SECONDS_PER_DAY)
  }

  /** The vertical distances of the samples from a line. */
  function Residuals(line: Line, rows: seq<Sample>, t0: real): (rs: seq<real>)
    ensures |rs| == |rows|
    ensures forall i :: 0 <= i < |rows| ==> rs[i] == rows[i].alloc - HeightAt(line, t0, rows[i].ts)
  {
    seq(|rows|, i requires 0 <= i < |rows| => rows[i].alloc - HeightAt(line, t0, rows[i].ts))
  }

  function SquaredError(line: Line, rows: seq<Sample>, t0: real): real {
    Dot(Residuals(line, rows, t0), Residuals(line, rows, t0))
  }

  predicate OneMoment(rows: seq<Sample>) {
    forall i :: 0 <= i < |rows| ==> rows[i].ts == rows[0].ts
  }

  /** Every line errs by at least as much as the fitted one, in both branches of `Fit`. */
  lemma FitMinimisesSquaredError(rows: seq<Sample>, other: Line)
    requires rows != []
    ensures SquaredError(Fit(rows), rows, rows[0].ts) <= SquaredError(other, rows, rows[0].ts)
  {
    ExcessIsASquare(rows, other);
    SquaresAddUp(Gap(rows, other));
  }

  /** The minimiser is unique exactly when the samples are not all from one moment. */
  lemma FitIsUniqueUnlessOneMoment(rows: seq<Sample>)
    requires rows != []
    ensures (forall other: Line ::
               SquaredError(other, rows, rows[0].ts) == SquaredError(Fit(rows), rows, rows[0].ts)
               ==> other == Fit(rows))
            <==> !OneMoment(rows)
  {
    var best, xs := Fit(rows), Days(rows, rows[0].ts);
    if OneMoment(rows) {
      var steeper := Line(best.slope + 1.0, best.intercept);
      ExcessIsASquare(rows, steeper);
      VanishingGap(1.0, 0.0, xs);
      assert steeper != best;
    } else {
      forall other: Line | SquaredError(other, rows, rows[0].ts) == SquaredError(best, rows, rows[0].ts)
        ensures other == best
      {
        ExcessIsASquare(rows, other);
        VanishingGap(other.slope - best.slope, other.intercept - best.intercept, xs);
      }
    }
  }

  /** The denominator the code tests against zero is never negative, and is zero exactly when
      the samples share one moment: the test cannot divert a solvable fit. */
  lemma DenominatorSeparatesMoments(rows: seq<Sample>)
    requires rows != []
    ensures Denominator(SumsOfRows(rows)) >= 0.0
    ensures Denominator(SumsOfRows(rows)) == 0.0 <==> OneMoment(rows)
  {
    var xs := Days(rows, rows[0].ts);
    DenominatorVanishes(xs, Allocs(rows));
    assert forall i :: 0 <= i < |rows| ==> (xs[i] == xs[0] <==> rows[i].ts == rows[0].ts);
  }

  /** A positive slope reaches every threshold at exactly one moment, the one returned. */
  lemma CrossingIsTheOnlyMomentOnTheLine(t0: real, line: Line, threshold: real)
    ensures Crossing(t0, line, threshold).None? <==> line.slope <= 0.0
    ensures line.slope > 0.0 ==>
              forall t: real ::
                && (HeightAt(line, t0, t) == threshold <==> t == Crossing(t0, line, threshold).value)
                && (HeightAt(line, t0, t) < threshold <==> t < Crossing(t0, line, threshold).value)
  {
    if line.slope > 0.0 {
      var c := Crossing(t0, line, threshold).value;
      var x := (threshold - line.intercept) / line.slope;
      assert line.slope * x == threshold - line.intercept;
      forall t: real
        ensures HeightAt(line, t0, t) == threshold <==> t == c
        ensures HeightAt(line, t0, t) < threshold <==> t < c
      {
        Scale(line.slope, (t - t0) / SECONDS_PER_DAY, x);
      }
    }
  }

  /** Warnings come in the order of their thresholds. */
  lemma CrossingsAreOrderedByThreshold(t0: real, line: Line, low: real, high: real)
    requires line.slope > 0.0
    ensures low < high <==> Crossing(t0, line, low).value < Crossing(t0, line, high).value
  {
    CrossingIsTheOnlyMomentOnTheLine(t0, line, low);
    CrossingIsTheOnlyMomentOnTheLine(t0, line, high);
    var a, b := Crossing(t0, line, low).value, Crossing(t0, line, high).value;
    assert HeightAt(line, t0, a) == low && HeightAt(line, t0, b) == high;
  }

  /** Samples of one moment say nothing about growth: the line is flat, at their mean. */
  lemma OneMomentFitsItsMean(rows: seq<Sample>)
    requires rows != [] && OneMoment(rows)
    ensures Fit(rows) == Line(0.0, Sum(Allocs(rows)) / |rows| as real)
  {
    DenominatorSeparatesMoments(rows);
  }

  /** The slope is in bytes per day: two samples n days of 86400 seconds apart fit exactly. */
  lemma GrowthIsPerDay(t0: real, days: real, first: real, growth: real, last: real)
    requires days > 0.0 && last == first + growth * days
    ensures Fit([Sample(t0, first), Sample(t0 + days * 86400.0, last)]) == Line(growth, first)
  {
    SumsOfTwoRows(t0, days, first, last);
    TwoSamplesSolve(days, first, growth, last);
  }

  /** A line reaches what it grows to in n days after n days of 86400 seconds. */
  lemma CrossingIsInSeconds(t0: real, line: Line, days: real, threshold: real)
    requires line.slope > 0.0 && threshold == line.intercept + line.slope * days
    ensures Crossing(t0, line, threshold) == Some(t0 + days * 86400.0)
  {
    Scale(line.slope, (threshold - line.intercept) / line.slope, days);
  }

  lemma SumsOfTwoRows(t0: real, days: real, y: real, z: real)
    ensures SumsOfRows([Sample(t0, y), Sample(t0 + days * 86400.0, z)]) == Sums(2.0, days, y + z, days * days, days * z)
  {
    var rows := [Sample(t0, y), Sample(t0 + days * 86400.0, z)];
    SpanInDays(t0, days);
    assert Days(rows, t0) == [0.0, days] && Allocs(rows) == [y, z];
    SumsOfTwo(days, y, z);
  }

  lemma SumsOfTwo(x: real, y: real, z: real)
    ensures SumsOf([0.0, x], [y, z]) == Sums(2.0, x, y + z, x * x, x * z)
  {
    var xs, ys := [0.0, x], [y, z];
    assert xs[1..] == [x] && ys[1..] == [z];
    assert Sum(xs[1..]) == x + Sum(xs[1..][1..]) && Sum(ys[1..]) == z + Sum(ys[1..][1..]);
    assert Dot(xs[1..], xs[1..]) == x * x && Dot(xs[1..], ys[1..]) == x * z;
    assert Dot(xs, xs) == 0.0 * 0.0 + Dot(xs[1..], xs[1..]) && Dot(xs, ys) == 0.0 * y + Dot(xs[1..], ys[1..]);
  }

  lemma SpanInDays(t0: real, days: real)
    ensures (t0 + days * 86400.0 - t0) / SECONDS_PER_DAY == days
  {}

  lemma TwoSamplesSolve(days: real, first: real, growth: real, last: real)
    requires days > 0.0 && last == first + growth * days
    ensures Solve(Sums(2.0, days, first + last, days * days, days * last)) == Line(growth, first)
  {
    var m := Sums(2.0, days, first + last, days * days, days * last);
    assert Denominator(m) == days * days;
    NonNegative(days);
    assert days * last == days * first + growth * (days * days);
    assert m.n * m.sxy - m.sx * m.sy == growth * (days * days);
    assert (growth * (days * days)) / (days * days) == growth;
  }

  // ----- the geometry behind them -------------------------------------------------------------

  /** The vector u*x + v. */
  function Affine(u: real, v: real, xs: seq<real>): (ws: seq<real>)
    ensures |ws| == |xs|
    ensures forall i :: 0 <= i < |xs| ==> ws[i] == u * xs[i] + v
  {
    seq(|xs|, i requires 0 <= i < |xs| => u * xs[i] + v)
  }

  /** How far another line lies above the fitted one at each sample. */
  function Gap(rows: seq<Sample>, other: Line): seq<real>
    requires rows != []
  {
    Affine(other.slope - Fit(rows).slope, other.intercept - Fit(rows).intercept, Days(rows, rows[0].ts))
  }

  /** Pythagoras: the fitted residuals stand at right angles to every gap between lines. */
  lemma ExcessIsASquare(rows: seq<Sample>, other: Line)
    requires rows != []
    ensures SquaredError(other, rows, rows[0].ts)
         == SquaredError(Fit(rows), rows, rows[0].ts) + Dot(Gap(rows, other), Gap(rows, other))
  {
    NormalEquations(rows);
    ExcessOver(rows, Fit(rows), other);
  }

  lemma ExcessOver(rows: seq<Sample>, best: Line, other: Line)
    requires rows != []
    requires SolvesNormalEquations(best, SumsOfRows(rows))
    ensures var gap := Affine(other.slope - best.slope, other.intercept - best.intercept, Days(rows, rows[0].ts));
            SquaredError(other, rows, rows[0].ts) == SquaredError(best, rows, rows[0].ts) + Dot(gap, gap)
  {
    var xs, t0 := Days(rows, rows[0].ts), rows[0].ts;
    var u, v := other.slope - best.slope, other.intercept - best.intercept;
    var rs, qs, gap := Residuals(best, rows, t0), Residuals(other, rows, t0), Affine(u, v, xs);
    ResidualsDiffer(rows, best, other);
    GapIsOrthogonal(rows, best, u, v);
    SquareOfDifference(rs, gap, qs);
  }

  lemma ResidualsDiffer(rows: seq<Sample>, best: Line, other: Line)
    requires rows != []
    ensures var t0 := rows[0].ts;
            var gap := Affine(other.slope - best.slope, other.intercept - best.intercept, Days(rows, t0));
            forall i :: 0 <= i < |rows| ==> Residuals(other, rows, t0)[i] == Residuals(best, rows, t0)[i] - gap[i]
  {
    var xs := Days(rows, rows[0].ts);
    forall i | 0 <= i < |rows| {
      LinesDiffer(best.slope, other.slope, best.intercept, other.intercept, xs[i]);
    }
  }

  lemma GapIsOrthogonal(rows: seq<Sample>, line: Line, u: real, v: real)
    requires rows != []
    requires SolvesNormalEquations(line, SumsOfRows(rows))
    ensures Dot(Affine(u, v, Days(rows, rows[0].ts)), Residuals(line, rows, rows[0].ts)) == 0.0
  {
    ResidualsAreOrthogonal(rows, line);
    DotOfAffine(u, v, Days(rows, rows[0].ts), Residuals(line, rows, rows[0].ts));
  }

  predicate SolvesNormalEquations(line: Line, m: Sums) {
    && line.slope * m.sxx + line.intercept * m.sx == m.sxy
    && line.slope * m.sx + m.n * line.intercept == m.sy
  }

  /** A line that solves the normal equations leaves residuals orthogonal to every line. */
  lemma ResidualsAreOrthogonal(rows: seq<Sample>, line: Line)
    requires rows != []
    requires SolvesNormalEquations(line, SumsOfRows(rows))
    ensures Sum(Residuals(line, rows, rows[0].ts)) == 0.0
    ensures Dot(Days(rows, rows[0].ts), Residuals(line, rows, rows[0].ts)) == 0.0
  {
    var xs, ys := Days(rows, rows[0].ts), Allocs(rows);
    var rs, heights := Residuals(line, rows, rows[0].ts), Affine(line.slope, line.intercept, xs);
    HeightsFit(line, rows);
    HeightsAreAffine(line, rows);
    DifferenceAdds(ys, heights, rs, xs);
  }

  lemma HeightsFit(line: Line, rows: seq<Sample>)
    requires rows != []
    requires SolvesNormalEquations(line, SumsOfRows(rows))
    ensures var xs, ys := Days(rows, rows[0].ts), Allocs(rows);
            var heights := Affine(line.slope, line.intercept, xs);
            Sum(heights) == Sum(ys) && Dot(xs, heights) == Dot(xs, ys)
  {
    var xs := Days(rows, rows[0].ts);
    var heights := Affine(line.slope, line.intercept, xs);
    DotOfAffine(line.slope, line.intercept, xs, xs);
    SumOfAffine(line.slope, line.intercept, xs);
    DotCommutes(xs, heights);
    HeightsSolve(line, SumsOf(xs, Allocs(rows)), Sum(heights), Dot(heights, xs));
  }

  lemma HeightsSolve(line: Line, m: Sums, total: real, weighed: real)
    requires SolvesNormalEquations(line, m)
    requires total == line.slope * m.sx + m.n * line.intercept
    requires weighed == line.slope * m.sxx + line.intercept * m.sx
    ensures total == m.sy && weighed == m.sxy
  {}

  lemma HeightsAreAffine(line: Line, rows: seq<Sample>)
    requires rows != []
    ensures var t0 := rows[0].ts;
            var heights := Affine(line.slope, line.intercept, Days(rows, t0));
            forall i :: 0 <= i < |rows| ==> Residuals(line, rows, t0)[i] == Allocs(rows)[i] - heights[i]
  {}

  /** Both branches of `Fit` solve the two equations of a stationary point. */
  lemma NormalEquations(rows: seq<Sample>)
    requires rows != []
    ensures SolvesNormalEquations(Fit(rows), SumsOfRows(rows))
  {
    var m := SumsOfRows(rows);
    if Denominator(m) == 0.0 {
      DenominatorSeparatesMoments(rows);
      SumOfZeros(Days(rows, rows[0].ts));
      DotOfZeros(Days(rows, rows[0].ts), Allocs(rows));
      FlatSolves(m);
    } else {
      SteepSolves(m);
    }
  }

  /** n times the sum of squared distances from the mean. */
  lemma DenominatorVanishes(xs: seq<real>, ys: seq<real>)
    requires |xs| == |ys| > 0
    ensures Denominator(SumsOf(xs, ys)) >= 0.0
    ensures Denominator(SumsOf(xs, ys)) == 0.0 <==> forall i :: 0 <= i < |xs| ==> xs[i] == xs[0]
  {
    var m := Sum(xs) / |xs| as real;
    var q := SpreadAboutAnyPoint(xs, m);
    SpreadAboutMean(SumsOf(xs, ys), m, q);
    SquaresAddUp(Affine(1.0, -m, xs));
    SpreadVanishes(xs, m);
  }

  /** Nothing is spread about the mean exactly when all are equal. */
  lemma SpreadVanishes(xs: seq<real>, m: real)
    requires xs != [] && m == Sum(xs) / |xs| as real
    ensures Dot(Affine(1.0, -m, xs), Affine(1.0, -m, xs)) == 0.0
            <==> forall i :: 0 <= i < |xs| ==> xs[i] == xs[0]
  {
    var spread := Affine(1.0, -m, xs);
    SquaresVanish(spread);
    assert forall i :: 0 <= i < |xs| ==> spread[i] == xs[i] - m;
    if forall i :: 0 <= i < |xs| ==> xs[i] == xs[0] { EqualsAreTheirMean(xs, m); }
  }

  lemma EqualsAreTheirMean(xs: seq<real>, m: real)
    requires xs != [] && m == Sum(xs) / |xs| as real
    requires forall i :: 0 <= i < |xs| ==> xs[i] == xs[0]
    ensures m == xs[0]
  {
    SumOfEquals(xs, xs[0]);
    MeanOfEquals(|xs| as real, xs[0], m);
  }

  lemma {:induction false} SpreadAboutAnyPoint(xs: seq<real>, m: real) returns (q: real)
    ensures q == Dot(Affine(1.0, -m, xs), Affine(1.0, -m, xs))
    ensures q == Dot(xs, xs) - 2.0 * (m * Sum(xs)) + |xs| as real * (m * m)
  {
    var spread := Affine(1.0, -m, xs);
    q := Dot(spread, spread);
    if xs != [] {
      var rest := SpreadAboutAnyPoint(xs[1..], m);
      AffineTail(1.0, -m, xs);
      assert spread[0] == xs[0] - m;
      Binomial(xs[0], m);
      assert m * Sum(xs) == m * xs[0] + m * Sum(xs[1..]);
      assert |xs| as real * (m * m) == m * m + |xs[1..]| as real * (m * m);
    }
  }

  /** With xs[0] == 0, a line is zero at every sample only if it is zero, or if every x is 0. */
  lemma VanishingGap(u: real, v: real, xs: seq<real>)
    requires xs != [] && xs[0] == 0.0
    ensures Dot(Affine(u, v, xs), Affine(u, v, xs)) == 0.0
            <==> v == 0.0 && (u == 0.0 || forall i :: 0 <= i < |xs| ==> xs[i] == 0.0)
  {
    var gap := Affine(u, v, xs);
    SquaresVanish(gap);
    forall i | 0 <= i < |xs| ensures gap[i] == 0.0 && v == 0.0 ==> u == 0.0 || xs[i] == 0.0 {
      assert gap[i] == u * xs[i] + v;
      ZeroProduct(u, xs[i]);
    }
    assert gap[0] == u * 0.0 + v;
  }

  lemma {:induction false} DotOfAffine(u: real, v: real, xs: seq<real>, zs: seq<real>)
    requires |xs| == |zs|
    ensures Dot(Affine(u, v, xs), zs) == u * Dot(xs, zs) + v * Sum(zs)
  {
    if xs != [] {
      var ws := Affine(u, v, xs);
      DotOfAffine(u, v, xs[1..], zs[1..]);
      AffineTail(u, v, xs);
      Distribute(u, v, xs[0], zs[0], ws[0], Dot(xs[1..], zs[1..]), Sum(zs[1..]));
    }
  }

  lemma {:induction false} SumOfAffine(u: real, v: real, xs: seq<real>)
    ensures Sum(Affine(u, v, xs)) == u * Sum(xs) + |xs| as real * v
  {
    if xs != [] {
      SumOfAffine(u, v, xs[1..]);
      AffineTail(u, v, xs);
      assert u * (xs[0] + Sum(xs[1..])) == u * xs[0] + u * Sum(xs[1..]);
      assert |xs| as real * v == v + |xs[1..]| as real * v;
    }
  }

  lemma AffineTail(u: real, v: real, xs: seq<real>)
    requires xs != []
    ensures Affine(u, v, xs)[1..] == Affine(u, v, xs[1..])
  {
    assert forall i :: 0 <= i < |xs[1..]| ==> Affine(u, v, xs)[1..][i] == u * xs[1..][i] + v;
  }

  lemma {:induction false} DotCommutes(xs: seq<real>, ys: seq<real>)
    requires |xs| == |ys|
    ensures Dot(xs, ys) == Dot(ys, xs)
  {
    if xs != [] { DotCommutes(xs[1..], ys[1..]); }
  }

  lemma {:induction false} SquareOfDifference(rs: seq<real>, ws: seq<real>, qs: seq<real>)
    requires |rs| == |ws| == |qs|
    requires forall i :: 0 <= i < |rs| ==> qs[i] == rs[i] - ws[i]
    ensures Dot(qs, qs) == Dot(rs, rs) - 2.0 * Dot(ws, rs) + Dot(ws, ws)
  {
    if rs != [] {
      SquareOfDifference(rs[1..], ws[1..], qs[1..]);
      Binomial(rs[0], ws[0]);
    }
  }

  lemma {:induction false} DifferenceAdds(ys: seq<real>, ws: seq<real>, rs: seq<real>, xs: seq<real>)
    requires |ys| == |ws| == |rs| == |xs|
    requires forall i :: 0 <= i < |ys| ==> rs[i] == ys[i] - ws[i]
    ensures Sum(rs) == Sum(ys) - Sum(ws)
    ensures Dot(xs, rs) == Dot(xs, ys) - Dot(xs, ws)
  {
    if ys != [] {
      DifferenceAdds(ys[1..], ws[1..], rs[1..], xs[1..]);
      assert xs[0] * (ys[0] - ws[0]) == xs[0] * ys[0] - xs[0] * ws[0];
    }
  }

  lemma {:induction false} SquaresAddUp(ws: seq<real>)
    ensures Dot(ws, ws) >= 0.0
  {
    if ws != [] {
      SquaresAddUp(ws[1..]);
      NonNegative(ws[0]);
    }
  }

  lemma {:induction false} SquaresVanish(ws: seq<real>)
    ensures Dot(ws, ws) == 0.0 <==> forall i :: 0 <= i < |ws| ==> ws[i] == 0.0
  {
    if ws != [] {
      SquaresVanish(ws[1..]);
      SquaresAddUp(ws[1..]);
      NonNegative(ws[0]);
      assert forall i :: 1 <= i < |ws| ==> ws[i] == ws[1..][i - 1];
      assert forall i :: 0 <= i < |ws[1..]| ==> ws[1..][i] == ws[i + 1];
    }
  }

  lemma {:induction false} SumOfZeros(xs: seq<real>)
    requires forall i :: 0 <= i < |xs| ==> xs[i] == 0.0
    ensures Sum(xs) == 0.0
  {
    if xs != [] { SumOfZeros(xs[1..]); }
  }

  lemma {:induction false} SumOfEquals(xs: seq<real>, x: real)
    requires forall i :: 0 <= i < |xs| ==> xs[i] == x
    ensures Sum(xs) == |xs| as real * x
  {
    if xs != [] {
      SumOfEquals(xs[1..], x);
      assert |xs| as real * x == x + (|xs| - 1) as real * x;
    }
  }

  lemma {:induction false} DotOfZeros(xs: seq<real>, ys: seq<real>)
    requires |xs| == |ys|
    requires forall i :: 0 <= i < |xs| ==> xs[i] == 0.0
    ensures Dot(xs, ys) == 0.0
  {
    if xs != [] { DotOfZeros(xs[1..], ys[1..]); }
  }

  // ----- arithmetic ---------------------------------------------------------------------------

  lemma SteepSolves(m: Sums)
    requires m.n > 0.0 && Denominator(m) != 0.0
    ensures SolvesNormalEquations(Solve(m), m)
  {
    var d, a, b := Denominator(m), Solve(m).slope, Solve(m).intercept;
    assert m.n * b == m.sy - a * m.sx;
    assert a * d == m.n * m.sxy - m.sx * m.sy;
    assert m.n * (a * m.sxx + b * m.sx) == a * (m.n * m.sxx) + (m.n * b) * m.sx;
    assert (m.n * b) * m.sx == m.sy * m.sx - a * (m.sx * m.sx);
    assert a * (m.n * m.sxx) - a * (m.sx * m.sx) == a * d;
    assert m.n * (a * m.sxx + b * m.sx) == m.n * m.sxy;
    Scale(m.n, a * m.sxx + b * m.sx, m.sxy);
  }

  lemma FlatSolves(m: Sums)
    requires m.n > 0.0 && Denominator(m) == 0.0
    requires m.sx == 0.0 && m.sxy == 0.0
    ensures SolvesNormalEquations(Solve(m), m)
  {}

  lemma SpreadAboutMean(m: Sums, mean: real, q: real)
    requires m.n > 0.0 && mean == m.sx / m.n
    requires q == m.sxx - 2.0 * (mean * m.sx) + m.n * (mean * mean)
    ensures Denominator(m) >= 0.0 <==> q >= 0.0
    ensures Denominator(m) == 0.0 <==> q == 0.0
  {
    assert m.n * mean == m.sx;
    assert m.n * (mean * mean) == mean * m.sx;
    assert m.n * (mean * m.sx) == m.sx * m.sx;
    assert Denominator(m) == m.n * q;
    Scale(m.n, 0.0, q);
  }

  lemma MeanOfEquals(n: real, x: real, m: real)
    requires n > 0.0 && m == (n * x) / n
    ensures m == x
  {}

  lemma Distribute(u: real, v: real, x: real, z: real, w: real, d: real, s: real)
    requires w == u * x + v
    ensures w * z + (u * d + v * s) == u * (x * z + d) + v * (z + s)
  {}

  lemma Binomial(r: real, w: real)
    ensures (r - w) * (r - w) == r * r - 2.0 * (w * r) + w * w
  {}

  lemma LinesDiffer(a: real, c: real, b: real, d: real, x: real)
    ensures (d + c * x) - (b + a * x) == (c - a) * x + (d - b)
  {}

  lemma ZeroProduct(u: real, x: real)
    ensures u * x == 0.0 <==> u == 0.0 || x == 0.0
  {
    if x != 0.0 { assert u == (u * x) / x; }
  }

  lemma NonNegative(x: real)
    ensures x * x >= 0.0
    ensures x * x == 0.0 <==> x == 0.0
  {
    ZeroProduct(x, x);
  }
}
