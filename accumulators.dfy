/**
 * The two accumulators of the analog-front-end fixture code: `average`
 * (running sum, maximum and minimum, then a truncating mean) and
 * `linear_fit` (least-squares line through (x, y) samples).
 *
 * C++ `int` overflow is not modelled (integers are unbounded); the
 * `double` fields of `linear_fit` are modelled as `real`.
 */
module Accumulators {

  /** `INT_MIN` and `INT_MAX` for a 32-bit `int`. */
  const IntMin: int := -0x8000_0000
  const IntMax: int := 0x7fff_ffff

  /** Sum of a sequence, peeling the last element (the order `update` adds them). */
  function Sum(s: seq<int>): int
  {
    if s == [] then 0 else Sum(s[..|s| - 1]) + s[|s| - 1]
  }

  /** `std::max` folded over `s`, starting from `init`. */
  function MaxOf(init: int, s: seq<int>): int
  {
    if s == [] then init
    else var m := MaxOf(init, s[..|s| - 1]); if m < s[|s| - 1] then s[|s| - 1] else m
  }

  /** `std::min` folded over `s`, starting from `init`. */
  function MinOf(init: int, s: seq<int>): int
  {
    if s == [] then init
    else var m := MinOf(init, s[..|s| - 1]); if s[|s| - 1] < m then s[|s| - 1] else m
  }

  /** C++ integer division: the quotient is truncated toward zero. */
  function TruncDiv(a: int, b: int): int
    requires b > 0
  {
    if a >= 0 then a / b else -((-a) / b)
  }

  /** What `average::calc` leaves in `avg` after the samples `s` were added. */
  function Mean(s: seq<int>): int
  {
    if |s| > 0 then TruncDiv(Sum(s), |s|) else 0
  }

  /** Average a series of numbers and record the maximum and minimum values. */
  class Average {
    var avg: int
    var max: int
    var min: int
    var count: int

    /** The values passed to `Update` so far. */
    ghost var Samples: seq<int>

    /** Before `Calc`, the fields are the running sum, maximum, minimum and count. */
    ghost predicate Valid()
      reads this
    {
      && count == |Samples|
      && avg == Sum(Samples)
      && max == MaxOf(IntMin, Samples)
      && min == MinOf(IntMax, Samples)
    }

    constructor ()
      ensures Valid() && Samples == []
      ensures avg == 0 && max == IntMin && min == IntMax && count == 0
    {
      avg, max, min, count := 0, IntMin, IntMax, 0;
      Samples := [];
    }

    method Update(val: int)
      requires Valid()
      modifies this
      ensures Valid() && Samples == old(Samples) + [val]
      ensures avg == old(avg) + val && count == old(count) + 1
      ensures max == (if old(max) < val then val else old(max))
      ensures min == (if val < old(min) then val else old(min))
    {
      avg := avg + val;
      max := if max < val then val else max;
      min := if val < min then val else min;
      count := count + 1;
      Samples := Samples + [val];
      assert Samples[..|Samples| - 1] == old(Samples);
    }

    /** Turns the running sum into the mean; with no samples `avg` stays 0. */
    method Calc()
      requires Valid()
      modifies this`avg
      ensures avg == Mean(Samples)
      ensures Samples != [] ==> min <= avg <= max
    {
      if count > 0 {
        avg := TruncDiv(avg, count);
        MeanWithinExtremes(Samples);
      }
    }
  }

  lemma {:induction false} SumBounds(s: seq<int>, lo: int, hi: int)
    requires forall i :: 0 <= i < |s| ==> lo <= s[i] <= hi
    ensures |s| * lo <= Sum(s) <= |s| * hi
  {
    if s != [] {
      var t := s[..|s| - 1];
      SumBounds(t, lo, hi);
      assert |s| * lo == |t| * lo + lo && |s| * hi == |t| * hi + hi;
    }
  }

  lemma {:induction false} ExtremesBound(s: seq<int>)
    ensures forall i :: 0 <= i < |s| ==> MinOf(IntMax, s) <= s[i] <= MaxOf(IntMin, s)
  {
    if s != [] {
      ExtremesBound(s[..|s| - 1]);
    }
  }

  /** Floor division of a value between `n*lo` and `n*hi` lies between `lo` and `hi`. */
  lemma FloorDivBounds(a: int, n: int, lo: int, hi: int)
    requires n > 0 && n * lo <= a <= n * hi
    ensures lo <= a / n <= hi
  {
    var q, r := a / n, a % n;
    assert a == n * q + r && 0 <= r < n;
    MulLess(lo, q, n);
    MulLess(q, hi, n);
  }

  /** If `n*u` stays below `n*v + n` then `u <= v` (for positive `n`). */
  lemma MulLess(u: int, v: int, n: int)
    requires n > 0
    ensures n * u < n * v + n ==> u <= v
  {
    if u > v {
      assert n * u >= n * (v + 1);
    }
  }

  /** Truncating division of a value between `n*lo` and `n*hi` lies between `lo` and `hi`. */
  lemma TruncDivBounds(a: int, n: int, lo: int, hi: int)
    requires n > 0 && n * lo <= a <= n * hi
    ensures lo <= TruncDiv(a, n) <= hi
  {
    if a >= 0 {
      FloorDivBounds(a, n, lo, hi);
    } else {
      assert n * (-hi) <= -a <= n * (-lo);
      FloorDivBounds(-a, n, -hi, -lo);
    }
  }

  /** The mean `average::calc` produces lies between the recorded minimum and maximum. */
  lemma MeanWithinExtremes(s: seq<int>)
    requires s != []
    ensures MinOf(IntMax, s) <= Mean(s) <= MaxOf(IntMin, s)
  {
    var lo, hi := MinOf(IntMax, s), MaxOf(IntMin, s);
    ExtremesBound(s);
    SumBounds(s, lo, hi);
    TruncDivBounds(Sum(s), |s|, lo, hi);
  }

  // ---------------------------------------------------------------------
  // linear_fit<int>
  // ---------------------------------------------------------------------

  /** Sums over (x, y) samples, each kept as the C++ `int` products would be. */
  function SumX(s: seq<(int, int)>): int
  {
    if s == [] then 0 else SumX(s[..|s| - 1]) + s[|s| - 1].0
  }

  function SumY(s: seq<(int, int)>): int
  {
    if s == [] then 0 else SumY(s[..|s| - 1]) + s[|s| - 1].1
  }

  function SumXY(s: seq<(int, int)>): int
  {
    if s == [] then 0 else SumXY(s[..|s| - 1]) + s[|s| - 1].0 * s[|s| - 1].1
  }

  function SumXSq(s: seq<(int, int)>): int
  {
    if s == [] then 0 else SumXSq(s[..|s| - 1]) + s[|s| - 1].0 * s[|s| - 1].0
  }

  /** The divisor `linear_fit::calc` uses: `sum_x^2 - count * sum_x_sq`. */
  function Divisor(s: seq<(int, int)>): int
  {
    SumX(s) * SumX(s) - |s| * SumXSq(s)
  }

  /** The same divisor as `calc` computes it, on the `double` sums. */
  function DivisorR(s: seq<(int, int)>): real
  {
    SumX(s) as real * SumX(s) as real - |s| as real * SumXSq(s) as real
  }

  /** `calc`'s slope over the count `n` and the sums of x, y, x*y and x*x. */
  function Slope(n: real, x: real, y: real, xy: real, xx: real): real
    requires x * x - n * xx != 0.0
  {
    (x * y - n * xy) / (x * x - n * xx)
  }

  /** `calc`'s intercept over the count `n` and the sums of x, y, x*y and x*x. */
  function Intercept(n: real, x: real, y: real, xy: real, xx: real): real
    requires x * x - n * xx != 0.0
  {
    (x * xy - y * xx) / (x * x - n * xx)
  }

  /** Slope `k` of the least-squares line `y = k x + c`. */
  function FitK(s: seq<(int, int)>): real
    requires DivisorR(s) != 0.0
  {
    Slope(|s| as real, SumX(s) as real, SumY(s) as real, SumXY(s) as real, SumXSq(s) as real)
  }

  /** Intercept `c` of the least-squares line `y = k x + c`. */
  function FitC(s: seq<(int, int)>): real
    requires DivisorR(s) != 0.0
  {
    Intercept(|s| as real, SumX(s) as real, SumY(s) as real, SumXY(s) as real, SumXSq(s) as real)
  }

  /** The `double` divisor is the integer one: the sums are whole numbers. */
  lemma DivisorCast(s: seq<(int, int)>)
    ensures DivisorR(s) == Divisor(s) as real
  {
    CastMul(SumX(s), SumX(s));
    CastMul(|s|, SumXSq(s));
  }

  /** Conversion of a `double` to `int`: truncation toward zero. */
  function Trunc(r: real): int
  {
    if r >= 0.0 then r.Floor else -((-r).Floor)
  }

  /** Least-squares line fit over integer samples. */
  class LinearFit {
    var k: real
    var c: real
    var sumX: real
    var sumY: real
    var sumXY: real
    var sumXSq: real
    var count: int

    /** The (x, y) pairs passed to `Update` so far. */
    ghost var Samples: seq<(int, int)>

    ghost predicate Valid()
      reads this
    {
      && count == |Samples|
      && sumX == SumX(Samples) as real
      && sumY == SumY(Samples) as real
      && sumXY == SumXY(Samples) as real
      && sumXSq == SumXSq(Samples) as real
    }

    constructor ()
      ensures Valid() && Samples == [] && k == 0.0 && c == 0.0
    {
      k, c := 0.0, 0.0;
      sumX, sumY, sumXY, sumXSq := 0.0, 0.0, 0.0, 0.0;
      count := 0;
      Samples := [];
    }

    method Update(x: int, y: int)
      requires Valid()
      modifies this
      ensures Valid() && Samples == old(Samples) + [(x, y)]
      ensures k == old(k) && c == old(c)
    {
      sumX := sumX + x as real;
      sumY := sumY + y as real;
      sumXY := sumXY + (x * y) as real;
      sumXSq := sumXSq + (x * x) as real;
      count := count + 1;
      Samples := Samples + [(x, y)];
      assert Samples[..|Samples| - 1] == old(Samples);
    }

    /** Computes `k` and `c`; the source divides by zero when all x are equal. */
    method Calc()
      requires Valid() && DivisorR(Samples) != 0.0
      modifies this`k, this`c
      ensures k == FitK(Samples) && c == FitC(Samples)
    {
      var n := count as real;
      k := Slope(n, sumX, sumY, sumXY, sumXSq);
      c := Intercept(n, sumX, sumY, sumXY, sumXSq);
    }

    /** `linear_fit::y`: the fitted line at `x`, converted back to `int`. */
    function Y(x: int): int
      reads this
    {
      LineAt(k, c, x)
    }
  }

  /** The line `k x + c` at `x`, converted to `int`. */
  function LineAt(k: real, c: real, x: int): int
  {
    Trunc(k * x as real + c)
  }

  /**
   * Once `calc` has run on samples that lie on the line `y = K x + C`, not
   * all at one `x`, the fit answers that line at every `x`.
   */
  lemma YOnLine(f: LinearFit, K: real, C: real, x: int)
    requires f.Valid() && OnLine(f.Samples, K, C) && DivisorR(f.Samples) != 0.0
    requires f.k == FitK(f.Samples) && f.c == FitC(f.Samples)
    ensures f.Y(x) == LineAt(K, C, x)
  {
    FitRecoversLine(f.Samples, K, C);
  }

  /** Adding a sample `x` raises `count*sum_x_sq - sum_x^2` by the squared distances to `x`. */
  function SqDist(s: seq<(int, int)>, x: int): int
  {
    if s == [] then 0 else SqDist(s[..|s| - 1], x) + (s[|s| - 1].0 - x) * (s[|s| - 1].0 - x)
  }

  lemma {:induction false} SqDistExpand(s: seq<(int, int)>, x: int)
    ensures SqDist(s, x) == SumXSq(s) - 2 * x * SumX(s) + |s| * x * x
    ensures SqDist(s, x) >= 0
  {
    if s != [] {
      var t, a := s[..|s| - 1], s[|s| - 1].0;
      SqDistExpand(t, x);
      assert SqDist(s, x) == SqDist(t, x) + (a - x) * (a - x);
      assert SumXSq(s) == SumXSq(t) + a * a && SumX(s) == SumX(t) + a;
      SquareStep(a, x, |t|, SumX(t), SumXSq(t), SqDist(t, x));
    }
  }

  lemma SquareStep(a: int, x: int, n: int, sx: int, sxx: int, d: int)
    requires d == sxx - 2 * x * sx + n * x * x && d >= 0
    ensures d + (a - x) * (a - x) == (sxx + a * a) - 2 * x * (sx + a) + (n + 1) * x * x
    ensures d + (a - x) * (a - x) >= 0
  {
  }

  lemma DivisorStep(s: seq<(int, int)>, p: (int, int))
    ensures -Divisor(s + [p]) == -Divisor(s) + SqDist(s, p.0)
  {
    var t := s + [p];
    assert t[..|t| - 1] == s;
    SqDistExpand(s, p.0);
    assert SumX(t) == SumX(s) + p.0 && SumXSq(t) == SumXSq(s) + p.0 * p.0;
    DivisorIdentity(|s|, SumX(s), SumXSq(s), p.0);
  }

  lemma DivisorIdentity(n: int, sx: int, sxx: int, x: int)
    ensures (n + 1) * (sxx + x * x) - (sx + x) * (sx + x)
         == (n * sxx - sx * sx) + (sxx - 2 * x * sx + n * x * x)
  {
  }

  /** The divisor is never positive: `count*sum_x_sq >= sum_x^2`. */
  lemma {:induction false} DivisorNonPositive(s: seq<(int, int)>)
    ensures Divisor(s) <= 0
  {
    if s != [] {
      DivisorNonPositive(s[..|s| - 1]);
      DivisorStep(s[..|s| - 1], s[|s| - 1]);
      SqDistExpand(s[..|s| - 1], s[|s| - 1].0);
      assert s[..|s| - 1] + [s[|s| - 1]] == s;
    }
  }

  /** Two samples with distinct x make the divisor `-(x1 - x2)^2`, hence nonzero. */
  lemma TwoPointDivisor(x1: int, y1: int, x2: int, y2: int)
    ensures Divisor([(x1, y1), (x2, y2)]) == -((x1 - x2) * (x1 - x2))
    ensures x1 != x2 <==> Divisor([(x1, y1), (x2, y2)]) != 0
  {
    var s := [(x1, y1), (x2, y2)];
    assert s[..1] == [(x1, y1)];
    assert [(x1, y1)][..0] == [];
    assert SumX([(x1, y1)]) == x1 && SumXSq([(x1, y1)]) == x1 * x1;
    assert SumX(s) == x1 + x2 && SumXSq(s) == x1 * x1 + x2 * x2;
    TwoPointIdentity(x1, x2);
  }

  lemma TwoPointIdentity(x1: int, x2: int)
    ensures (x1 + x2) * (x1 + x2) - 2 * (x1 * x1 + x2 * x2) == -((x1 - x2) * (x1 - x2))
    ensures (x1 - x2) * (x1 - x2) == 0 ==> x1 == x2
  {
    if x1 != x2 {
      assert (x1 - x2) * (x1 - x2) > 0;
    }
  }

  /**
   * Once the first two samples have distinct x, the divisor stays nonzero
   * however many samples follow.
   */
  lemma {:induction false} DivisorNonzeroAfterDistinctPair(s: seq<(int, int)>)
    requires |s| >= 2 && s[0].0 != s[1].0
    ensures Divisor(s) != 0
  {
    if |s| == 2 {
      TwoPointDivisor(s[0].0, s[0].1, s[1].0, s[1].1);
      assert s == [(s[0].0, s[0].1), (s[1].0, s[1].1)];
    } else {
      var t := s[..|s| - 1];
      DivisorNonzeroAfterDistinctPair(t);
      DivisorNonPositive(t);
      DivisorStep(t, s[|s| - 1]);
      SqDistExpand(t, s[|s| - 1].0);
      assert t + [s[|s| - 1]] == s;
    }
  }

  /** Samples that all lie on `y = K x + C`. */
  ghost predicate OnLine(s: seq<(int, int)>, K: real, C: real)
  {
    forall i :: 0 <= i < |s| ==> s[i].1 as real == K * s[i].0 as real + C
  }

  /** The sums of `linear_fit::update` accumulated in `double`, sample by sample. */
  function SumXR(s: seq<(int, int)>): real
  {
    if s == [] then 0.0 else SumXR(s[..|s| - 1]) + s[|s| - 1].0 as real
  }

  function SumYR(s: seq<(int, int)>): real
  {
    if s == [] then 0.0 else SumYR(s[..|s| - 1]) + s[|s| - 1].1 as real
  }

  function SumXYR(s: seq<(int, int)>): real
  {
    if s == [] then 0.0 else SumXYR(s[..|s| - 1]) + s[|s| - 1].0 as real * s[|s| - 1].1 as real
  }

  function SumXSqR(s: seq<(int, int)>): real
  {
    if s == [] then 0.0 else SumXSqR(s[..|s| - 1]) + s[|s| - 1].0 as real * s[|s| - 1].0 as real
  }

  /** Summing in `double` gives the integer sums: every term is a whole number. */
  lemma {:induction false} SumsCast(s: seq<(int, int)>)
    ensures SumX(s) as real == SumXR(s) && SumY(s) as real == SumYR(s)
    ensures SumXY(s) as real == SumXYR(s) && SumXSq(s) as real == SumXSqR(s)
  {
    if s != [] {
      var p := s[|s| - 1];
      SumsCast(s[..|s| - 1]);
      CastMul(p.0, p.1);
      CastMul(p.0, p.0);
    }
  }

  /** The normal equations of the line `y = K x + C` over the count and sums of x, y, x*y, x*x. */
  ghost predicate NormalEquations(n: real, sx: real, sy: real, sxy: real, sxx: real, K: real, C: real)
  {
    sy == K * sx + n * C && sxy == K * sxx + C * sx
  }

  /** The count and sums `n'`, `sx'`, ... are `n`, `sx`, ... with the sample (x, y) added. */
  ghost predicate Added(n: real, sx: real, sy: real, sxy: real, sxx: real, x: real, y: real,
                        n': real, sx': real, sy': real, sxy': real, sxx': real)
  {
    n' == n + 1.0 && sx' == sx + x && sy' == sy + y && sxy' == sxy + x * y && sxx' == sxx + x * x
  }

  /** Appending a sample adds it to each sum. */
  lemma SnocSums(t: seq<(int, int)>, p: (int, int))
    ensures Added(|t| as real, SumXR(t), SumYR(t), SumXYR(t), SumXSqR(t), p.0 as real, p.1 as real,
                  |t + [p]| as real, SumXR(t + [p]), SumYR(t + [p]), SumXYR(t + [p]), SumXSqR(t + [p]))
  {
    var s := t + [p];
    assert s[..|s| - 1] == t;
  }

  /** Adding a sample on the line keeps the sums satisfying the normal equations. */
  lemma NormalStep(n: real, sx: real, sy: real, sxy: real, sxx: real, x: real, y: real,
                   n': real, sx': real, sy': real, sxy': real, sxx': real, K: real, C: real)
    requires NormalEquations(n, sx, sy, sxy, sxx, K, C) && y == K * x + C
    requires Added(n, sx, sy, sxy, sxx, x, y, n', sx', sy', sxy', sxx')
    ensures NormalEquations(n', sx', sy', sxy', sxx', K, C)
  {
  }

  lemma {:induction false} OnLineSumsR(s: seq<(int, int)>, K: real, C: real)
    requires OnLine(s, K, C)
    ensures NormalEquations(|s| as real, SumXR(s), SumYR(s), SumXYR(s), SumXSqR(s), K, C)
  {
    if s != [] {
      var t, p := s[..|s| - 1], s[|s| - 1];
      assert OnLine(t, K, C) by {
        forall i | 0 <= i < |t| ensures t[i].1 as real == K * t[i].0 as real + C {
          assert t[i] == s[i];
        }
      }
      OnLineSumsR(t, K, C);
      SnocSums(t, p);
      assert t + [p] == s;
      NormalStep(|t| as real, SumXR(t), SumYR(t), SumXYR(t), SumXSqR(t), p.0 as real, p.1 as real,
                 |s| as real, SumXR(s), SumYR(s), SumXYR(s), SumXSqR(s), K, C);
    }
  }

  /** Samples on the line `y = K x + C` make `update`'s sums satisfy its normal equations. */
  lemma OnLineSums(s: seq<(int, int)>, K: real, C: real)
    requires OnLine(s, K, C)
    ensures NormalEquations(|s| as real, SumX(s) as real, SumY(s) as real, SumXY(s) as real, SumXSq(s) as real, K, C)
  {
    OnLineSumsR(s, K, C);
    SumsCast(s);
  }

  /**
   * The least-squares fit recovers the line exactly when every sample lies on
   * it (and not all x are equal).
   */
  lemma FitRecoversLine(s: seq<(int, int)>, K: real, C: real)
    requires OnLine(s, K, C) && DivisorR(s) != 0.0
    ensures FitK(s) == K && FitC(s) == C
  {
    OnLineSums(s, K, C);
    LineAlgebra(|s| as real, SumX(s) as real, SumY(s) as real, SumXY(s) as real, SumXSq(s) as real, K, C);
  }

  lemma CastMul(a: int, b: int)
    ensures (a * b) as real == a as real * b as real
  {
  }

  /** The fit formulas solve the normal equations of the line `y = K x + C`. */
  lemma LineAlgebra(n: real, sx: real, sy: real, sxy: real, sxx: real, K: real, C: real)
    requires NormalEquations(n, sx, sy, sxy, sxx, K, C)
    requires sx * sx - n * sxx != 0.0
    ensures Slope(n, sx, sy, sxy, sxx) == K
    ensures Intercept(n, sx, sy, sxy, sxx) == C
  {
    var d := sx * sx - n * sxx;
    assert sx * sy - n * sxy == K * d;
    assert sx * sxy - sy * sxx == C * d;
  }

  /**
   * The worked example of the offset loop: samples (baseline, dac) on the
   * hardware line `baseline = 2*dac + 100` fit `dac = 0.5*baseline - 50`, and
   * the fitted DAC for a target baseline of 500 is 200.
   */
  lemma FitExample()
    ensures DivisorR([(100, 0), (300, 100)]) != 0.0
    ensures FitK([(100, 0), (300, 100)]) == 0.5
    ensures FitC([(100, 0), (300, 100)]) == -50.0
    ensures Trunc(FitK([(100, 0), (300, 100)]) * 500.0 + FitC([(100, 0), (300, 100)])) == 200
  {
    var s := [(100, 0), (300, 100)];
    TwoPointDivisor(100, 0, 300, 100);
    DivisorCast(s);
    assert OnLine(s, 0.5, -50.0);
    FitRecoversLine(s, 0.5, -50.0);
  }
}
