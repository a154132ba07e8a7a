/** Where the variance of the test comes from: it is the spread of the midranks around their mean, scaled to the two
    samples, which fixes every constant of its formula. */
module RankVariance {
  import opened Basics
  import opened Sums
  import opened Ordering
  import opened PairCounts
  import opened MannWhitney

  /** How far the midrank of a value lies from `m`, squared. */
  function SquaredSpread(pool: seq<real>, m: real): real -> real {
    v => (MidRank(pool, v) - m) * (MidRank(pool, v) - m)
  }

  /** The sum of `(k - m)^2` for `k` from 1 to `j`. */
  function UntiedSpread(j: nat, m: real): real {
    if j == 0 then 0.0 else UntiedSpread(j - 1, m) + (j as real - m) * (j as real - m)
  }

  function Cubic(r: real, m: real): real {
    r * (r + 1.0) * (2.0 * r + 1.0) / 6.0 - m * r * (r + 1.0) + r * m * m
  }

  lemma {:induction false} UntiedSpreadClosed(j: nat, m: real)
    ensures UntiedSpread(j, m) == Cubic(j as real, m)
  {
    if j > 0 {
      UntiedSpreadClosed(j - 1, m);
      NextSquare(j as real - 1.0, m);
    }
  }

  lemma NextSquare(r: real, m: real)
    ensures Cubic(r, m) + (r + 1.0 - m) * (r + 1.0 - m) == Cubic(r + 1.0, m)
  {
  }

  /** Averaging `t` consecutive ranks takes a twelfth of `t^3 - t` out of their spread. */
  lemma GroupIdentity(a: real, t: real, m: real)
    ensures var r := (a + 1.0 + (a + t)) / 2.0;
            t * ((r - m) * (r - m)) == Cubic(a + t, m) - Cubic(a, m) - (t*t*t - t) / 12.0
  {
  }

  lemma AveragedCubic(a: real, b: real, m: real, t: real, c: real, w: real)
    requires t == b - a && w == t*t*t - t
    requires var r := (a + 1.0 + b) / 2.0; c == (r - m) * (r - m)
    ensures t * c == Cubic(b, m) - Cubic(a, m) - w / 12.0
  {
    assert a + t == b;
    GroupIdentity(a, t, m);
  }

  lemma AveragedSpread(i: nat, j: nat, m: real, t: real, c: real, w: real)
    requires i < j && t == (j - i) as real && w == t*t*t - t
    requires var r := ((i + 1) as real + j as real) / 2.0; c == (r - m) * (r - m)
    ensures t * c == UntiedSpread(j, m) - UntiedSpread(i, m) - w / 12.0
  {
    AveragedCubic(i as real, j as real, m, t, c, w);
    UntiedSpreadClosed(i, m);
    UntiedSpreadClosed(j, m);
  }

  /** Where the tie group that ends at `j` starts. */
  lemma {:induction false} GroupStart(pool: seq<real>, j: nat, at: nat) returns (i: nat)
    requires Ascending(pool) && 0 < j <= |pool| && (j < |pool| ==> pool[j-1] < pool[j])
    requires at < j && forall k | at <= k < j :: pool[k] == pool[j-1]
    ensures i <= at && TieGroup(pool, i, j)
  {
    if at > 0 && pool[at-1] == pool[j-1] {
      i := GroupStart(pool, j, at - 1);
    } else {
      i := at;
    }
  }

  /** Up to the end of any tie group the spread of the midranks is that of untied ranks, less a twelfth of the tie
      correction. */
  lemma {:induction false} SpreadUpTo(pool: seq<real>, j: nat, m: real)
    requires Ascending(pool) && j <= |pool| && (0 < j < |pool| ==> pool[j-1] < pool[j])
    ensures Sum(pool[..j], SquaredSpread(pool, m)) == UntiedSpread(j, m) - Sum(pool[..j], TieTerm(pool)) / 12.0
    decreases j
  {
    if j > 0 {
      var i := GroupStart(pool, j, j - 1);
      SpreadUpTo(pool, i, m);
      var c := SharedSpread(pool, i, j, m);
      AddGroup(pool, i, j, m, c);
    }
  }

  /** The squared distance that all members of a tie group share, in terms of what the group adds to the tie
      correction. */
  lemma SharedSpread(pool: seq<real>, i: nat, j: nat, m: real) returns (c: real)
    requires TieGroup(pool, i, j)
    ensures forall k | i <= k < j :: SquaredSpread(pool, m)(pool[k]) == c
    ensures (j - i) as real * c == UntiedSpread(j, m) - UntiedSpread(i, m)
                                   - (Sum(pool[..j], TieTerm(pool)) - Sum(pool[..i], TieTerm(pool))) / 12.0
  {
    c := SpreadByWeight(pool, i, j, m, (j - i) as real, TieGain(pool, i, j, (j - i) as real));
  }

  /** What a tie group adds to the tie correction. */
  ghost function TieGain(pool: seq<real>, i: nat, j: nat, t: real): (w: real)
    requires TieGroup(pool, i, j) && t == (j - i) as real
    ensures w == t*t*t - t
  {
    GroupTies(pool, i, j, t);
    Sum(pool[..j], TieTerm(pool)) - Sum(pool[..i], TieTerm(pool))
  }

  lemma SpreadByWeight(pool: seq<real>, i: nat, j: nat, m: real, t: real, w: real) returns (c: real)
    requires TieGroup(pool, i, j) && t == (j - i) as real && w == t*t*t - t
    ensures forall k | i <= k < j :: SquaredSpread(pool, m)(pool[k]) == c
    ensures t * c == UntiedSpread(j, m) - UntiedSpread(i, m) - w / 12.0
  {
    var r := ((i + 1) as real + j as real) / 2.0;
    c := (r - m) * (r - m);
    GroupSpread(pool, i, j, m, r, c);
    AveragedSpread(i, j, m, t, c, w);
  }

  lemma AddGroup(pool: seq<real>, i: nat, j: nat, m: real, c: real)
    requires TieGroup(pool, i, j)
    requires forall k | i <= k < j :: SquaredSpread(pool, m)(pool[k]) == c
    requires (j - i) as real * c == UntiedSpread(j, m) - UntiedSpread(i, m)
                                    - (Sum(pool[..j], TieTerm(pool)) - Sum(pool[..i], TieTerm(pool))) / 12.0
    requires Sum(pool[..i], SquaredSpread(pool, m)) == UntiedSpread(i, m) - Sum(pool[..i], TieTerm(pool)) / 12.0
    ensures Sum(pool[..j], SquaredSpread(pool, m)) == UntiedSpread(j, m) - Sum(pool[..j], TieTerm(pool)) / 12.0
  {
    GroupSum(pool, i, j, SquaredSpread(pool, m), c);
  }

  lemma GroupSpread(pool: seq<real>, i: nat, j: nat, m: real, r: real, c: real)
    requires TieGroup(pool, i, j) && r == ((i + 1) as real + j as real) / 2.0 && c == (r - m) * (r - m)
    ensures forall k | i <= k < j :: SquaredSpread(pool, m)(pool[k]) == c
  {
    GroupRank(pool, i, j, pool[i]);
    assert SquaredSpread(pool, m)(pool[i]) == c;
  }

  lemma SpreadOrderFree(s: seq<real>, t: seq<real>, m: real)
    requires multiset(s) == multiset(t)
    ensures Sum(s, SquaredSpread(s, m)) == Sum(t, SquaredSpread(t, m))
  {
    forall v ensures SquaredSpread(s, m)(v) == SquaredSpread(t, m)(v) {
      SumPermutation(s, t, ScoreOf(v));
    }
    SumEqual(s, SquaredSpread(s, m), SquaredSpread(t, m));
    SumPermutation(s, t, SquaredSpread(t, m));
  }

  /** The spread of all midranks around their mean, for any pool in any order. */
  lemma SpreadOfPool(pool: seq<real>, n: real, m: real, total: real)
    requires n == |pool| as real && m == (n + 1.0) / 2.0 && total == n*n*n - n
    ensures Sum(pool, SquaredSpread(pool, m)) == (total - TieCorrection(pool)) / 12.0
  {
    assert UntiedSpread(|pool|, m) == total / 12.0 by { MeanSpread(|pool|, n, total); }
    SpreadOfAny(pool, m);
  }

  lemma SpreadOfAny(pool: seq<real>, m: real)
    ensures Sum(pool, SquaredSpread(pool, m)) == UntiedSpread(|pool|, m) - TieCorrection(pool) / 12.0
  {
    SpreadOrderFree(pool, Sorted(pool), m);
    TieCorrectionOrderFree(pool, Sorted(pool));
    SpreadOfSorted(Sorted(pool), m);
  }

  lemma SpreadOfSorted(sorted: seq<real>, m: real)
    requires Ascending(sorted)
    ensures Sum(sorted, SquaredSpread(sorted, m)) == UntiedSpread(|sorted|, m) - TieCorrection(sorted) / 12.0
  {
    assert sorted[..|sorted|] == sorted;
    SpreadUpTo(sorted, |sorted|, m);
  }

  lemma MeanSpread(k: nat, n: real, total: real)
    requires n == k as real && total == n*n*n - n
    ensures UntiedSpread(k, (n + 1.0) / 2.0) == total / 12.0
  {
    UntiedSpreadClosed(k, (n + 1.0) / 2.0);
    CubicAtMean(n);
  }

  lemma CubicAtMean(n: real)
    ensures Cubic(n, (n + 1.0) / 2.0) == (n*n*n - n) / 12.0
  {
    var m, s := (n + 1.0) / 2.0, n * (n + 1.0);
    var u := s * n;
    assert s * (2.0 * n + 1.0) == 2.0 * u + s;
    assert m * n * (n + 1.0) == m * s == (u + s) / 2.0;
    assert n * m * m == (u + s) / 4.0 by {
      assert m * m == (n * n + 2.0 * n + 1.0) / 4.0;
      assert u + s == n * (n * n + 2.0 * n + 1.0);
    }
    assert u - s == n*n*n - n;
    assert n * (n + 1.0) * (2.0 * n + 1.0) == 2.0 * u + s;
    assert Cubic(n, m) == (2.0 * u + s) / 6.0 - (u + s) / 2.0 + (u + s) / 4.0;
  }

  lemma ScaledVariance(nx: real, ny: real, n: real, tieSum: real, total: real, spread: real)
    requires nx >= 1.0 && ny >= 1.0 && n == nx + ny && total == n*n*n - n && spread == (total - tieSum) / 12.0
    ensures VarianceOfSizes(nx, ny, tieSum) * (n * (n - 1.0)) == nx * ny * spread
  {
    var d, p, v := n * (n - 1.0), nx * ny, VarianceOfSizes(nx, ny, tieSum);
    assert d > 0.0;
    var q := tieSum / d;
    assert q * d == tieSum;
    assert (n + 1.0) * d == total;
    assert v == (p / 12.0) * ((n + 1.0) - q);
    ScaleParts(p, n + 1.0, q, d, total, tieSum, spread, v);
  }

  lemma ScaleParts(p: real, a: real, q: real, d: real, total: real, tieSum: real, spread: real, v: real)
    requires a * d == total && q * d == tieSum && spread == (total - tieSum) / 12.0 && v == (p / 12.0) * (a - q)
    ensures v * d == p * spread
  {
    calc {
      v * d;
      (p / 12.0) * (a * d - q * d);
      (p / 12.0) * (12.0 * spread);
      p * spread;
    }
  }

  lemma VarianceBySpread(x: seq<real>, y: seq<real>, n: real, total: real, spread: real)
    requires |x| > 0 && |y| > 0 && n == |x| as real + |y| as real && total == n*n*n - n
    requires spread == (total - TieCorrection(x + y)) / 12.0
    ensures VarianceU(x, y) * (n * (n - 1.0)) == |x| as real * |y| as real * spread
  {
    ScaledVariance(|x| as real, |y| as real, n, TieCorrection(x + y), total, spread);
  }

  /** The variance of U is that of the sum of `nx` midranks drawn from the pool without replacement. */
  lemma VarianceIsRankVariance(x: seq<real>, y: seq<real>, n: real, spread: real)
    requires |x| > 0 && |y| > 0 && n == |x| as real + |y| as real
    requires spread == Sum(x + y, SquaredSpread(x + y, (n + 1.0) / 2.0))
    ensures VarianceU(x, y) * (n * (n - 1.0)) == |x| as real * |y| as real * spread
  {
    var total := n*n*n - n;
    SpreadOfPool(x + y, n, (n + 1.0) / 2.0, total);
    VarianceBySpread(x, y, n, total, spread);
  }

  /** The p-value written out: the complement of the error function at the corrected deviation, in units of the square
      root of twice the variance. */
  lemma PValueWritten(x: seq<real>, y: seq<real>, lib: StatLib)
    requires lib.Valid() && |x| > 0 && |y| > 0
    ensures !AllTied(x + y) ==>
              && lib.sqrt(VarianceU(x, y)) > 0.0
              && PValue(x, y, lib) ==
                   1.0 - lib.erf(Abs(Deviation(x, y) - 0.5) / lib.sqrt(VarianceU(x, y)) / lib.sqrt(2.0))
  {
    VarianceGuard(x, y);
  }
}
