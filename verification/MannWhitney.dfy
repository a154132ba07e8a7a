/** The tie-aware Mann-Whitney test and Cliff's delta of the release gate. The rank computation
    (sort, scan the tie groups, add up ranks) is proved equal to counting pairs. */
module MannWhitney {
  import opened Basics
  import opened Sums
  import opened Ordering
  import opened PairCounts

  /** The library functions behind the normal CDF, kept abstract. */
  datatype StatLib = StatLib(sqrt: real -> real, erf: real -> real) {

    /** What the p-value needs of them: erf is strictly increasing, zero at zero and below one. */
    ghost predicate Valid() {
      && (forall v {:trigger sqrt(v)} :: v > 0.0 ==> sqrt(v) > 0.0)
      && (forall a, b {:trigger erf(a), erf(b)} :: a < b ==> erf(a) < erf(b))
      && (forall a {:trigger erf(a)} :: erf(a) < 1.0)
      && erf(0.0) == 0.0
    }

    function NormalCDF(z: real): real
      requires sqrt(2.0) > 0.0
    {
      0.5 * (1.0 + erf(z / sqrt(2.0)))
    }
  }

  function Abs(v: real): real { if v < 0.0 then -v else v }

  datatype Point = Point(value: real, group: nat)

  function GroupOf(s: seq<real>, group: nat): (r: seq<Point>)
    ensures |r| == |s| && forall i | 0 <= i < |s| :: r[i] == Point(s[i], group)
  {
    seq(|s|, i requires 0 <= i < |s| => Point(s[i], group))
  }

  function Pool(x: seq<real>, y: seq<real>): seq<Point> { GroupOf(x, 0) + GroupOf(y, 1) }

  predicate ByValue(a: Point, b: Point) { a.value < b.value }

  /** `sort.Slice` is not stable: any ordered permutation may come back. */
  method SortPoints(points: seq<Point>) returns (r: seq<Point>)
    ensures SortedPermutation(r, points, ByValue)
  {
    StableSortOrdered(points, ByValue);
    assert SortedPermutation(StableSort(points, ByValue), points, ByValue);
    r :| SortedPermutation(r, points, ByValue);
  }

  // ---- Midranks ----

  function Values(points: seq<Point>): (r: seq<real>)
    ensures |r| == |points| && forall i | 0 <= i < |points| :: r[i] == points[i].value
  {
    seq(|points|, i requires 0 <= i < |points| => points[i].value)
  }

  /** The midrank of a value within a pool: how many are below it, plus half of its own tie group, plus a half. */
  function MidRank(pool: seq<real>, v: real): real { Sum(pool, ScoreOf(v)) + 0.5 }

  function EqualTo(v: real): real -> real { w => if w == v then 1.0 else 0.0 }

  function Ties(pool: seq<real>, v: real): real { Sum(pool, EqualTo(v)) }

  function TieTerm(pool: seq<real>): real -> real { v => Ties(pool, v) * Ties(pool, v) - 1.0 }

  /** The tie correction, with each group of `t` equal values contributing `t` times `t*t - 1`. */
  function TieCorrection(pool: seq<real>): real { Sum(pool, TieTerm(pool)) }

  /** In an ordered pool the tie group found at `[i, j)` gives its members the average of ranks `i+1 .. j`. */
  lemma GroupRank(pool: seq<real>, i: nat, j: nat, v: real)
    requires i < j <= |pool|
    requires forall k | 0 <= k < i :: pool[k] < v
    requires forall k | i <= k < j :: pool[k] == v
    requires forall k | j <= k < |pool| :: pool[k] > v
    ensures MidRank(pool, v) == ((i + 1) as real + j as real) / 2.0
    ensures Ties(pool, v) == (j - i) as real
  {
    SumThreeParts(pool, i, j, ScoreOf(v));
    SumConstant(pool[..i], ScoreOf(v), 1.0);
    SumConstant(pool[i..j], ScoreOf(v), 0.5);
    SumZero(pool[j..], ScoreOf(v));
    GroupSize(pool, i, j, v);
  }

  lemma GroupSize(pool: seq<real>, i: nat, j: nat, v: real)
    requires i < j <= |pool|
    requires forall k | 0 <= k < i || j <= k < |pool| :: pool[k] != v
    requires forall k | i <= k < j :: pool[k] == v
    ensures Ties(pool, v) == (j - i) as real
  {
    SumThreeParts(pool, i, j, EqualTo(v));
    SumZero(pool[..i], EqualTo(v));
    SumConstant(pool[i..j], EqualTo(v), 1.0);
    SumZero(pool[j..], EqualTo(v));
  }

  /** What one tie group adds to a sum over the pool: the same term once per member. */
  lemma GroupSum(pool: seq<real>, i: nat, j: nat, f: real -> real, c: real)
    requires i < j <= |pool|
    requires forall k | i <= k < j :: f(pool[k]) == c
    ensures Sum(pool[..j], f) == Sum(pool[..i], f) + (j - i) as real * c
  {
    assert pool[..j] == pool[..i] + pool[i..j];
    SumConcat(pool[..i], pool[i..j], f);
    SumConstant(pool[i..j], f, c);
  }

  lemma OrderedValues(points: seq<Point>)
    requires Ordered(points, ByValue)
    ensures Ascending(Values(points))
  {
    forall a, b | 0 <= a < b < |points| ensures points[a].value <= points[b].value {
      assert !ByValue(points[b], points[a]);
    }
  }

  /** `[i, j)` is a whole tie group of the ascending pool. */
  ghost predicate TieGroup(pool: seq<real>, i: nat, j: nat) {
    && i < j <= |pool| && Ascending(pool)
    && (i > 0 ==> pool[i-1] < pool[i])
    && (forall k | i <= k < j :: pool[k] == pool[i])
    && (j < |pool| ==> pool[j] != pool[i])
  }

  /** What the tie group at `[i, j)` adds to the tie sum. */
  method TieWeight(ghost pool: seq<real>, i: nat, j: nat) returns (ties: real)
    requires TieGroup(pool, i, j)
    ensures Sum(pool[..j], TieTerm(pool)) == Sum(pool[..i], TieTerm(pool)) + ties
  {
    var t := (j - i) as real;
    GroupTies(pool, i, j, t);
    if t > 1.0 {
      ties := t*t*t - t;
    } else {
      assert t == 1.0;
      ties := 0.0;
    }
  }

  lemma GroupTies(pool: seq<real>, i: nat, j: nat, t: real)
    requires TieGroup(pool, i, j) && t == (j - i) as real
    ensures Sum(pool[..j], TieTerm(pool)) == Sum(pool[..i], TieTerm(pool)) + (t*t*t - t)
  {
    var c := t*t - 1.0;
    GroupTerm(pool, i, j, t, c);
    GroupSum(pool, i, j, TieTerm(pool), c);
  }

  lemma GroupTerm(pool: seq<real>, i: nat, j: nat, t: real, c: real)
    requires TieGroup(pool, i, j) && t == (j - i) as real && c == t*t - 1.0
    ensures forall k | i <= k < j :: TieTerm(pool)(pool[k]) == c
  {
    GroupRank(pool, i, j, pool[i]);
    assert TieTerm(pool)(pool[i]) == c;
  }

  /** One round of the scan: find the end `j` of the tie group that starts at `i`, write its midrank to every
      position of the group, and return what the group adds to the tie sum. */
  method RankGroup(points: seq<Point>, ghost pool: seq<real>, i: nat, ranks: array<real>) returns (j: nat, ties: real)
    requires pool == Values(points) && Ascending(pool)
    requires i < |points| == ranks.Length
    requires i > 0 ==> pool[i-1] < pool[i]
    modifies ranks
    ensures i < j <= |points|
    ensures j < |points| ==> pool[j-1] < pool[j]
    ensures forall k | i <= k < j :: ranks[k] == MidRank(pool, pool[k])
    ensures forall k | 0 <= k < i :: ranks[k] == old(ranks[k])
    ensures Sum(pool[..j], TieTerm(pool)) == Sum(pool[..i], TieTerm(pool)) + ties
  {
    j := i + 1;
    while j < |points| && points[j].value == points[i].value
      invariant i < j <= |points|
      invariant forall k | i <= k < j :: pool[k] == pool[i]
    {
      j := j + 1;
    }
    GroupRank(pool, i, j, pool[i]);
    var avgRank := ((i + 1) as real + j as real) / 2.0;
    for k := i to j
      invariant forall m | 0 <= m < i :: ranks[m] == old(ranks[m])
      invariant forall m | i <= m < k :: ranks[m] == avgRank
    {
      ranks[k] := avgRank;
    }
    ties := TieWeight(pool, i, j);
  }

  /** The tie-group scan over the sorted points: midranks written in place, tie correction accumulated. */
  method RankPoints(points: seq<Point>) returns (ranks: array<real>, tieSum: real)
    requires Ordered(points, ByValue)
    ensures fresh(ranks) && ranks.Length == |points|
    ensures forall k | 0 <= k < |points| :: ranks[k] == MidRank(Values(points), Values(points)[k])
    ensures tieSum == TieCorrection(Values(points))
  {
    ghost var pool := Values(points);
    OrderedValues(points);
    ranks := new real[|points|];
    tieSum := 0.0;
    var i := 0;
    while i < |points|
      invariant i <= |points|
      invariant 0 < i < |points| ==> pool[i-1] < pool[i]
      invariant forall k | 0 <= k < i :: ranks[k] == MidRank(pool, pool[k])
      invariant tieSum == Sum(pool[..i], TieTerm(pool))
    {
      var j, ties := RankGroup(points, pool, i, ranks);
      tieSum := tieSum + ties;
      i := j;
    }
    assert pool[..i] == pool;
  }

  // ---- The rank sum is a pair count ----

  function RankIfX(pool: seq<real>): Point -> real {
    (p: Point) => if p.group == 0 then MidRank(pool, p.value) else 0.0
  }

  function RankOf(pool: seq<real>): real -> real { v => MidRank(pool, v) }

  lemma ValuesOfPermutation(s: seq<Point>, x: seq<real>, y: seq<real>)
    requires multiset(s) == multiset(Pool(x, y))
    ensures multiset(Values(s)) == multiset(x + y)
  {
    ValuesPermuted(s, Pool(x, y));
    assert Values(Pool(x, y)) == x + y;
  }

  lemma {:induction false} ValuesPermuted(s: seq<Point>, t: seq<Point>)
    requires multiset(s) == multiset(t)
    ensures multiset(Values(s)) == multiset(Values(t))
  {
    if |s| == 0 {
      assert |multiset(t)| == 0;
    } else {
      var v, init := s[|s|-1], s[..|s|-1];
      assert s == init + [v];
      assert v in multiset(t);
      var k :| 0 <= k < |t| && t[k] == v;
      RemoveAtMultiset(t, k);
      SameAfterRemoval(init, RemoveAt(t, k), v);
      ValuesPermuted(init, RemoveAt(t, k));
      assert Values(s) == Values(init) + [v.value];
      ValuesRemoveAt(t, k);
    }
  }

  lemma ValuesRemoveAt(t: seq<Point>, k: nat)
    requires k < |t|
    ensures multiset(Values(t)) == multiset(Values(RemoveAt(t, k))) + multiset{t[k].value}
  {
    assert Values(RemoveAt(t, k)) == RemoveAt(Values(t), k);
    RemoveAtMultiset(Values(t), k);
  }

  /** For whatever order the sort leaves ties in, the ranks of sample `x` add up to the smallest possible rank
      sum plus the wins of `x` over `y`, ties counting one half. */
  lemma RankSumCountsPairs(s: seq<Point>, x: seq<real>, y: seq<real>)
    requires multiset(s) == multiset(Pool(x, y))
    ensures Sum(s, RankIfX(Values(s))) ==
            RanksUpTo(|x|) as real + Pairs(x, y, Greater) as real + Pairs(x, y, Tied) as real / 2.0
  {
    RankIfXOrderFree(s, x, y);
    SumPermutation(s, Pool(x, y), RankIfX(x + y));
    RankSumOfPool(x, y);
    SampleRankSum(x, y);
    PairScoreCounts(x, y);
  }

  lemma RankSumOfPool(x: seq<real>, y: seq<real>)
    ensures Sum(Pool(x, y), RankIfX(x + y)) == Sum(x, RankOf(x + y))
  {
    var pool := x + y;
    SumConcat(GroupOf(x, 0), GroupOf(y, 1), RankIfX(pool));
    SumMapped(GroupOf(x, 0), x, RankIfX(pool), RankOf(pool));
    SumZero(GroupOf(y, 1), RankIfX(pool));
  }

  lemma RankIfXOrderFree(s: seq<Point>, x: seq<real>, y: seq<real>)
    requires multiset(s) == multiset(Pool(x, y))
    ensures Sum(s, RankIfX(Values(s))) == Sum(s, RankIfX(x + y))
  {
    ValuesOfPermutation(s, x, y);
    forall i | 0 <= i < |s| ensures RankIfX(Values(s))(s[i]) == RankIfX(x + y)(s[i]) {
      SumPermutation(Values(s), x + y, ScoreOf(s[i].value));
    }
    SumEqual(s, RankIfX(Values(s)), RankIfX(x + y));
  }

  function Half(): real -> real { v => 0.5 }

  lemma SampleRankSum(x: seq<real>, y: seq<real>)
    ensures Sum(x, RankOf(x + y)) == RanksUpTo(|x|) as real + PairScore(x, y)
  {
    forall a ensures RankOf(x + y)(a) == RankOf(x)(a) + ScoreAgainst(y)(a) {
      SumConcat(x, y, ScoreOf(a));
    }
    SumPlus(x, RankOf(x), ScoreAgainst(y), RankOf(x + y));
    SumPlus(x, ScoreAgainst(x), Half(), RankOf(x));
    SumConstant(x, Half(), 0.5);
    PairScoreComplement(x, x);
    RanksUpToClosed(|x|);
  }

  /** `1 + 2 + ... + n`: the rank sum of the `n` lowest ranks. */
  function RanksUpTo(n: nat): nat {
    if n == 0 then 0 else RanksUpTo(n - 1) + n
  }

  lemma {:induction false} RanksUpToClosed(n: nat)
    ensures 2 * RanksUpTo(n) == n * n + n
  {
    if n > 0 {
      RanksUpToClosed(n - 1);
      assert (n - 1) * (n - 1) + (n - 1) + 2 * n == n * n + n;
    }
  }

  /** All ranks together add up to `1 + 2 + ... + n`, ties or not. */
  lemma RanksTotal(pool: seq<real>)
    ensures Sum(pool, RankOf(pool)) == (|pool| * (|pool| + 1)) as real / 2.0
  {
    SampleRankSum(pool, []);
    assert pool + [] == pool;
    SumZero(pool, ScoreAgainst([]));
    RanksUpToClosed(|pool|);
    assert |pool| * (|pool| + 1) == |pool| * |pool| + |pool|;
  }

  // ---- Tie correction and variance ----

  predicate AllTied(pool: seq<real>) {
    forall i, j | 0 <= i < |pool| && 0 <= j < |pool| :: pool[i] == pool[j]
  }

  lemma TiesBound(pool: seq<real>, k: nat)
    requires k < |pool|
    ensures 1.0 <= Ties(pool, pool[k]) <= |pool| as real
    ensures Ties(pool, pool[k]) == |pool| as real <==> forall i | 0 <= i < |pool| :: pool[i] == pool[k]
  {
    var v := pool[k];
    SumUpperBound(pool, EqualTo(v), 1.0);
    SumRemoveAt(pool, k, EqualTo(v));
    SumNonnegative(RemoveAt(pool, k), EqualTo(v));
    if forall i | 0 <= i < |pool| :: pool[i] == v {
      SumConstant(pool, EqualTo(v), 1.0);
    }
  }

  lemma {:induction false} SumNonnegative(s: seq<real>, f: real -> real)
    requires forall i | 0 <= i < |s| :: f(s[i]) >= 0.0
    ensures Sum(s, f) >= 0.0
  {
    if |s| > 0 {
      SumNonnegative(s[..|s|-1], f);
    }
  }

  lemma SquareMonotone(a: real, b: real)
    requires 0.0 <= a <= b
    ensures a * a <= b * b
    ensures a * a == b * b ==> a == b
  {
    assert b * b - a * a == (b - a) * (b + a);
    if a < b {
      ProductPositive(b - a, b + a);
    }
  }

  lemma TieTermsBounded(pool: seq<real>, c: real)
    requires c == |pool| as real * |pool| as real - 1.0
    ensures 0.0 <= TieCorrection(pool) <= |pool| as real * c
    ensures TieCorrection(pool) == |pool| as real * c <==> AllTied(pool)
  {
    forall k | 0 <= k < |pool|
      ensures 0.0 <= TieTerm(pool)(pool[k]) <= c
      ensures TieTerm(pool)(pool[k]) == c <==> TiedWith(pool, k)
    {
      TieTermBound(pool, k);
    }
    BoundedTerms(pool, TieTerm(pool), c);
  }

  /** The tie correction never exceeds `n^3 - n`, and meets it exactly when every pooled value is the same. */
  lemma TieCorrectionBound(pool: seq<real>, n: real)
    requires n == |pool| as real
    ensures 0.0 <= TieCorrection(pool) <= n*n*n - n
    ensures TieCorrection(pool) == n*n*n - n <==> AllTied(pool)
  {
    TieTermsBounded(pool, n*n - 1.0);
  }

  lemma BoundedTerms(pool: seq<real>, f: real -> real, c: real)
    requires forall k | 0 <= k < |pool| :: 0.0 <= f(pool[k]) <= c && (f(pool[k]) == c <==> TiedWith(pool, k))
    ensures 0.0 <= Sum(pool, f) <= |pool| as real * c
    ensures Sum(pool, f) == |pool| as real * c <==> AllTied(pool)
  {
    SumNonnegative(pool, f);
    SumUpperBound(pool, f, c);
    if AllTied(pool) {
      assert forall k | 0 <= k < |pool| :: TiedWith(pool, k);
      SumConstant(pool, f, c);
    } else {
      var i, j :| 0 <= i < |pool| && 0 <= j < |pool| && pool[i] != pool[j];
      assert !TiedWith(pool, j);
      assert f(pool[j]) != c;
    }
  }

  predicate TiedWith(pool: seq<real>, k: nat)
    requires k < |pool|
  {
    forall i | 0 <= i < |pool| :: pool[i] == pool[k]
  }

  lemma TieTermBound(pool: seq<real>, k: nat)
    requires k < |pool|
    ensures var c := |pool| as real * |pool| as real - 1.0;
            && 0.0 <= TieTerm(pool)(pool[k]) <= c
            && (TieTerm(pool)(pool[k]) == c <==> TiedWith(pool, k))
  {
    var e := Ties(pool, pool[k]);
    TiesBound(pool, k);
    SquareMonotone(e, |pool| as real);
    SquareMonotone(1.0, e);
  }

  /** The tie-corrected variance of U. */
  function VarianceU(x: seq<real>, y: seq<real>): real
    requires |x| > 0 && |y| > 0
  {
    VarianceOfSizes(|x| as real, |y| as real, TieCorrection(x + y))
  }

  function VarianceOfSizes(nx: real, ny: real, tieSum: real): real
    requires nx >= 1.0 && ny >= 1.0
  {
    var n := nx + ny;
    assert n * (n - 1.0) > 0.0;
    (nx * ny / 12.0) * ((n + 1.0) - (tieSum / (n * (n - 1.0))))
  }

  /** Over the reals the variance is never negative, so its guard fires exactly when all values are tied. */
  lemma VarianceGuard(x: seq<real>, y: seq<real>)
    requires |x| > 0 && |y| > 0
    ensures VarianceU(x, y) >= 0.0
    ensures VarianceU(x, y) <= 0.0 <==> AllTied(x + y)
  {
    TieCorrectionBound(x + y, |x + y| as real);
    VarianceSign(|x| as real, |y| as real, TieCorrection(x + y));
    assert |x + y| as real == |x| as real + |y| as real;
  }

  lemma VarianceSign(nx: real, ny: real, tc: real)
    requires nx >= 1.0 && ny >= 1.0
    requires var n := nx + ny; tc <= n*n*n - n
    ensures VarianceOfSizes(nx, ny, tc) >= 0.0
    ensures var n := nx + ny; VarianceOfSizes(nx, ny, tc) <= 0.0 <==> tc == n*n*n - n
  {
    var n := nx + ny;
    var d := n * (n - 1.0);
    assert d > 0.0;
    DivideBound(tc, n + 1.0, d);
    assert nx * ny > 0.0;
  }

  lemma DivideBound(a: real, b: real, d: real)
    requires d > 0.0 && a <= b * d
    ensures a / d <= b
    ensures a / d == b <==> a == b * d
  {
    assert (a / d) * d == a;
    assert (b - a / d) * d >= 0.0;
  }

  // ---- The p-value ----

  /** How far U lies below its mean: half the difference between wins and losses. */
  function Deviation(x: seq<real>, y: seq<real>): real {
    Abs(Pairs(x, y, Greater) as real - Pairs(x, y, Lower) as real) / 2.0
  }

  /** The continuity-corrected two-sided tail at a deviation, without clamping. */
  function Tail(deviation: real, sd: real, lib: StatLib): real
    requires lib.Valid() && sd > 0.0
  {
    2.0 * (1.0 - lib.NormalCDF(Abs(deviation - 0.5) / sd))
  }

  function StandardDeviation(x: seq<real>, y: seq<real>, lib: StatLib): (sd: real)
    requires lib.Valid() && |x| > 0 && |y| > 0 && !AllTied(x + y)
    ensures sd > 0.0
  {
    VarianceGuard(x, y);
    lib.sqrt(VarianceU(x, y))
  }

  /** The p-value in terms of pair counts: no ranks, no sort, no clamping. */
  function PValue(x: seq<real>, y: seq<real>, lib: StatLib): real
    requires lib.Valid()
  {
    if |x| == 0 || |y| == 0 || AllTied(x + y) then 1.0
    else Tail(Deviation(x, y), StandardDeviation(x, y, lib), lib)
  }

  /** The normal CDF of a nonnegative argument lies in [1/2, 1), so the p-value needs no clamping. */
  lemma PValueRange(x: seq<real>, y: seq<real>, lib: StatLib)
    requires lib.Valid()
    ensures 0.0 < PValue(x, y, lib) <= 1.0
    ensures PValue(x, y, lib) == 1.0 <==>
            |x| == 0 || |y| == 0 || AllTied(x + y) || Deviation(x, y) == 0.5
  {
    if |x| > 0 && |y| > 0 && !AllTied(x + y) {
      TailRange(Deviation(x, y), StandardDeviation(x, y, lib), lib);
    }
  }

  lemma TailRange(deviation: real, sd: real, lib: StatLib)
    requires lib.Valid() && sd > 0.0
    ensures 0.0 < Tail(deviation, sd, lib) <= 1.0
    ensures Tail(deviation, sd, lib) == 1.0 <==> deviation == 0.5
  {
    var z := Abs(deviation - 0.5) / sd;
    assert z >= 0.0 && (z == 0.0 <==> deviation == 0.5);
    TailMass(z, lib);
  }

  lemma TailMass(z: real, lib: StatLib)
    requires lib.Valid() && z >= 0.0
    ensures 0.0 < 2.0 * (1.0 - lib.NormalCDF(z)) <= 1.0
    ensures 2.0 * (1.0 - lib.NormalCDF(z)) == 1.0 <==> z == 0.0
  {
    assert lib.sqrt(2.0) > 0.0;
    var w := z / lib.sqrt(2.0);
    assert w >= 0.0 && (w == 0.0 <==> z == 0.0);
    assert 0.0 < w ==> lib.erf(0.0) < lib.erf(w);
    assert lib.erf(w) < 1.0;
  }

  function ProductOfSizes(x: seq<real>, y: seq<real>): (r: real)
    ensures r == (|x| * |y|) as real
  {
    |x| as real * |y| as real
  }

  /** The U statistics of the two samples share out all pairs, and the smaller one lies below the mean by
      exactly the deviation. */
  lemma MinStatistic(x: seq<real>, y: seq<real>, u1: real, u2: real, pairs: real)
    requires u1 == Pairs(x, y, Greater) as real + Pairs(x, y, Tied) as real / 2.0
    requires pairs == (|x| * |y|) as real && u2 == pairs - u1
    ensures u2 == Pairs(x, y, Lower) as real + Pairs(x, y, Tied) as real / 2.0
    ensures (if u1 < u2 then u1 else u2) == pairs / 2.0 - Deviation(x, y)
  {
    PairsExhaustive(x, y);
  }

  /** The ranks of the points of group 0, added up. */
  method SumRanksOfX(points: seq<Point>, ranks: array<real>, ghost pool: seq<real>) returns (rankX: real)
    requires ranks.Length == |points| && pool == Values(points)
    requires forall k | 0 <= k < |points| :: ranks[k] == MidRank(pool, pool[k])
    ensures rankX == Sum(points, RankIfX(pool))
  {
    rankX := 0.0;
    for idx := 0 to |points|
      invariant rankX == Sum(points[..idx], RankIfX(pool))
      invariant forall k | 0 <= k < |points| :: ranks[k] == MidRank(pool, pool[k])
    {
      assert points[..idx+1] == points[..idx] + [points[idx]];
      SumAppend(points[..idx], points[idx], RankIfX(pool));
      if points[idx].group == 0 {
        rankX := rankX + ranks[idx];
      }
    }
    assert points[..|points|] == points;
  }

  method PoolPoints(x: seq<real>, y: seq<real>) returns (points: seq<Point>)
    ensures points == Pool(x, y)
  {
    points := [];
    for i := 0 to |x|
      invariant points == GroupOf(x[..i], 0)
    {
      points := points + [Point(x[i], 0)];
    }
    assert x[..|x|] == x;
    for i := 0 to |y|
      invariant points == GroupOf(x, 0) + GroupOf(y[..i], 1)
    {
      points := points + [Point(y[i], 1)];
    }
    assert y[..|y|] == y;
  }

  /** The U statistic of `x` and the tie sum, computed by ranking the pooled samples. */
  method UStatistic(x: seq<real>, y: seq<real>) returns (u1: real, tieSum: real)
    ensures u1 == Pairs(x, y, Greater) as real + Pairs(x, y, Tied) as real / 2.0
    ensures tieSum == TieCorrection(x + y)
  {
    var points := PoolPoints(x, y);
    points := SortPoints(points);
    var ranks;
    ranks, tieSum := RankPoints(points);
    var rankX := SumRanksOfX(points, ranks, Values(points));
    RankSumCountsPairs(points, x, y);
    TieCorrectionPermuted(points, x, y);
    var smallest := SmallestRankSum(|x|);
    u1 := rankX - smallest;
  }

  method SmallestRankSum(nx: nat) returns (r: real)
    ensures r == RanksUpTo(nx) as real
  {
    var nxf := nx as real;
    RanksUpToClosed(nx);
    assert nxf * (nxf + 1.0) == (nx * nx + nx) as real;
    r := (nxf * (nxf + 1.0)) / 2.0;
  }

  lemma TieCorrectionPermuted(s: seq<Point>, x: seq<real>, y: seq<real>)
    requires multiset(s) == multiset(Pool(x, y))
    ensures TieCorrection(Values(s)) == TieCorrection(x + y)
  {
    ValuesOfPermutation(s, x, y);
    TieCorrectionOrderFree(Values(s), x + y);
  }

  lemma TieCorrectionOrderFree(s: seq<real>, t: seq<real>)
    requires multiset(s) == multiset(t)
    ensures TieCorrection(s) == TieCorrection(t)
  {
    forall v ensures TieTerm(s)(v) == TieTerm(t)(v) {
      SumPermutation(s, t, EqualTo(v));
    }
    SumEqual(s, TieTerm(s), TieTerm(t));
    SumPermutation(s, t, TieTerm(t));
  }

  /** The tie-corrected variance from the sample sizes and the tie sum. */
  method ComputeVariance(x: seq<real>, y: seq<real>, tieSum: real) returns (varianceU: real)
    requires |x| > 0 && |y| > 0 && tieSum == TieCorrection(x + y)
    ensures varianceU == VarianceU(x, y)
  {
    varianceU := VarianceOfSizes(|x| as real, |y| as real, tieSum);
  }

  /** The smaller U statistic minus the mean of U. */
  method DistanceFromMean(x: seq<real>, y: seq<real>, u1: real) returns (z: real)
    requires u1 == Pairs(x, y, Greater) as real + Pairs(x, y, Tied) as real / 2.0
    ensures z == -Deviation(x, y)
  {
    var pairs := ProductOfSizes(x, y);
    var u2 := pairs - u1;
    var u := if u1 < u2 then u1 else u2;
    var meanU := pairs / 2.0;
    MinStatistic(x, y, u1, u2, pairs);
    z := u - meanU;
  }

  /** The gate's p-value: whatever order the unstable sort leaves ties in, it is the pair-counting p-value. The
      branch for a statistic above its mean and both final clamps are never taken. */
  method MannWhitneyPValue(x: seq<real>, y: seq<real>, lib: StatLib) returns (p: real)
    requires lib.Valid()
    ensures p == PValue(x, y, lib)
  {
    if |x| == 0 || |y| == 0 {
      return 1.0;
    }
    var u1, tieSum := UStatistic(x, y);
    var varianceU := ComputeVariance(x, y, tieSum);
    VarianceGuard(x, y);
    if varianceU <= 0.0 {
      return 1.0;
    }
    var z := DistanceFromMean(x, y, u1);
    p := TwoSidedTail(z, varianceU, lib);
  }

  /** The continuity-corrected two-sided tail of a statistic that lies `z` from its mean. */
  method TwoSidedTail(deviation: real, varianceU: real, lib: StatLib) returns (p: real)
    requires lib.Valid() && varianceU > 0.0
    ensures p == Tail(Abs(deviation), lib.sqrt(varianceU), lib)
  {
    var z := deviation;
    var sd := lib.sqrt(varianceU);
    if z > 0.0 {
      AbsQuotient(z - 0.5, sd);
      z := (z - 0.5) / sd;
    } else {
      AbsQuotient(z + 0.5, sd);
      z := (z + 0.5) / sd;
    }
    p := 2.0 * (1.0 - lib.NormalCDF(Abs(z)));
    TailMass(Abs(z), lib);
    if p < 0.0 {
      return 0.0;
    }
    if p > 1.0 {
      return 1.0;
    }
  }

  lemma AbsQuotient(a: real, d: real)
    requires d > 0.0
    ensures Abs(a / d) == Abs(a) / d
    ensures Abs(-a) == Abs(a)
  {
    assert a >= 0.0 ==> a / d >= 0.0;
    assert a < 0.0 ==> a / d < 0.0;
  }

  // ---- Cliff's delta and its agreement with U ----

  /** Wins minus losses as a share of all pairs; zero when a sample is empty. */
  function Delta(x: seq<real>, y: seq<real>): real {
    if |x| == 0 || |y| == 0 then 0.0
    else
      assert |x| * |y| > 0;
      (Pairs(x, y, Greater) as real - Pairs(x, y, Lower) as real) / (|x| * |y|) as real
  }

  method CliffsDelta(x: seq<real>, y: seq<real>) returns (delta: real)
    ensures delta == Delta(x, y)
  {
    if |x| == 0 || |y| == 0 {
      return 0.0;
    }
    var greater, lower := CountPairs(x, y);
    assert |x| * |y| > 0;
    var total := (|x| * |y|) as real;
    delta := (greater as real - lower as real) / total;
  }

  /** The nested scan over all pairs. */
  method CountPairs(x: seq<real>, y: seq<real>) returns (greater: nat, lower: nat)
    ensures greater == Pairs(x, y, Greater) && lower == Pairs(x, y, Lower)
  {
    greater, lower := 0, 0;
    PairsAreTotals(x, y, Greater);
    PairsAreTotals(x, y, Lower);
    for i := 0 to |x|
      invariant greater == PairTotal(x[..i], y, Greater)
      invariant lower == PairTotal(x[..i], y, Lower)
    {
      for j := 0 to |y|
        invariant greater == PairTotal(x[..i], y, Greater) + Count(y[..j], Related(Greater, x[i]))
        invariant lower == PairTotal(x[..i], y, Lower) + Count(y[..j], Related(Lower, x[i]))
      {
        assert y[..j+1] == y[..j] + [y[j]];
        CountAppend(y[..j], y[j], Related(Greater, x[i]));
        CountAppend(y[..j], y[j], Related(Lower, x[i]));
        if x[i] > y[j] {
          greater := greater + 1;
        } else if x[i] < y[j] {
          lower := lower + 1;
        }
      }
      assert y[..|y|] == y;
      assert x[..i+1][..i] == x[..i];
    }
    assert x[..|x|] == x;
  }

  /** The two effect measures agree: delta is the rank statistic rescaled from [0, nx*ny] to [-1, 1]. */
  lemma EffectMeasuresAgree(x: seq<real>, y: seq<real>, s: seq<Point>, u1: real, pairs: real)
    requires |x| > 0 && |y| > 0 && multiset(s) == multiset(Pool(x, y))
    requires u1 == Sum(s, RankIfX(Values(s))) - RanksUpTo(|x|) as real && pairs == (|x| * |y|) as real
    ensures pairs > 0.0 && Delta(x, y) == (2.0 * u1 - pairs) / pairs
  {
    UStatisticOfRanks(x, y, s);
    PairsAvailable(x, y);
  }

  lemma DeltaRange(x: seq<real>, y: seq<real>)
    ensures -1.0 <= Delta(x, y) <= 1.0
  {
    if |x| > 0 && |y| > 0 {
      PairsAvailable(x, y);
      QuotientRange(Pairs(x, y, Greater) as real, Pairs(x, y, Lower) as real, (|x| * |y|) as real);
    }
  }

  lemma QuotientRange(w: real, l: real, pairs: real)
    requires pairs > 0.0 && w >= 0.0 && l >= 0.0 && w + l <= pairs
    ensures -1.0 <= (w - l) / pairs <= 1.0
  {
    DivideBound(w - l, 1.0, pairs);
    DivideBound(l - w, 1.0, pairs);
    NegatedQuotient(w - l, pairs);
  }

  lemma UStatisticOfRanks(x: seq<real>, y: seq<real>, s: seq<Point>)
    requires multiset(s) == multiset(Pool(x, y))
    ensures var u1 := Sum(s, RankIfX(Values(s))) - RanksUpTo(|x|) as real;
            && u1 == Pairs(x, y, Greater) as real + Pairs(x, y, Tied) as real / 2.0
            && Pairs(x, y, Greater) as real - Pairs(x, y, Lower) as real == 2.0 * u1 - (|x| * |y|) as real
  {
    RankSumCountsPairs(s, x, y);
    PairsExhaustive(x, y);
  }

  lemma PairsAvailable(x: seq<real>, y: seq<real>)
    requires |x| > 0 && |y| > 0
    ensures (|x| * |y|) as real > 0.0
    ensures Pairs(x, y, Greater) as real + Pairs(x, y, Lower) as real <= (|x| * |y|) as real
  {
    PairsExhaustive(x, y);
    PartsOfProduct(Pairs(x, y, Greater), Pairs(x, y, Lower), Pairs(x, y, Tied), |x|, |y|);
  }

  lemma PartsOfProduct(g: nat, l: nat, t: nat, n: nat, m: nat)
    requires g + l + t == n * m && n > 0 && m > 0
    ensures (n * m) as real > 0.0 && g as real + l as real <= (n * m) as real
  {
  }

  /** The deviation that drives the p-value is half of |delta| * nx * ny. */
  lemma DeviationFromDelta(x: seq<real>, y: seq<real>)
    requires |x| > 0 && |y| > 0
    ensures Deviation(x, y) == Abs(Delta(x, y)) * (|x| * |y|) as real / 2.0
  {
    PairsAvailable(x, y);
    AbsOfQuotient(Pairs(x, y, Greater) as real - Pairs(x, y, Lower) as real, (|x| * |y|) as real, Delta(x, y));
  }

  lemma AbsOfQuotient(a: real, d: real, q: real)
    requires d > 0.0 && q == a / d
    ensures Abs(a) / 2.0 == Abs(q) * d / 2.0
  {
    AbsQuotient(a, d);
  }

  /** Swapping the samples keeps the p-value. */
  lemma SwapKeepsPValue(x: seq<real>, y: seq<real>, lib: StatLib)
    requires lib.Valid()
    ensures PValue(y, x, lib) == PValue(x, y, lib)
  {
    PairsSwap(x, y, Greater);
    PairsSwap(x, y, Lower);
    assert multiset(x + y) == multiset(y + x);
    AllTiedOrderFree(x + y, y + x);
    if |x| > 0 && |y| > 0 {
      TieCorrectionOrderFree(x + y, y + x);
      VarianceSwap(x, y);
    }
  }

  /** Swapping the samples negates delta. */
  lemma SwapNegatesDelta(x: seq<real>, y: seq<real>)
    ensures Delta(y, x) == -Delta(x, y)
  {
    if |x| > 0 && |y| > 0 {
      PairsSwap(x, y, Greater);
      PairsSwap(x, y, Lower);
      PairsAvailable(x, y);
      NegatedQuotient(Pairs(x, y, Greater) as real - Pairs(x, y, Lower) as real, (|x| * |y|) as real);
    }
  }

  lemma NegatedQuotient(a: real, d: real)
    requires d != 0.0
    ensures (-a) / d == -(a / d)
  {
  }

  lemma AllTiedOrderFree(s: seq<real>, t: seq<real>)
    requires multiset(s) == multiset(t)
    ensures AllTied(s) <==> AllTied(t)
  {
    forall i | 0 <= i < |t| ensures t[i] in s {
      assert t[i] in multiset(s);
    }
    forall i | 0 <= i < |s| ensures s[i] in t {
      assert s[i] in multiset(t);
    }
  }

  lemma VarianceSwap(x: seq<real>, y: seq<real>)
    requires |x| > 0 && |y| > 0 && TieCorrection(x + y) == TieCorrection(y + x)
    ensures VarianceU(y, x) == VarianceU(x, y)
  {
    assert |x| as real + |y| as real == |y| as real + |x| as real;
    assert |x| as real * |y| as real == |y| as real * |x| as real;
  }

  /** A strictly increasing change of units on both samples does not change the p-value. */
  lemma ChangeOfUnitsKeepsPValue(x: seq<real>, y: seq<real>, f: real -> real, lib: StatLib)
    requires lib.Valid() && StrictlyIncreasing(f)
    ensures PValue(Mapped(x, f), Mapped(y, f), lib) == PValue(x, y, lib)
  {
    if |x| > 0 && |y| > 0 {
      SameBasis(x, y, f);
    }
  }

  /** What the p-value is computed from survives the change of units. */
  lemma SameBasis(x: seq<real>, y: seq<real>, f: real -> real)
    requires StrictlyIncreasing(f) && |x| > 0 && |y| > 0
    ensures var fx, fy := Mapped(x, f), Mapped(y, f);
            && AllTied(x + y) == AllTied(fx + fy)
            && VarianceU(x, y) == VarianceU(fx, fy)
            && Deviation(x, y) == Deviation(fx, fy)
  {
    var fx, fy := Mapped(x, f), Mapped(y, f);
    PairsUnderTransform(x, y, Greater, f);
    PairsUnderTransform(x, y, Lower, f);
    assert fx + fy == Mapped(x + y, f);
    InjectiveTransform(x + y, f);
    VarianceOfSameSizes(x, y, fx, fy);
  }

  lemma VarianceOfSameSizes(x: seq<real>, y: seq<real>, x': seq<real>, y': seq<real>)
    requires |x'| == |x| > 0 && |y'| == |y| > 0 && TieCorrection(x' + y') == TieCorrection(x + y)
    ensures VarianceU(x', y') == VarianceU(x, y)
  {
  }

  /** Nor does it change delta. */
  lemma ChangeOfUnitsKeepsDelta(x: seq<real>, y: seq<real>, f: real -> real)
    requires StrictlyIncreasing(f)
    ensures Delta(Mapped(x, f), Mapped(y, f)) == Delta(x, y)
  {
    PairsUnderTransform(x, y, Greater, f);
    PairsUnderTransform(x, y, Lower, f);
  }

  lemma InjectiveTransform(pool: seq<real>, f: real -> real)
    requires StrictlyIncreasing(f)
    ensures TieCorrection(Mapped(pool, f)) == TieCorrection(pool)
    ensures AllTied(Mapped(pool, f)) == AllTied(pool)
  {
    var image := Mapped(pool, f);
    forall i, j | 0 <= i < |pool| && 0 <= j < |pool| ensures image[i] == image[j] <==> pool[i] == pool[j] {
      SameImage(pool[i], pool[j], f);
    }
    SameTieStructure(image, pool);
  }

  /** The tie correction depends only on which positions hold equal values. */
  lemma SameTieStructure(s: seq<real>, t: seq<real>)
    requires |s| == |t|
    requires forall i, j | 0 <= i < |s| && 0 <= j < |s| :: s[i] == s[j] <==> t[i] == t[j]
    ensures TieCorrection(s) == TieCorrection(t)
  {
    forall k | 0 <= k < |s| ensures TieTerm(s)(s[k]) == TieTerm(t)(t[k]) {
      SumMapped(s, t, EqualTo(s[k]), EqualTo(t[k]));
    }
    SumMapped(s, t, TieTerm(s), TieTerm(t));
  }

  lemma SameImage(a: real, b: real, f: real -> real)
    requires StrictlyIncreasing(f)
    ensures f(a) == f(b) <==> a == b
  {
    assert a < b ==> f(a) < f(b);
    assert b < a ==> f(b) < f(a);
  }

  // ---- The continuity correction ----

  /** Both pairs of samples go through the test, with the same variance of U. */
  ghost predicate SameSpread(x: seq<real>, y: seq<real>, x': seq<real>, y': seq<real>) {
    && |x| > 0 && |y| > 0 && |x'| > 0 && |y'| > 0
    && !AllTied(x + y) && !AllTied(x' + y')
    && VarianceU(x, y) == VarianceU(x', y')
  }

  /** For equal variance the p-value falls with the distance of the deviation from one half. */
  lemma PValueOrder(x: seq<real>, y: seq<real>, x': seq<real>, y': seq<real>, lib: StatLib)
    requires lib.Valid()
    ensures SameSpread(x, y, x', y') ==>
              (PValue(x, y, lib) < PValue(x', y', lib) <==>
                Abs(Deviation(x, y) - 0.5) > Abs(Deviation(x', y') - 0.5))
  {
    if SameSpread(x, y, x', y') {
      var sd := StandardDeviation(x, y, lib);
      TailOrder(Deviation(x, y), Deviation(x', y'), sd, lib);
    }
  }

  lemma TailOrder(d: real, d': real, sd: real, lib: StatLib)
    requires lib.Valid() && sd > 0.0
    ensures Tail(d, sd, lib) < Tail(d', sd, lib) <==> Abs(d - 0.5) > Abs(d' - 0.5)
  {
    var a, b := Abs(d - 0.5), Abs(d' - 0.5);
    QuotientOrder(a, b, sd);
    QuotientOrder(a / sd, b / sd, lib.sqrt(2.0));
    SameImage(a / sd / lib.sqrt(2.0), b / sd / lib.sqrt(2.0), lib.erf);
  }

  lemma QuotientOrder(a: real, b: real, d: real)
    requires d > 0.0
    ensures a / d > b / d <==> a > b
    ensures a / d == b / d <==> a == b
  {
    assert (a / d) * d == a && (b / d) * d == b;
    assert (a / d - b / d) * d == a - b;
  }

  function Margin(x: seq<real>, y: seq<real>): (m: nat)
    ensures Deviation(x, y) == m as real / 2.0
  {
    var d := Pairs(x, y, Greater) - Pairs(x, y, Lower);
    if d < 0 then -d else d
  }

  /** The correction is applied to samples that do not differ at all as well: among pairs of samples with equal
      variance, a larger deviation gets a larger p-value in exactly one situation, no deviation against one half. */
  lemma LargerDeviationLargerPValue(x: seq<real>, y: seq<real>, x': seq<real>, y': seq<real>, lib: StatLib)
    requires lib.Valid()
    ensures SameSpread(x, y, x', y') && Deviation(x, y) < Deviation(x', y') ==>
              (PValue(x, y, lib) < PValue(x', y', lib) <==> Deviation(x, y) == 0.0 && Deviation(x', y') == 0.5)
  {
    if SameSpread(x, y, x', y') && Deviation(x, y) < Deviation(x', y') {
      PValueOrder(x, y, x', y', lib);
      HalfSteps(Margin(x, y), Margin(x', y'));
    }
  }

  lemma HalfSteps(m: nat, m': nat)
    requires m as real / 2.0 < m' as real / 2.0
    ensures Abs(m as real / 2.0 - 0.5) > Abs(m' as real / 2.0 - 0.5) <==> m == 0 && m' == 1
  {
  }

  /** And the situation does occur. */
  lemma BalancedSamplesLookSignificant(lib: StatLib)
    requires lib.Valid()
    ensures Delta([1.0, 1.0], [0.0, 2.0]) == 0.0
    ensures Delta([2.0, 0.0], [2.0, 1.0]) != 0.0
    ensures PValue([1.0, 1.0], [0.0, 2.0], lib) < PValue([2.0, 0.0], [2.0, 1.0], lib) == 1.0
  {
    var x, y, x', y' := [1.0, 1.0], [0.0, 2.0], [2.0, 0.0], [2.0, 1.0];
    ExampleCounts();
    assert (x + y)[0] != (x + y)[2] && (x' + y')[0] != (x' + y')[1];
    ExampleTies();
    LargerDeviationLargerPValue(x, y, x', y', lib);
    PValueRange(x', y', lib);
  }

  lemma ExampleCounts()
    ensures Pairs([1.0, 1.0], [0.0, 2.0], Greater) == Pairs([1.0, 1.0], [0.0, 2.0], Lower)
    ensures Pairs([2.0, 0.0], [2.0, 1.0], Greater) + 1 == Pairs([2.0, 0.0], [2.0, 1.0], Lower)
  {
    var x, y, x', y' := [1.0, 1.0], [0.0, 2.0], [2.0, 0.0], [2.0, 1.0];
    PairsAreTotals(x, y, Greater);
    PairsAreTotals(x, y, Lower);
    PairsAreTotals(x', y', Greater);
    PairsAreTotals(x', y', Lower);
    ExampleRow(1.0, 0.0, 2.0, Greater); ExampleRow(1.0, 0.0, 2.0, Lower);
    ExampleRow(2.0, 2.0, 1.0, Greater); ExampleRow(2.0, 2.0, 1.0, Lower);
    ExampleRow(0.0, 2.0, 1.0, Greater); ExampleRow(0.0, 2.0, 1.0, Lower);
    assert x[..1] == [1.0] && x'[..1] == [2.0];
    assert [1.0][..0] == [] && [2.0][..0] == [];
  }

  lemma ExampleRow(a: real, b0: real, b1: real, c: Cmp)
    ensures Count([b0, b1], Related(c, a)) == (if Holds(c, a, b0) then 1 else 0) + (if Holds(c, a, b1) then 1 else 0)
  {
    assert [b0, b1] == [] + [b0] + [b1];
    CountAppend([], b0, Related(c, a));
    CountAppend([] + [b0], b1, Related(c, a));
  }

  lemma ExampleTies()
    ensures TieCorrection([1.0, 1.0] + [0.0, 2.0]) == TieCorrection([2.0, 0.0] + [2.0, 1.0])
  {
    ExampleReordered();
    ExampleTiePattern();
    assert [1.0, 1.0] + [0.0, 2.0] == [1.0, 1.0, 0.0, 2.0];
    assert [2.0, 0.0] + [2.0, 1.0] == [2.0, 0.0, 2.0, 1.0];
  }

  lemma ExampleTiePattern()
    ensures TieCorrection([1.0, 1.0, 0.0, 2.0]) == TieCorrection([2.0, 2.0, 0.0, 1.0])
  {
    var s, t := [1.0, 1.0, 0.0, 2.0], [2.0, 2.0, 0.0, 1.0];
    SameTieStructure(s, t);
  }

  lemma ExampleReordered()
    ensures TieCorrection([2.0, 0.0, 2.0, 1.0]) == TieCorrection([2.0, 2.0, 0.0, 1.0])
  {
    var s, t := [2.0, 0.0, 2.0, 1.0], [2.0, 2.0, 0.0, 1.0];
    assert multiset(s) == multiset(t);
    TieCorrectionOrderFree(s, t);
  }
}
