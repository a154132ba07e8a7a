/** How often a value of one sample exceeds, equals or falls below a value of another: the
    O(n*m) view of the two-sample statistics, and the score sums that rank statistics reduce to. */
module PairCounts {
  import opened Sums

  datatype Cmp = Greater | Lower | Tied

  predicate Holds(c: Cmp, a: real, b: real) {
    match c
    case Greater => a > b
    case Lower => a < b
    case Tied => a == b
  }

  /** The index pairs related by `c`, among those a row-by-row scan has met on reaching row `i`, column `j`. */
  function PairsBefore(x: seq<real>, y: seq<real>, c: Cmp, i: nat, j: nat): set<(nat, nat)> {
    set a: nat, b: nat | a < |x| && b < |y| && (a < i || (a == i && b < j)) && Holds(c, x[a], y[b]) :: (a, b)
  }

  /** The number of pairs `(a, b)` with `x[a]` related to `y[b]`. */
  function Pairs(x: seq<real>, y: seq<real>, c: Cmp): nat {
    |PairsBefore(x, y, c, |x|, 0)|
  }

  lemma PairsBeforeStep(x: seq<real>, y: seq<real>, c: Cmp, i: nat, j: nat)
    requires i < |x| && j < |y|
    ensures |PairsBefore(x, y, c, i, j+1)| == |PairsBefore(x, y, c, i, j)| + (if Holds(c, x[i], y[j]) then 1 else 0)
  {
    var before, after := PairsBefore(x, y, c, i, j), PairsBefore(x, y, c, i, j+1);
    forall p ensures p in after <==> p in before || (p == (i, j) && Holds(c, x[i], y[j])) {
      assert p == (p.0, p.1);
    }
    assert (i, j) !in before;
    if Holds(c, x[i], y[j]) {
      assert after == before + {(i, j)};
    } else {
      assert after == before;
    }
  }

  lemma PairsBeforeRow(x: seq<real>, y: seq<real>, c: Cmp, i: nat)
    ensures PairsBefore(x, y, c, i, |y|) == PairsBefore(x, y, c, i+1, 0)
  {
  }

  /** One point for a win, half a point for a tie. */
  function Score(a: real, b: real): real {
    if a > b then 1.0 else if a == b then 0.5 else 0.0
  }

  function ScoreOf(a: real): real -> real { b => Score(a, b) }

  /** The total score of a value against a sample. */
  function ScoreAgainst(s: seq<real>): real -> real { a => Sum(s, ScoreOf(a)) }

  /** The total score of sample `x` against sample `y`. */
  function PairScore(x: seq<real>, y: seq<real>): real { Sum(x, ScoreAgainst(y)) }

  function Related(c: Cmp, a: real): real -> bool { b => Holds(c, a, b) }

  /** The pairs counted row by row. */
  function PairTotal(x: seq<real>, y: seq<real>, c: Cmp): nat {
    if |x| == 0 then 0 else PairTotal(x[..|x|-1], y, c) + Count(y, Related(c, x[|x|-1]))
  }

  lemma PairTotalRow(x: seq<real>, y: seq<real>, c: Cmp, i: nat)
    requires i < |x|
    ensures |PairsBefore(x, y, c, i+1, 0)| == |PairsBefore(x, y, c, i, 0)| + Count(y, Related(c, x[i]))
  {
    var j := 0;
    while j < |y|
      invariant j <= |y|
      invariant |PairsBefore(x, y, c, i, j)| == |PairsBefore(x, y, c, i, 0)| + Count(y[..j], Related(c, x[i]))
    {
      PairsBeforeStep(x, y, c, i, j);
      assert y[..j+1] == y[..j] + [y[j]];
      CountAppend(y[..j], y[j], Related(c, x[i]));
      j := j + 1;
    }
    assert y[..j] == y;
    PairsBeforeRow(x, y, c, i);
  }

  lemma PairsAreTotals(x: seq<real>, y: seq<real>, c: Cmp)
    ensures Pairs(x, y, c) == PairTotal(x, y, c)
  {
    var i := 0;
    while i < |x|
      invariant i <= |x|
      invariant |PairsBefore(x, y, c, i, 0)| == PairTotal(x[..i], y, c)
    {
      PairTotalRow(x, y, c, i);
      assert x[..i+1][..i] == x[..i];
      i := i + 1;
    }
    assert x[..i] == x;
  }

  lemma {:induction false} RowScore(a: real, y: seq<real>)
    ensures Sum(y, ScoreOf(a)) == Count(y, Related(Greater, a)) as real + Count(y, Related(Tied, a)) as real / 2.0
    ensures Count(y, Related(Greater, a)) + Count(y, Related(Lower, a)) + Count(y, Related(Tied, a)) == |y|
  {
    if |y| > 0 {
      RowScore(a, y[..|y|-1]);
    }
  }

  lemma {:induction false} PairScoreTotals(x: seq<real>, y: seq<real>)
    ensures PairScore(x, y) == PairTotal(x, y, Greater) as real + PairTotal(x, y, Tied) as real / 2.0
  {
    if |x| > 0 {
      PairScoreTotals(x[..|x|-1], y);
      RowScore(x[|x|-1], y);
    }
  }

  lemma {:induction false} PairTotalsExhaustive(x: seq<real>, y: seq<real>)
    ensures PairTotal(x, y, Greater) + PairTotal(x, y, Lower) + PairTotal(x, y, Tied) == |x| * |y|
  {
    if |x| > 0 {
      PairTotalsExhaustive(x[..|x|-1], y);
      RowScore(x[|x|-1], y);
      assert |x| * |y| == (|x| - 1) * |y| + |y|;
    }
  }

  /** The score total is the number of winning pairs plus half the number of tied pairs. */
  lemma PairScoreCounts(x: seq<real>, y: seq<real>)
    ensures PairScore(x, y) == Pairs(x, y, Greater) as real + Pairs(x, y, Tied) as real / 2.0
  {
    PairsAreTotals(x, y, Greater);
    PairsAreTotals(x, y, Tied);
    PairScoreTotals(x, y);
  }

  /** Every pair is a win, a loss or a tie. */
  lemma PairsExhaustive(x: seq<real>, y: seq<real>)
    ensures Pairs(x, y, Greater) + Pairs(x, y, Lower) + Pairs(x, y, Tied) == |x| * |y|
  {
    PairsAreTotals(x, y, Greater);
    PairsAreTotals(x, y, Lower);
    PairsAreTotals(x, y, Tied);
    PairTotalsExhaustive(x, y);
  }

  function ScoreTo(a: real): real -> real { b => Score(b, a) }

  /** Each pair shares out one point, so the two totals add up to the number of pairs. */
  lemma {:induction false} PairScoreComplement(x: seq<real>, y: seq<real>)
    ensures PairScore(x, y) + PairScore(y, x) == (|x| * |y|) as real
  {
    if |x| == 0 {
      SumZero(y, ScoreAgainst(x));
    } else {
      var init, a := x[..|x|-1], x[|x|-1];
      PairScoreComplement(init, y);
      SumPlus(y, ScoreAgainst(init), ScoreTo(a), ScoreAgainst(x));
      SumOpposites(y, a);
      assert |x| * |y| == |init| * |y| + |y|;
    }
  }

  lemma {:induction false} SumOpposites(y: seq<real>, a: real)
    ensures Sum(y, ScoreOf(a)) + Sum(y, ScoreTo(a)) == |y| as real
  {
    if |y| > 0 {
      SumOpposites(y[..|y|-1], a);
    }
  }

  /** What `c` looks like from the other side. */
  function Mirrored(c: Cmp): Cmp {
    match c
    case Greater => Lower
    case Lower => Greater
    case Tied => Tied
  }

  lemma {:induction false} MirrorSize(s: set<(nat, nat)>)
    ensures |set p | p in s :: (p.1, p.0)| == |s|
    decreases |s|
  {
    var mirror := set p | p in s :: (p.1, p.0);
    if s != {} {
      var q :| q in s;
      MirrorSize(s - {q});
      assert mirror == (set p | p in s - {q} :: (p.1, p.0)) + {(q.1, q.0)};
    }
  }

  /** Swapping the samples exchanges wins and losses and keeps the ties. */
  lemma PairsSwap(x: seq<real>, y: seq<real>, c: Cmp)
    ensures Pairs(y, x, Mirrored(c)) == Pairs(x, y, c)
  {
    var s := PairsBefore(x, y, c, |x|, 0);
    MirrorSize(s);
    assert PairsBefore(y, x, Mirrored(c), |y|, 0) == set p | p in s :: (p.1, p.0);
  }

  ghost predicate StrictlyIncreasing(f: real -> real) {
    forall a, b {:trigger f(a), f(b)} :: a < b ==> f(a) < f(b)
  }

  function Mapped(s: seq<real>, f: real -> real): (r: seq<real>)
    ensures |r| == |s| && forall i | 0 <= i < |s| :: r[i] == f(s[i])
  {
    seq(|s|, i requires 0 <= i < |s| => f(s[i]))
  }

  /** Only the order of the pooled values matters. */
  lemma PairsUnderTransform(x: seq<real>, y: seq<real>, c: Cmp, f: real -> real)
    requires StrictlyIncreasing(f)
    ensures Pairs(Mapped(x, f), Mapped(y, f), c) == Pairs(x, y, c)
  {
    var fx, fy := Mapped(x, f), Mapped(y, f);
    forall a: nat, b: nat | a < |x| && b < |y| ensures Holds(c, fx[a], fy[b]) == Holds(c, x[a], y[b]) {
      assert fx[a] == f(x[a]) && fy[b] == f(y[b]);
    }
    assert PairsBefore(fx, fy, c, |fx|, 0) == PairsBefore(x, y, c, |x|, 0);
  }
}
