/** The bootstrap interval for the difference of two quantiles. The random source is an arbitrary stream of
    raw draws read in order, so everything below holds for every seed. */
module Bootstrap {
  import opened Sums
  import opened Ordering
  import opened Quantiles

  /** The generator: an unknown stream of raw numbers and how many have been used. */
  class Rng {
    const raw: nat -> nat
    var pos: nat

    constructor (raw: nat -> nat)
      ensures this.raw == raw && pos == 0
    {
      this.raw := raw;
      pos := 0;
    }

    /** A number in `[0, n)`. */
    method Intn(n: nat) returns (k: nat)
      requires n > 0
      modifies this
      ensures k == Draw(raw, old(pos), n) && pos == old(pos) + 1
    {
      k := raw(pos) % n;
      pos := pos + 1;
    }
  }

  function Draw(raw: nat -> nat, pos: nat, n: nat): (k: nat)
    requires n > 0
    ensures k < n
  {
    raw(pos) % n
  }

  /** A sample of the same size drawn with replacement, using the draws from `pos` on. */
  function Resample(s: seq<real>, raw: nat -> nat, pos: nat): (r: seq<real>)
    requires |s| > 0
    ensures |r| == |s|
  {
    seq(|s|, j requires 0 <= j < |s| => s[Draw(raw, pos + j, |s|)])
  }

  lemma ResampleMembers(s: seq<real>, raw: nat -> nat, pos: nat)
    requires |s| > 0
    ensures forall v | v in Resample(s, raw, pos) :: v in s
  {
    forall j | 0 <= j < |s| ensures Resample(s, raw, pos)[j] in s {
      assert Resample(s, raw, pos)[j] == s[Draw(raw, pos + j, |s|)];
    }
  }

  /** Where the draws of round `i` start: each round uses one draw per value of each sample. */
  function RoundStart(pos: nat, i: nat, stride: nat): nat {
    if i == 0 then pos else RoundStart(pos, i - 1, stride) + stride
  }

  /** The quantile difference of one round. */
  function DeltaAt(candidate: seq<real>, baseline: seq<real>, quant: real, raw: nat -> nat, pos: nat): real
    requires |candidate| > 0 && |baseline| > 0
  {
    QuantileOfResample(candidate, quant, raw, pos) - QuantileOfResample(baseline, quant, raw, pos + |candidate|)
  }

  function QuantileOfResample(sample: seq<real>, quant: real, raw: nat -> nat, pos: nat): real
    requires |sample| > 0
  {
    Quantile(Resample(sample, raw, pos), quant)
  }

  function Deltas(candidate: seq<real>, baseline: seq<real>, quant: real, raw: nat -> nat, pos: nat, n: nat)
    : (r: seq<real>)
    requires |candidate| > 0 && |baseline| > 0
    ensures |r| == n
  {
    if n == 0 then []
    else
      Deltas(candidate, baseline, quant, raw, pos, n - 1)
      + [DeltaAt(candidate, baseline, quant, raw, RoundStart(pos, n - 1, |candidate| + |baseline|))]
  }

  function LowIndex(n: nat): (k: nat)
    requires n > 0
    ensures k < n
  {
    (0.025 * (n - 1) as real).Floor
  }

  function HighIndex(n: nat): (k: nat)
    requires n > 0
    ensures LowIndex(n) <= k < n
  {
    Ceil(0.975 * (n - 1) as real)
  }

  datatype Interval = Interval(low: real, high: real)

  /** The 2.5 and 97.5 percent order statistics. */
  function PercentileInterval(deltas: seq<real>): Interval
    requires |deltas| > 0
  {
    Interval(Sorted(deltas)[LowIndex(|deltas|)], Sorted(deltas)[HighIndex(|deltas|)])
  }

  /** The 2.5 and 97.5 percent order statistics of the differences; the zero interval when there is too little
      to resample or fewer than ten rounds. */
  function DeltaCI(candidate: seq<real>, baseline: seq<real>, quant: real, raw: nat -> nat, pos: nat, iterations: int)
    : Interval
  {
    if |candidate| == 0 || |baseline| == 0 || iterations < 10 then Interval(0.0, 0.0)
    else PercentileInterval(Deltas(candidate, baseline, quant, raw, pos, iterations))
  }

  /** How many draws a call consumes. */
  function DrawsUsed(candidate: seq<real>, baseline: seq<real>, iterations: int, pos: nat): nat {
    if |candidate| == 0 || |baseline| == 0 || iterations < 10 then pos
    else RoundStart(pos, iterations, |candidate| + |baseline|)
  }

  /** Fill a buffer with random members of the sample. */
  method FillBuffer(buf: array<real>, sample: seq<real>, rng: Rng)
    requires buf.Length == |sample| > 0
    modifies buf, rng
    ensures buf[..] == Resample(sample, rng.raw, old(rng.pos))
    ensures rng.pos == old(rng.pos) + |sample|
  {
    for j := 0 to |sample|
      invariant rng.pos == old(rng.pos) + j
      invariant forall k | 0 <= k < j :: buf[k] == sample[Draw(rng.raw, old(rng.pos) + k, |sample|)]
    {
      var k := rng.Intn(|sample|);
      buf[j] := sample[k];
    }
  }

  /** The quantile of one resampled side. */
  method ResampledQuantile(sample: seq<real>, quant: real, buf: array<real>, rng: Rng) returns (r: real)
    requires buf.Length == |sample| > 0
    modifies buf, rng
    ensures r == QuantileOfResample(sample, quant, rng.raw, old(rng.pos))
    ensures rng.pos == old(rng.pos) + |sample|
  {
    FillBuffer(buf, sample, rng);
    ghost var drawn := Resample(sample, rng.raw, old(rng.pos));
    var current := buf[..];
    assert current == drawn;
    r := ComputeQuantile(current, quant);
  }

  /** One round: resample both sides, candidate first, and take the difference of their quantiles. */
  method Round(candidate: seq<real>, baseline: seq<real>, quant: real, candBuf: array<real>, baseBuf: array<real>,
               rng: Rng)
    returns (delta: real)
    requires candBuf.Length == |candidate| > 0 && baseBuf.Length == |baseline| > 0
    modifies candBuf, baseBuf, rng
    ensures delta == DeltaAt(candidate, baseline, quant, rng.raw, old(rng.pos))
    ensures rng.pos == old(rng.pos) + |candidate| + |baseline|
  {
    var qc := ResampledQuantile(candidate, quant, candBuf, rng);
    var qb := ResampledQuantile(baseline, quant, baseBuf, rng);
    delta := qc - qb;
  }

  /** Sort the differences and read off the two percentiles; the index corrections are never needed. */
  method Percentiles(deltas: array<real>) returns (low: real, high: real)
    requires deltas.Length > 0
    modifies deltas
    ensures Interval(low, high) == PercentileInterval(old(deltas[..]))
  {
    SortFloats(deltas);
    var last := deltas.Length - 1;
    var lowIdx := (0.025 * last as real).Floor;
    var highIdx := Ceil(0.975 * last as real);
    if lowIdx < 0 {
      lowIdx := 0;
    }
    if highIdx > last {
      highIdx := last;
    }
    low, high := deltas[lowIdx], deltas[highIdx];
  }

  lemma DeltasStep(candidate: seq<real>, baseline: seq<real>, quant: real, raw: nat -> nat, pos: nat, n: nat,
                   p: nat, delta: real)
    requires |candidate| > 0 && |baseline| > 0
    requires p == RoundStart(pos, n, |candidate| + |baseline|)
    requires delta == DeltaAt(candidate, baseline, quant, raw, p)
    ensures Deltas(candidate, baseline, quant, raw, pos, n) + [delta] ==
            Deltas(candidate, baseline, quant, raw, pos, n + 1)
    ensures RoundStart(pos, n + 1, |candidate| + |baseline|) == p + |candidate| + |baseline|
  {
  }

  /** The resampling loop: one difference appended per round. */
  method DrawDeltas(candidate: seq<real>, baseline: seq<real>, quant: real, iterations: nat, rng: Rng)
    returns (deltas: seq<real>)
    requires |candidate| > 0 && |baseline| > 0
    modifies rng
    ensures deltas == Deltas(candidate, baseline, quant, rng.raw, old(rng.pos), iterations)
    ensures rng.pos == RoundStart(old(rng.pos), iterations, |candidate| + |baseline|)
  {
    var candBuf := new real[|candidate|];
    var baseBuf := new real[|baseline|];
    deltas := [];
    for i := 0 to iterations
      invariant rng.pos == RoundStart(old(rng.pos), i, |candidate| + |baseline|)
      invariant deltas == Deltas(candidate, baseline, quant, rng.raw, old(rng.pos), i)
    {
      ghost var p := rng.pos;
      var delta := Round(candidate, baseline, quant, candBuf, baseBuf, rng);
      DeltasStep(candidate, baseline, quant, rng.raw, old(rng.pos), i, p, delta);
      deltas := deltas + [delta];
    }
  }

  method BootstrapDeltaCI(candidate: seq<real>, baseline: seq<real>, quant: real, iterations: int, rng: Rng)
    returns (low: real, high: real)
    modifies rng
    ensures Interval(low, high) == DeltaCI(candidate, baseline, quant, rng.raw, old(rng.pos), iterations)
    ensures rng.pos == DrawsUsed(candidate, baseline, iterations, old(rng.pos))
  {
    if |candidate| == 0 || |baseline| == 0 || iterations < 10 {
      return 0.0, 0.0;
    }
    var drawn := DrawDeltas(candidate, baseline, quant, iterations, rng);
    var deltas := new real[|drawn|](i requires 0 <= i < |drawn| => drawn[i]);
    assert deltas[..] == drawn;
    low, high := Percentiles(deltas);
  }

  // ---- What the interval says ----

  function Within(i: Interval): real -> bool { v => i.low <= v <= i.high }

  lemma CountMiddle(s: seq<real>, a: nat, b: nat, p: real -> bool)
    requires a <= b < |s| && forall k | a <= k <= b :: p(s[k])
    ensures Count(s, p) >= b - a + 1
  {
    var head, middle := s[..b+1], s[a..b+1];
    CountSplit(s, b + 1, p);
    CountSplit(head, a, p);
    assert head[a..] == middle;
    CountAll(middle, p);
  }

  /** The interval is never inverted, its ends are differences that were seen, and it holds at least 95 percent
      of all differences. */
  lemma IntervalCoverage(deltas: seq<real>)
    requires |deltas| > 0
    ensures var ci := PercentileInterval(deltas);
            && ci.low <= ci.high
            && ci.low in deltas && ci.high in deltas
            && Count(deltas, Within(ci)) as real >= 0.95 * |deltas| as real
  {
    CoverageCount(deltas, LowIndex(|deltas|), HighIndex(|deltas|));
    SortedMembers(deltas, LowIndex(|deltas|));
    SortedMembers(deltas, HighIndex(|deltas|));
  }

  lemma CoverageCount(deltas: seq<real>, low: nat, high: nat)
    requires low <= high < |deltas|
    ensures Count(deltas, Within(Interval(Sorted(deltas)[low], Sorted(deltas)[high]))) >= high - low + 1
  {
    var sorted := Sorted(deltas);
    var ci := Interval(sorted[low], sorted[high]);
    CountMiddle(sorted, low, high, Within(ci));
    CountPermutation(sorted, deltas, Within(ci));
  }

  function Below(t: real): real -> bool { v => v < t }

  function Over(t: real): real -> bool { v => v > t }

  /** `v` cuts off the lower `share` of all but one of the values: no more lie below it, more lie below or at it. */
  predicate CutsLower(s: seq<real>, v: real, share: real) {
    Count(s, Below(v)) as real <= share * (|s| - 1) as real < Count(s, AtMost(v)) as real
  }

  predicate CutsUpper(s: seq<real>, v: real, share: real) {
    Count(s, Over(v)) as real <= share * (|s| - 1) as real < Count(s, AtLeast(v)) as real
  }

  lemma BelowOrderStatistic(s: seq<real>, k: nat)
    requires Ascending(s) && k < |s|
    ensures Count(s, Below(s[k])) <= k && Count(s, AtMost(s[k])) >= k + 1
  {
    OrderStatistic(s, k, s[k]);
    CountSplit(s, k, Below(s[k]));
    CountNone(s[k..], Below(s[k]));
  }

  lemma OverOrderStatistic(s: seq<real>, k: nat)
    requires Ascending(s) && k < |s|
    ensures Count(s, Over(s[k])) <= |s| - 1 - k && Count(s, AtLeast(s[k])) >= |s| - k
  {
    CountFromTop(s, k, s[k]);
    CountSplit(s, k + 1, Over(s[k]));
    CountNone(s[..k+1], Over(s[k]));
  }

  /** At most one value cuts off a given share. */
  lemma CutsOnce(s: seq<real>, v: real, w: real, share: real)
    requires (CutsLower(s, v, share) && CutsLower(s, w, share)) || (CutsUpper(s, v, share) && CutsUpper(s, w, share))
    ensures v == w
  {
    if v < w {
      CountPointwise(s, s, AtMost(v), Below(w));
      CountPointwise(s, s, AtLeast(w), Over(v));
    } else if w < v {
      CountPointwise(s, s, AtMost(w), Below(v));
      CountPointwise(s, s, AtLeast(v), Over(w));
    }
  }

  /** The ends of the interval are the two values that cut off 2.5 percent of the differences on either side. */
  lemma IntervalTails(deltas: seq<real>, v: real)
    requires |deltas| > 0
    ensures v == PercentileInterval(deltas).low <==> CutsLower(deltas, v, 0.025)
    ensures v == PercentileInterval(deltas).high <==> CutsUpper(deltas, v, 0.025)
  {
    var s, low, high := Sorted(deltas), LowIndex(|deltas|), HighIndex(|deltas|);
    var ci := PercentileInterval(deltas);
    BelowOrderStatistic(s, low);
    OverOrderStatistic(s, high);
    CountPermutation(s, deltas, Below(ci.low));
    CountPermutation(s, deltas, AtMost(ci.low));
    CountPermutation(s, deltas, Over(ci.high));
    CountPermutation(s, deltas, AtLeast(ci.high));
    assert CutsLower(deltas, ci.low, 0.025);
    assert CutsUpper(deltas, ci.high, 0.025);
    if CutsLower(deltas, v, 0.025) {
      CutsOnce(deltas, v, ci.low, 0.025);
    }
    if CutsUpper(deltas, v, 0.025) {
      CutsOnce(deltas, v, ci.high, 0.025);
    }
  }

  /** Every round uses one draw per value of either sample. */
  lemma {:induction false} DrawsPerRound(pos: nat, i: nat, stride: nat)
    ensures RoundStart(pos, i, stride) == pos + i * stride
  {
    if i > 0 {
      DrawsPerRound(pos, i - 1, stride);
      assert i * stride == (i - 1) * stride + stride;
    }
  }

  /** A call draws for every round, or not at all. */
  lemma DrawsPerCall(candidate: seq<real>, baseline: seq<real>, iterations: int, pos: nat)
    ensures DrawsUsed(candidate, baseline, iterations, pos) - pos ==
            if candidate == [] || baseline == [] || iterations < 10 then 0
            else iterations * (|candidate| + |baseline|)
  {
    if iterations >= 10 {
      DrawsPerRound(pos, iterations, |candidate| + |baseline|);
    }
  }

  /** Every candidate value exceeds every baseline value. */
  ghost predicate Above(candidate: seq<real>, baseline: seq<real>) {
    forall c, b | c in candidate && b in baseline :: c > b
  }

  /** No candidate value exceeds any baseline value. */
  ghost predicate NowhereAbove(candidate: seq<real>, baseline: seq<real>) {
    forall c, b | c in candidate && b in baseline :: c <= b
  }

  /** One round on samples that do not overlap. */
  lemma RoundSign(candidate: seq<real>, baseline: seq<real>, quant: real, raw: nat -> nat, pos: nat)
    requires |candidate| > 0 && |baseline| > 0
    ensures Above(candidate, baseline) ==> DeltaAt(candidate, baseline, quant, raw, pos) > 0.0
    ensures NowhereAbove(candidate, baseline) ==> DeltaAt(candidate, baseline, quant, raw, pos) <= 0.0
  {
    var rc, rb := Resample(candidate, raw, pos), Resample(baseline, raw, pos + |candidate|);
    ResampleMembers(candidate, raw, pos);
    ResampleMembers(baseline, raw, pos + |candidate|);
    QuantileSeparates(rb, rc, quant, quant);
    QuantileSeparates(rc, rb, quant, quant);
  }

  lemma {:induction false} DeltasSign(candidate: seq<real>, baseline: seq<real>, quant: real, raw: nat -> nat,
                                      pos: nat, n: nat)
    requires |candidate| > 0 && |baseline| > 0
    ensures Above(candidate, baseline) ==> forall d | d in Deltas(candidate, baseline, quant, raw, pos, n) :: d > 0.0
    ensures NowhereAbove(candidate, baseline) ==>
            forall d | d in Deltas(candidate, baseline, quant, raw, pos, n) :: d <= 0.0
  {
    if n > 0 {
      DeltasSign(candidate, baseline, quant, raw, pos, n - 1);
      RoundSign(candidate, baseline, quant, raw, RoundStart(pos, n - 1, |candidate| + |baseline|));
    }
  }

  /** Whatever is drawn: if every candidate value exceeds every baseline value the interval lies above zero, and if
      none does the interval does not reach above zero. */
  lemma IntervalSign(candidate: seq<real>, baseline: seq<real>, quant: real, raw: nat -> nat, pos: nat, n: int)
    requires |candidate| > 0 && |baseline| > 0
    ensures Above(candidate, baseline) && n >= 10 ==> DeltaCI(candidate, baseline, quant, raw, pos, n).low > 0.0
    ensures NowhereAbove(candidate, baseline) ==> DeltaCI(candidate, baseline, quant, raw, pos, n).high <= 0.0
    ensures var ci := DeltaCI(candidate, baseline, quant, raw, pos, n); ci.low <= ci.high
  {
    if n >= 10 {
      DeltasSign(candidate, baseline, quant, raw, pos, n);
      IntervalCoverage(Deltas(candidate, baseline, quant, raw, pos, n));
    }
  }

  // ---- Draws that return the samples themselves ----

  /** `k` modulo `stride`. */
  function Offset(k: nat, stride: nat): (r: nat)
    requires stride > 0
    ensures r < stride
  {
    if k < stride then k else Offset(k - stride, stride)
  }

  /** The position within its own sample that draw `k` should hit, to go through both samples once a round. */
  function OwnPosition(nx: nat, ny: nat, pos: nat, k: nat): nat {
    if k < pos || nx + ny == 0 then 0
    else
      var r := Offset(k - pos, nx + ny);
      if r < nx then r else r - nx
  }

  /** The stream that from `pos` on draws every value of both samples once a round, in order. */
  function InOrder(nx: nat, ny: nat, pos: nat): nat -> nat { k => OwnPosition(nx, ny, pos, k) }

  lemma {:induction false} OffsetInRound(pos: nat, i: nat, stride: nat, j: nat)
    requires j < stride
    ensures RoundStart(pos, i, stride) >= pos
    ensures Offset(RoundStart(pos, i, stride) + j - pos, stride) == j
  {
    if i > 0 {
      OffsetInRound(pos, i - 1, stride, j);
    }
  }

  predicate Hits(raw: nat -> nat, p: nat, j: nat) { raw(p + j) == j }

  /** A stream that hits `0, 1, ..., |s| - 1` returns the sample. */
  lemma DrawnInOrder(s: seq<real>, raw: nat -> nat, p: nat)
    requires |s| > 0 && forall j: nat | j < |s| :: Hits(raw, p, j)
    ensures Resample(s, raw, p) == s
  {
    forall j: nat | j < |s| ensures Resample(s, raw, p)[j] == s[j] {
      assert Hits(raw, p, j);
      assert Draw(raw, p + j, |s|) == j;
    }
  }

  lemma InOrderResamples(x: seq<real>, y: seq<real>, pos: nat, i: nat, p: nat)
    requires |x| > 0 && |y| > 0 && p == RoundStart(pos, i, |x| + |y|)
    ensures Resample(x, InOrder(|x|, |y|, pos), p) == x
    ensures Resample(y, InOrder(|x|, |y|, pos), p + |x|) == y
  {
    var raw := InOrder(|x|, |y|, pos);
    forall j: nat | j < |x| ensures Hits(raw, p, j) {
      OffsetInRound(pos, i, |x| + |y|, j);
    }
    DrawnInOrder(x, raw, p);
    var second := p + |x|;
    forall j: nat | j < |y| ensures Hits(raw, second, j) {
      OffsetInRound(pos, i, |x| + |y|, |x| + j);
    }
    DrawnInOrder(y, raw, second);
  }

  /** The difference that round `i` yields. */
  function RoundDelta(x: seq<real>, y: seq<real>, quant: real, raw: nat -> nat, pos: nat, i: nat): real
    requires |x| > 0 && |y| > 0
  {
    DeltaAt(x, y, quant, raw, RoundStart(pos, i, |x| + |y|))
  }

  lemma {:induction false} ConstantDeltas(x: seq<real>, y: seq<real>, quant: real, raw: nat -> nat, pos: nat, n: nat,
                                          d: real)
    requires |x| > 0 && |y| > 0
    requires forall i: nat | i < n :: RoundDelta(x, y, quant, raw, pos, i) == d
    ensures forall e | e in Deltas(x, y, quant, raw, pos, n) :: e == d
  {
    if n > 0 {
      ConstantDeltas(x, y, quant, raw, pos, n - 1, d);
      assert RoundDelta(x, y, quant, raw, pos, n - 1) == d;
    }
  }

  lemma InOrderRound(x: seq<real>, y: seq<real>, quant: real, pos: nat, i: nat)
    requires |x| > 0 && |y| > 0
    ensures RoundDelta(x, y, quant, InOrder(|x|, |y|, pos), pos, i) == Quantile(x, quant) - Quantile(y, quant)
  {
    InOrderResamples(x, y, pos, i, RoundStart(pos, i, |x| + |y|));
  }

  /** Some draws make the interval exactly the difference of the samples' own quantiles. */
  lemma InOrderInterval(x: seq<real>, y: seq<real>, quant: real, pos: nat, n: int)
    requires |x| > 0 && |y| > 0 && n >= 10
    ensures var d := Quantile(x, quant) - Quantile(y, quant);
            DeltaCI(x, y, quant, InOrder(|x|, |y|, pos), pos, n) == Interval(d, d)
  {
    var d, raw := Quantile(x, quant) - Quantile(y, quant), InOrder(|x|, |y|, pos);
    forall i: nat | i < n ensures RoundDelta(x, y, quant, raw, pos, i) == d {
      InOrderRound(x, y, quant, pos, i);
    }
    ConstantDeltas(x, y, quant, raw, pos, n, d);
    ConstantInterval(Deltas(x, y, quant, raw, pos, n), d);
  }

  lemma ConstantInterval(deltas: seq<real>, d: real)
    requires |deltas| > 0 && forall e | e in deltas :: e == d
    ensures PercentileInterval(deltas) == Interval(d, d)
  {
    IntervalCoverage(deltas);
  }
}
