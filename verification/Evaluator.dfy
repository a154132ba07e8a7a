/** Quality metrics of the matcher over labelled pairs, and how they respond to the threshold and the window. */
module Evaluator {
  import opened Basics
  import opened Sums
  import opened Correlation

  datatype LabeledPair = LabeledPair(span: SpanRef, signal: SignalRef, expectedMatch: bool, expectedTier: ExpectedTier)

  /** The tier a label names, if any; `ExpectOther` is any name that is none of the four. */
  datatype ExpectedTier = NoExpectation | Expect(tier: Tier) | ExpectOther(name: string)

  datatype Report = Report(
    sampleSize: nat,
    truePositive: nat,
    falsePositive: nat,
    falseNegative: nat,
    trueNegative: nat,
    precision: real,
    recall: real,
    f1: real,
    tierAccuracy: real,
    meanConfidence: real)

  function EffectiveThreshold(threshold: real): (t: real)
    ensures t > 0.0
  {
    if threshold <= 0.0 then DEFAULT_THRESHOLD else threshold
  }

  /** A pair is predicted to match when it is matched with enough confidence. */
  predicate Predicted(pair: LabeledPair, window: int, threshold: real) {
    var d := MatchPair(pair.span, pair.signal, window);
    d.Match? && d.confidence >= EffectiveThreshold(threshold)
  }

  /** The four cells of the confusion table. */
  function Cell(expected: bool, predicted: bool, window: int, threshold: real): LabeledPair -> bool {
    (p: LabeledPair) => p.expectedMatch == expected && Predicted(p, window, threshold) == predicted
  }

  function CellCount(pairs: seq<LabeledPair>, expected: bool, predicted: bool, window: int, threshold: real): nat {
    Count(pairs, Cell(expected, predicted, window, threshold))
  }

  function SafeDiv(num: nat, den: nat): real { if den == 0 then 0.0 else num as real / den as real }

  function Precision(pairs: seq<LabeledPair>, window: int, threshold: real): real {
    var tp, fp := CellCount(pairs, true, true, window, threshold), CellCount(pairs, false, true, window, threshold);
    SafeDiv(tp, tp + fp)
  }

  function Recall(pairs: seq<LabeledPair>, window: int, threshold: real): real {
    var tp, fn := CellCount(pairs, true, true, window, threshold), CellCount(pairs, true, false, window, threshold);
    SafeDiv(tp, tp + fn)
  }

  function HarmonicMean(p: real, r: real): real {
    if p + r > 0.0 then 2.0 * ((p * r) / (p + r)) else 0.0
  }

  function PredictedConfidence(window: int, threshold: real): LabeledPair -> real {
    (p: LabeledPair) =>
      if Predicted(p, window, threshold) then ConfidenceOf(MatchPair(p.span, p.signal, window)) else 0.0
  }

  function TierComparable(window: int, threshold: real): LabeledPair -> bool {
    (p: LabeledPair) => p.expectedMatch && !p.expectedTier.NoExpectation? && Predicted(p, window, threshold)
  }

  function TierCorrect(window: int, threshold: real): LabeledPair -> bool {
    (p: LabeledPair) =>
      p.expectedMatch && Predicted(p, window, threshold)
      && p.expectedTier == Expect(MatchPair(p.span, p.signal, window).tier)
  }

  datatype Counters = Counters(tp: nat, fp: nat, fn: nat, tn: nat, tierCorrect: nat, tierComparable: nat, confSum: real)

  function CountersOf(pairs: seq<LabeledPair>, w: int, t: real): Counters {
    Counters(CellCount(pairs, true, true, w, t), CellCount(pairs, false, true, w, t),
             CellCount(pairs, true, false, w, t), CellCount(pairs, false, false, w, t),
             Count(pairs, TierCorrect(w, t)), Count(pairs, TierComparable(w, t)),
             Sum(pairs, PredictedConfidence(w, t)))
  }

  function Bump(n: nat, yes: bool): nat { if yes then n + 1 else n }

  lemma CountersAppend(pairs: seq<LabeledPair>, p: LabeledPair, w: int, t: real)
    ensures var c := CountersOf(pairs, w, t);
            var predicted := Predicted(p, w, t);
            CountersOf(pairs + [p], w, t) == Counters(
              Bump(c.tp, p.expectedMatch && predicted), Bump(c.fp, !p.expectedMatch && predicted),
              Bump(c.fn, p.expectedMatch && !predicted), Bump(c.tn, !p.expectedMatch && !predicted),
              Bump(c.tierCorrect, TierCorrect(w, t)(p)), Bump(c.tierComparable, TierComparable(w, t)(p)),
              c.confSum + PredictedConfidence(w, t)(p))
  {
    CountAppend(pairs, p, Cell(true, true, w, t));
    CountAppend(pairs, p, Cell(false, true, w, t));
    CountAppend(pairs, p, Cell(true, false, w, t));
    CountAppend(pairs, p, Cell(false, false, w, t));
    CountAppend(pairs, p, TierCorrect(w, t));
    CountAppend(pairs, p, TierComparable(w, t));
    SumAppend(pairs, p, PredictedConfidence(w, t));
  }

  /** The counting loop. */
  method CountOutcomes(pairs: seq<LabeledPair>, window: int, threshold: real) returns (c: Counters)
    ensures c == CountersOf(pairs, window, threshold)
  {
    var w, t := EffectiveWindow(window), EffectiveThreshold(threshold);
    c := Counters(0, 0, 0, 0, 0, 0, 0.0);
    for i := 0 to |pairs|
      invariant c == CountersOf(pairs[..i], window, threshold)
    {
      var pair := pairs[i];
      CountersAppend(pairs[..i], pair, window, threshold);
      assert pairs[..i+1] == pairs[..i] + [pair];
      var decision := MatchPair(pair.span, pair.signal, w);
      var predicted := decision.Match? && decision.confidence >= t;
      if predicted {
        c := c.(confSum := c.confSum + decision.confidence);
      }
      if pair.expectedMatch && predicted {
        c := c.(tp := c.tp + 1);
      } else if !pair.expectedMatch && predicted {
        c := c.(fp := c.fp + 1);
      } else if pair.expectedMatch {
        c := c.(fn := c.fn + 1);
      } else {
        c := c.(tn := c.tn + 1);
      }
      if pair.expectedMatch && !pair.expectedTier.NoExpectation? && predicted {
        c := c.(tierComparable := c.tierComparable + 1);
        if pair.expectedTier == Expect(decision.tier) {
          c := c.(tierCorrect := c.tierCorrect + 1);
        }
      }
    }
    assert pairs[..|pairs|] == pairs;
  }

  method ComputeF1(precision: real, recall: real) returns (f1: real)
    ensures f1 == HarmonicMean(precision, recall)
  {
    f1 := 0.0;
    if precision + recall > 0.0 {
      f1 := 2.0 * ((precision * recall) / (precision + recall));
    }
  }

  function Average(sum: real, n: nat): real { if n == 0 then 0.0 else sum / n as real }

  method EvaluateLabeledPairs(pairs: seq<LabeledPair>, window: int, threshold: real) returns (r: Report)
    ensures r.sampleSize == |pairs|
    ensures r.truePositive == CellCount(pairs, true, true, window, threshold)
    ensures r.falsePositive == CellCount(pairs, false, true, window, threshold)
    ensures r.falseNegative == CellCount(pairs, true, false, window, threshold)
    ensures r.trueNegative == CellCount(pairs, false, false, window, threshold)
    ensures r.precision == Precision(pairs, window, threshold)
    ensures r.recall == Recall(pairs, window, threshold)
    ensures r.f1 == HarmonicMean(r.precision, r.recall)
    ensures r.tierAccuracy == SafeDiv(Count(pairs, TierCorrect(window, threshold)),
                                      Count(pairs, TierComparable(window, threshold)))
    ensures r.meanConfidence == MeanConfidence(pairs, window, threshold)
  {
    var c := CountOutcomes(pairs, window, threshold);
    var precision := SafeDiv(c.tp, c.tp + c.fp);
    var recall := SafeDiv(c.tp, c.tp + c.fn);
    var f1 := ComputeF1(precision, recall);
    var tierAccuracy := SafeDiv(c.tierCorrect, c.tierComparable);
    var mean := Average(c.confSum, c.tp + c.fp);
    r := Report(|pairs|, c.tp, c.fp, c.fn, c.tn, precision, recall, f1, tierAccuracy, mean);
  }

  /** The average confidence of the predicted pairs. */
  function MeanConfidence(pairs: seq<LabeledPair>, window: int, threshold: real): real {
    Average(Sum(pairs, PredictedConfidence(window, threshold)),
            CellCount(pairs, true, true, window, threshold) + CellCount(pairs, false, true, window, threshold))
  }

  // ---- Laws over every dataset ----

  /** Every pair falls in exactly one cell. */
  lemma {:induction false} CellsPartition(pairs: seq<LabeledPair>, window: int, threshold: real)
    ensures CellCount(pairs, true, true, window, threshold) + CellCount(pairs, false, true, window, threshold)
            + CellCount(pairs, true, false, window, threshold) + CellCount(pairs, false, false, window, threshold)
            == |pairs|
  {
    if |pairs| > 0 {
      CellsPartition(pairs[..|pairs|-1], window, threshold);
    }
  }

  /** Predicting fewer pairs never raises a count of predictions. */
  lemma PredictionsShrink(pairs: seq<LabeledPair>, w: int, t: real, w': int, t': real, expected: bool)
    requires forall p | p in pairs && Predicted(p, w', t') :: Predicted(p, w, t)
    ensures CellCount(pairs, expected, true, w', t') <= CellCount(pairs, expected, true, w, t)
  {
    CountPointwise(pairs, pairs, Cell(expected, true, w', t'), Cell(expected, true, w, t));
  }

  function ExpectedMatches(): LabeledPair -> bool { (p: LabeledPair) => p.expectedMatch }

  lemma {:induction false} ExpectedSplit(pairs: seq<LabeledPair>, window: int, threshold: real)
    ensures CellCount(pairs, true, true, window, threshold) + CellCount(pairs, true, false, window, threshold)
            == Count(pairs, ExpectedMatches())
  {
    if |pairs| > 0 {
      ExpectedSplit(pairs[..|pairs|-1], window, threshold);
    }
  }

  lemma ShareMonotone(a: nat, b: nat, d: nat)
    requires a <= b
    ensures SafeDiv(a, d) <= SafeDiv(b, d)
  {
  }

  lemma RecallShrinks(pairs: seq<LabeledPair>, w: int, t: real, w': int, t': real)
    requires CellCount(pairs, true, true, w', t') <= CellCount(pairs, true, true, w, t)
    ensures Recall(pairs, w', t') <= Recall(pairs, w, t)
  {
    ExpectedSplit(pairs, w, t);
    ExpectedSplit(pairs, w', t');
    ShareMonotone(CellCount(pairs, true, true, w', t'), CellCount(pairs, true, true, w, t),
                  Count(pairs, ExpectedMatches()));
  }

  /** Raising a positive threshold never raises true positives, false positives or recall. */
  lemma HigherThreshold(pairs: seq<LabeledPair>, window: int, t: real, t': real)
    requires 0.0 < t <= t'
    ensures CellCount(pairs, true, true, window, t') <= CellCount(pairs, true, true, window, t)
    ensures CellCount(pairs, false, true, window, t') <= CellCount(pairs, false, true, window, t)
    ensures Recall(pairs, window, t') <= Recall(pairs, window, t)
  {
    PredictionsShrink(pairs, window, t, window, t', true);
    PredictionsShrink(pairs, window, t, window, t', false);
    RecallShrinks(pairs, window, t, window, t');
  }

  /** Widening a positive window never lowers true positives, false positives or recall. */
  lemma WiderWindow(pairs: seq<LabeledPair>, w: int, w': int, threshold: real)
    requires 0 < w <= w'
    ensures CellCount(pairs, true, true, w, threshold) <= CellCount(pairs, true, true, w', threshold)
    ensures CellCount(pairs, false, true, w, threshold) <= CellCount(pairs, false, true, w', threshold)
    ensures Recall(pairs, w, threshold) <= Recall(pairs, w', threshold)
  {
    forall p | p in pairs && Predicted(p, w, threshold) ensures Predicted(p, w', threshold) {
      WideningKeepsMatches(p.span, p.signal, w, w');
    }
    PredictionsShrink(pairs, w', threshold, w, threshold, true);
    PredictionsShrink(pairs, w', threshold, w, threshold, false);
    RecallShrinks(pairs, w', threshold, w, threshold);
  }

  lemma ShareRange(a: nat, b: nat)
    ensures 0.0 <= SafeDiv(a, a + b) <= 1.0
  {
  }

  lemma HarmonicBetween(p: real, r: real)
    requires 0.0 <= p <= r && p + r > 0.0
    ensures p <= HarmonicMean(p, r) <= r
    ensures HarmonicMean(r, p) == HarmonicMean(p, r)
  {
    var s := p + r;
    var q := (p * r) / s;
    assert q * s == p * r;
    TwiceAtLeast(q, s, p, r);
    assert r * p == p * r;
  }

  lemma TwiceAtLeast(q: real, s: real, p: real, r: real)
    requires 0.0 <= p <= r && s == p + r > 0.0 && q * s == p * r
    ensures p <= 2.0 * q <= r
  {
    assert (2.0 * q - p) * s == p * (r - p);
    assert (r - 2.0 * q) * s == r * (r - p);
    ProductPositive(p, r - p);
    ProductPositive(r, r - p);
    SignOfFactor(2.0 * q - p, s);
    SignOfFactor(r - 2.0 * q, s);
  }

  /** Whenever precision or recall is positive, F1 lies between them. */
  lemma F1BetweenPrecisionAndRecall(pairs: seq<LabeledPair>, window: int, threshold: real)
    requires Precision(pairs, window, threshold) + Recall(pairs, window, threshold) > 0.0
    ensures var p, r := Precision(pairs, window, threshold), Recall(pairs, window, threshold);
            var f1 := HarmonicMean(p, r);
            (p <= f1 <= r || r <= f1 <= p) && 0.0 <= f1 <= 1.0
  {
    var p, r := Precision(pairs, window, threshold), Recall(pairs, window, threshold);
    ShareRange(CellCount(pairs, true, true, window, threshold), CellCount(pairs, false, true, window, threshold));
    ShareRange(CellCount(pairs, true, true, window, threshold), CellCount(pairs, true, false, window, threshold));
    if p <= r {
      HarmonicBetween(p, r);
    } else {
      HarmonicBetween(r, p);
    }
  }

  /** The rates in terms of the cells: precision and recall are shares, and F1 is `2tp / (2tp + fp + fn)`. */
  predicate RatesOf(precision: real, recall: real, f1: real, tp: nat, fp: nat, fn: nat) {
    && precision * (tp + fp) as real == tp as real
    && recall * (tp + fn) as real == tp as real
    && f1 * (2 * tp + fp + fn) as real == 2.0 * tp as real
    && (tp == 0 ==> precision == recall == f1 == 0.0)
  }

  lemma RatesFromCounts(pairs: seq<LabeledPair>, window: int, threshold: real)
    ensures var p, r := Precision(pairs, window, threshold), Recall(pairs, window, threshold);
            RatesOf(p, r, HarmonicMean(p, r), CellCount(pairs, true, true, window, threshold),
                    CellCount(pairs, false, true, window, threshold), CellCount(pairs, true, false, window, threshold))
  {
    RatesFromCells(CellCount(pairs, true, true, window, threshold), CellCount(pairs, false, true, window, threshold),
                   CellCount(pairs, true, false, window, threshold));
  }

  lemma RatesFromCells(tp: nat, fp: nat, fn: nat)
    ensures var p, r := SafeDiv(tp, tp + fp), SafeDiv(tp, tp + fn); RatesOf(p, r, HarmonicMean(p, r), tp, fp, fn)
  {
    var p, r := SafeDiv(tp, tp + fp), SafeDiv(tp, tp + fn);
    ShareTimesWhole(tp, tp + fp);
    ShareTimesWhole(tp, tp + fn);
    if tp > 0 {
      HarmonicOfShares(p, r, tp as real, fp as real, fn as real);
    } else {
      NoHits(fp);
      NoHits(fn);
    }
  }

  lemma ShareTimesWhole(a: nat, d: nat)
    requires d == 0 ==> a == 0
    ensures SafeDiv(a, d) * d as real == a as real
  {
  }

  lemma NoHits(d: nat)
    ensures SafeDiv(0, d) == 0.0
  {
  }

  lemma HarmonicOfShares(p: real, r: real, tp: real, fp: real, fn: real)
    requires tp > 0.0 && fp >= 0.0 && fn >= 0.0
    requires p * (tp + fp) == tp && r * (tp + fn) == tp
    ensures HarmonicMean(p, r) * (2.0 * tp + fp + fn) == 2.0 * tp
  {
    var a, b := tp + fp, tp + fn;
    SignOfFactor(p, a);
    SignOfFactor(r, b);
    var h := (p * r) / (p + r);
    assert h * (p + r) == p * r;
    CrossMultiply(h, p, r, a, b, tp);
  }

  lemma CrossMultiply(h: real, p: real, r: real, a: real, b: real, tp: real)
    requires tp > 0.0 && h * (p + r) == p * r && p * a == tp && r * b == tp
    ensures h * (a + b) == tp
  {
    assert (h * (p + r)) * (a * b) == h * ((p * a) * b + (r * b) * a);
    assert (p * r) * (a * b) == (p * a) * (r * b);
    assert (h * (a + b)) * tp == tp * tp;
    Cancel(h * (a + b), tp, tp);
  }

  lemma Cancel(u: real, v: real, d: real)
    requires d > 0.0 && u * d == v * d
    ensures u == v
  {
    assert (u * d) / d == u && (v * d) / d == v;
  }

  /** The threshold is inclusive, and one that is not positive stands for 0.7. */
  lemma PredictionMeans(pair: LabeledPair, window: int, threshold: real)
    ensures Predicted(pair, window, threshold) <==>
              ConfidenceOf(MatchPair(pair.span, pair.signal, window)) >= (if threshold > 0.0 then threshold else 0.7)
  {
  }

  lemma {:induction false} SubsetIsAll<T>(s: seq<T>, p: T -> bool, q: T -> bool)
    requires forall i | 0 <= i < |s| :: p(s[i]) ==> q(s[i])
    ensures Count(s, p) <= Count(s, q)
    ensures Count(s, p) == Count(s, q) <==> forall i | 0 <= i < |s| :: q(s[i]) ==> p(s[i])
  {
    if |s| > 0 {
      SubsetIsAll(s[..|s|-1], p, q);
    }
  }

  /** A label that can be checked: an expected match that names a tier and was predicted. */
  predicate Checkable(p: LabeledPair, window: int, threshold: real) {
    p.expectedMatch && p.expectedTier != NoExpectation && Predicted(p, window, threshold)
  }

  /** The tier accuracy is a share, and it is whole exactly when every label that can be checked names the tier that
      matched. */
  lemma TierAccuracyMeans(pairs: seq<LabeledPair>, window: int, threshold: real)
    requires exists i :: 0 <= i < |pairs| && Checkable(pairs[i], window, threshold)
    ensures var accuracy := SafeDiv(Count(pairs, TierCorrect(window, threshold)),
                                    Count(pairs, TierComparable(window, threshold)));
            && 0.0 <= accuracy <= 1.0
            && (accuracy == 1.0 <==>
                  forall i | 0 <= i < |pairs| && Checkable(pairs[i], window, threshold) ::
                    pairs[i].expectedTier == Expect(MatchPair(pairs[i].span, pairs[i].signal, window).tier))
  {
    var correct, comparable := TierCorrect(window, threshold), TierComparable(window, threshold);
    var k :| 0 <= k < |pairs| && Checkable(pairs[k], window, threshold);
    CountPositive(pairs, k, comparable);
    SubsetIsAll(pairs, correct, comparable);
    WholeShare(Count(pairs, correct), Count(pairs, comparable));
    forall i | 0 <= i < |pairs| ensures comparable(pairs[i]) <==> Checkable(pairs[i], window, threshold) {
    }
  }

  lemma WholeShare(a: nat, d: nat)
    requires a <= d && d > 0
    ensures 0.0 <= SafeDiv(a, d) <= 1.0
    ensures SafeDiv(a, d) == 1.0 <==> a == d
  {
    ShareTimesWhole(a, d);
  }

  function PredictedIn(window: int, threshold: real): LabeledPair -> bool {
    (p: LabeledPair) => Predicted(p, window, threshold)
  }

  lemma {:induction false} PredictedSplit(pairs: seq<LabeledPair>, window: int, threshold: real)
    ensures CellCount(pairs, true, true, window, threshold) + CellCount(pairs, false, true, window, threshold)
            == Count(pairs, PredictedIn(window, threshold))
  {
    if |pairs| > 0 {
      PredictedSplit(pairs[..|pairs|-1], window, threshold);
    }
  }

  /** The mean confidence is the mean over the predicted pairs: it lies within any bounds on their confidences. */
  lemma MeanConfidenceBetween(pairs: seq<LabeledPair>, window: int, threshold: real, low: real, high: real)
    requires exists i :: 0 <= i < |pairs| && Predicted(pairs[i], window, threshold)
    requires forall i | 0 <= i < |pairs| && Predicted(pairs[i], window, threshold) ::
               low <= ConfidenceOf(MatchPair(pairs[i].span, pairs[i].signal, window)) <= high
    ensures low <= MeanConfidence(pairs, window, threshold) <= high
  {
    PredictedSplit(pairs, window, threshold);
    var k :| 0 <= k < |pairs| && Predicted(pairs[k], window, threshold);
    MeanOverSelected(pairs, PredictedConfidence(window, threshold), PredictedIn(window, threshold), low, high, k);
  }

  lemma MeanOverSelected<T>(s: seq<T>, f: T -> real, p: T -> bool, low: real, high: real, k: nat)
    requires k < |s| && p(s[k])
    requires forall i | 0 <= i < |s| :: if p(s[i]) then low <= f(s[i]) <= high else f(s[i]) == 0.0
    ensures low <= Average(Sum(s, f), Count(s, p)) <= high
  {
    CountPositive(s, k, p);
    MeanOf(Sum(s, f), Count(s, p), low, high) by {
      SumOverSelected(s, f, p, low, high);
    }
  }

  lemma MeanOf(sum: real, n: nat, low: real, high: real)
    requires n > 0 && Multiple(n, low) <= sum <= Multiple(n, high)
    ensures low <= Average(sum, n) <= high
  {
    QuotientBetween(sum, n as real, low, high);
  }

  lemma QuotientBetween(sum: real, n: real, low: real, high: real)
    requires n > 0.0 && n * low <= sum <= n * high
    ensures low <= sum / n <= high
  {
    assert (sum / n) * n == sum;
    assert (sum / n - low) * n >= 0.0 && (high - sum / n) * n >= 0.0;
  }

  /** So it is at least the threshold and at most one. */
  lemma MeanConfidenceRange(pairs: seq<LabeledPair>, window: int, threshold: real)
    requires CellCount(pairs, true, true, window, threshold) + CellCount(pairs, false, true, window, threshold) > 0
    ensures EffectiveThreshold(threshold) <= MeanConfidence(pairs, window, threshold) <= 1.0
  {
    PredictedSplit(pairs, window, threshold);
    var k := CountWitness(pairs, PredictedIn(window, threshold));
    MeanConfidenceBetween(pairs, window, threshold, EffectiveThreshold(threshold), 1.0);
  }
}
