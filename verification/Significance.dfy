/** The regression verdict of the release gate: quantile change, p-value, bootstrap interval and effect size
    combined, scenario by scenario, over one shared random source. */
module Significance {
  import opened Sums
  import opened Ordering
  import opened PairCounts
  import opened MannWhitney
  import opened Quantiles
  import opened Bootstrap

  /** The gate's settings after defaulting. */
  datatype Settings = Settings(
    regressionPctLimit: real,
    alpha: real,
    iterations: int,
    minSamples: int,
    minCliffsDelta: real)
  {
    ghost predicate Valid() {
      regressionPctLimit > 0.0 && 0.0 < alpha < 1.0 && iterations > 0 && minSamples > 0 && minCliffsDelta > 0.0
    }
  }

  /** Why a scenario did not pass cleanly. `BelowPracticalThreshold` is reported but passes. */
  datatype Reason = NoFinding | InsufficientSamples | BelowPracticalThreshold | Regression

  datatype Verdict = Verdict(
    candidateP95: real,
    baselineP95: real,
    regressionPct: real,
    pValue: real,
    ci: Interval,
    cliffsDelta: real,
    practicalEffect: bool,
    minSamplesReached: bool,
    pass: bool,
    reason: Reason)

  datatype Scenario = Scenario(candidate: seq<real>, baseline: seq<real>)

  function RegressionPct(candidateP95: real, baselineP95: real): real {
    if baselineP95 > 0.0 then ((candidateP95 - baselineP95) / baselineP95) * 100.0 else 0.0
  }

  predicate EnoughSamples(s: Scenario, cfg: Settings) {
    |s.candidate| >= cfg.minSamples && |s.baseline| >= cfg.minSamples
  }

  /** The three statistical conditions of a regression. */
  predicate IsRegression(regressionPct: real, pValue: real, ciLow: real, cfg: Settings) {
    regressionPct > cfg.regressionPctLimit && pValue < cfg.alpha && ciLow > 0.0
  }

  function Conclude(p95c: real, p95b: real, p: real, ci: Interval, cliffs: real, cfg: Settings): Verdict {
    var pct := RegressionPct(p95c, p95b);
    var practical := Abs(cliffs) >= cfg.minCliffsDelta;
    var regression := IsRegression(pct, p, ci.low, cfg);
    Verdict(p95c, p95b, pct, p, ci, cliffs, practical, true, !(regression && practical),
            if !regression then NoFinding else if practical then Regression else BelowPracticalThreshold)
  }

  /** The verdict on one scenario, with the draws starting at `pos`. */
  function Assess(s: Scenario, cfg: Settings, lib: StatLib, raw: nat -> nat, pos: nat): Verdict
    requires lib.Valid()
  {
    var p95c, p95b := Quantile(s.candidate, 0.95), Quantile(s.baseline, 0.95);
    if !EnoughSamples(s, cfg) then
      Verdict(p95c, p95b, RegressionPct(p95c, p95b), 1.0, Interval(0.0, 0.0), 0.0, false, false, false,
              InsufficientSamples)
    else
      Conclude(p95c, p95b, PValue(s.candidate, s.baseline, lib),
               DeltaCI(s.candidate, s.baseline, 0.95, raw, pos, cfg.iterations),
               Delta(s.candidate, s.baseline), cfg)
  }

  /** Where the draws stand after a scenario: a scenario short of samples draws nothing. */
  function PosAfter(s: Scenario, cfg: Settings, pos: nat): nat {
    if EnoughSamples(s, cfg) then DrawsUsed(s.candidate, s.baseline, cfg.iterations, pos) else pos
  }

  datatype Report = Report(pass: bool, verdicts: seq<Verdict>)

  datatype Outcome = EmptyDistribution(scenario: nat) | Evaluated(report: Report)

  method AssessScenario(s: Scenario, cfg: Settings, lib: StatLib, rng: Rng) returns (v: Verdict)
    requires lib.Valid()
    modifies rng
    ensures v == Assess(s, cfg, lib, rng.raw, old(rng.pos))
    ensures rng.pos == PosAfter(s, cfg, old(rng.pos))
  {
    var p95c := ComputeQuantile(s.candidate, 0.95);
    var p95b := ComputeQuantile(s.baseline, 0.95);
    if !EnoughSamples(s, cfg) {
      return Verdict(p95c, p95b, RegressionPct(p95c, p95b), 1.0, Interval(0.0, 0.0), 0.0, false, false, false,
                     InsufficientSamples);
    }
    var p := MannWhitneyPValue(s.candidate, s.baseline, lib);
    var low, high := BootstrapDeltaCI(s.candidate, s.baseline, 0.95, cfg.iterations, rng);
    var cliffs := CliffsDelta(s.candidate, s.baseline);
    v := Conclude(p95c, p95b, p, Interval(low, high), cliffs, cfg);
  }

  /** Where the draws stand after the first `n` scenarios. */
  function PosBefore(scenarios: seq<Scenario>, cfg: Settings, pos: nat, n: nat): nat
    requires n <= |scenarios|
  {
    if n == 0 then pos else PosAfter(scenarios[n-1], cfg, PosBefore(scenarios, cfg, pos, n - 1))
  }

  /** The verdicts on the first `n` scenarios, each seeing the random stream where the ones before left it. */
  function AssessAll(scenarios: seq<Scenario>, cfg: Settings, assess: (Scenario, nat) -> Verdict, pos: nat, n: nat)
    : (r: seq<Verdict>)
    requires n <= |scenarios|
    ensures |r| == n
  {
    if n == 0 then []
    else
      AssessAll(scenarios, cfg, assess, pos, n - 1)
      + [assess(scenarios[n-1], PosBefore(scenarios, cfg, pos, n - 1))]
  }

  /** The assessment as a function of the scenario and of where its draws start. */
  function Assessor(cfg: Settings, lib: StatLib, raw: nat -> nat): (Scenario, nat) -> Verdict
    requires lib.Valid()
  {
    (s: Scenario, pos: nat) => Assess(s, cfg, lib, raw, pos)
  }

  ghost predicate Assesses(assess: (Scenario, nat) -> Verdict, cfg: Settings, lib: StatLib, raw: nat -> nat)
    requires lib.Valid()
  {
    forall s, pos {:trigger Assess(s, cfg, lib, raw, pos)} :: Assess(s, cfg, lib, raw, pos) == assess(s, pos)
  }

  method AssessNext(s: Scenario, cfg: Settings, lib: StatLib, rng: Rng, ghost assess: (Scenario, nat) -> Verdict)
    returns (v: Verdict)
    requires lib.Valid() && Assesses(assess, cfg, lib, rng.raw)
    modifies rng
    ensures rng.pos == PosAfter(s, cfg, old(rng.pos))
    ensures v == assess(s, old(rng.pos))
  {
    v := AssessScenario(s, cfg, lib, rng);
  }

  predicate AllPass(verdicts: seq<Verdict>) {
    forall i | 0 <= i < |verdicts| :: verdicts[i].pass
  }

  lemma AllPassStep(verdicts: seq<Verdict>, v: Verdict)
    ensures AllPass(verdicts + [v]) <==> AllPass(verdicts) && v.pass
  {
    var all := verdicts + [v];
    assert forall i | 0 <= i < |verdicts| :: all[i] == verdicts[i];
    assert all[|verdicts|] == v;
  }

  predicate HasSamples(s: Scenario) { s.candidate != [] && s.baseline != [] }

  /** The scenario loop, for whatever function the single assessment computes. */
  method AssessEach(scenarios: seq<Scenario>, cfg: Settings, lib: StatLib, rng: Rng,
                    ghost assess: (Scenario, nat) -> Verdict)
    returns (r: Outcome)
    requires lib.Valid() && Assesses(assess, cfg, lib, rng.raw)
    modifies rng
    ensures r.EmptyDistribution? ==>
              && r.scenario < |scenarios| && !HasSamples(scenarios[r.scenario])
              && (forall i | 0 <= i < r.scenario :: HasSamples(scenarios[i]))
    ensures r.Evaluated? ==>
              && (forall i | 0 <= i < |scenarios| :: HasSamples(scenarios[i]))
              && r.report.verdicts == AssessAll(scenarios, cfg, assess, old(rng.pos), |scenarios|)
              && (r.report.pass <==> AllPass(r.report.verdicts))
  {
    var pass := true;
    var verdicts: seq<Verdict> := [];
    for i := 0 to |scenarios|
      invariant rng.pos == PosBefore(scenarios, cfg, old(rng.pos), i)
      invariant forall k | 0 <= k < i :: HasSamples(scenarios[k])
      invariant verdicts == AssessAll(scenarios, cfg, assess, old(rng.pos), i)
      invariant pass <==> AllPass(verdicts)
    {
      if |scenarios[i].candidate| == 0 || |scenarios[i].baseline| == 0 {
        return EmptyDistribution(i);
      }
      var v := AssessNext(scenarios[i], cfg, lib, rng, assess);
      AllPassStep(verdicts, v);
      if !v.pass {
        pass := false;
      }
      verdicts := verdicts + [v];
    }
    r := Evaluated(Report(pass, verdicts));
  }

  /** The gate passes exactly when every scenario does; an empty distribution is an error, reported for the first
      scenario that has one. */
  method EvaluateSignificance(scenarios: seq<Scenario>, cfg: Settings, lib: StatLib, rng: Rng) returns (r: Outcome)
    requires lib.Valid()
    modifies rng
    ensures r.EmptyDistribution? ==>
              && r.scenario < |scenarios| && !HasSamples(scenarios[r.scenario])
              && (forall i | 0 <= i < r.scenario :: HasSamples(scenarios[i]))
    ensures r.Evaluated? ==>
              && (forall i | 0 <= i < |scenarios| :: HasSamples(scenarios[i]))
              && r.report.verdicts ==
                   AssessAll(scenarios, cfg, Assessor(cfg, lib, rng.raw), old(rng.pos), |scenarios|)
              && (r.report.pass <==> AllPass(r.report.verdicts))
  {
    r := AssessEach(scenarios, cfg, lib, rng, Assessor(cfg, lib, rng.raw));
  }

  // ---- What a verdict means ----

  lemma SlowerIsHigher(c: real, b: real, limit: real)
    requires limit > 0.0
    ensures SlowerBy(c, b, limit) ==> c > b > 0.0
  {
    if b > 0.0 {
      ScaledOrder(limit, 0.0, b);
    }
  }

  lemma PercentSign(p95c: real, p95b: real)
    ensures RegressionPct(p95c, p95b) > 0.0 <==> p95c > p95b > 0.0
  {
    if p95b > 0.0 {
      QuotientSign(p95c - p95b, p95b);
    }
  }

  /** `c` exceeds a positive `b` by more than `limit` percent of `b`. */
  predicate SlowerBy(c: real, b: real, limit: real) { b > 0.0 && 100.0 * (c - b) > limit * b }

  /** The change is in percent of the baseline. */
  lemma PercentOfBaseline(c: real, b: real, limit: real)
    requires limit > 0.0
    ensures b > 0.0 ==> RegressionPct(c, b) * b == 100.0 * (c - b)
    ensures RegressionPct(c, b) > limit <==> b > 0.0 && 100.0 * (c - b) > limit * b
  {
    if b > 0.0 {
      QuotientTimes(c - b, b, 100.0);
      ScaledOrder(RegressionPct(c, b), limit, b);
    }
  }

  lemma QuotientTimes(a: real, d: real, f: real)
    requires d > 0.0
    ensures ((a / d) * f) * d == f * a
  {
    assert (a / d) * d == a;
    assert ((a / d) * f) * d == f * ((a / d) * d);
  }

  lemma ScaledOrder(u: real, v: real, d: real)
    requires d > 0.0
    ensures u > v <==> u * d > v * d
  {
    QuotientSign((u - v) * d, d);
    assert ((u - v) * d) / d == u - v;
  }

  lemma QuotientSign(a: real, d: real)
    requires d > 0.0
    ensures a / d > 0.0 <==> a > 0.0
  {
    assert (a / d) * d == a;
  }

  /** The candidate is slower by more than the limit, with a small p-value and an interval above zero. */
  ghost predicate Significant(s: Scenario, cfg: Settings, lib: StatLib, raw: nat -> nat, pos: nat)
    requires lib.Valid()
  {
    && SlowerBy(Quantile(s.candidate, 0.95), Quantile(s.baseline, 0.95), cfg.regressionPctLimit)
    && PValue(s.candidate, s.baseline, lib) < cfg.alpha
    && DeltaCI(s.candidate, s.baseline, 0.95, raw, pos, cfg.iterations).low > 0.0
  }

  lemma ConclusionMeans(c: real, b: real, p: real, ci: Interval, delta: real, cfg: Settings)
    requires cfg.Valid()
    ensures var v := Conclude(c, b, p, ci, delta, cfg);
            var significant := SlowerBy(c, b, cfg.regressionPctLimit) && p < cfg.alpha && ci.low > 0.0;
            && v.reason == (if !significant then NoFinding
                            else if Abs(delta) >= cfg.minCliffsDelta then Regression
                            else BelowPracticalThreshold)
            && (v.pass <==> v.reason != Regression)
  {
    PercentOfBaseline(c, b, cfg.regressionPctLimit);
  }

  /** The verdict and its reason, in terms of the samples, for any settings and draws. */
  lemma VerdictMeans(s: Scenario, cfg: Settings, lib: StatLib, raw: nat -> nat, pos: nat)
    requires lib.Valid() && cfg.Valid()
    ensures var v := Assess(s, cfg, lib, raw, pos);
            var short := |s.candidate| < cfg.minSamples || |s.baseline| < cfg.minSamples;
            var effect := Abs(Delta(s.candidate, s.baseline));
            && (v.reason == InsufficientSamples <==> short)
            && (v.reason == Regression <==>
                  !short && Significant(s, cfg, lib, raw, pos) && effect >= cfg.minCliffsDelta)
            && (v.reason == BelowPracticalThreshold <==>
                  !short && Significant(s, cfg, lib, raw, pos) && effect < cfg.minCliffsDelta)
            && (v.pass <==> v.reason == NoFinding || v.reason == BelowPracticalThreshold)
            && (v.minSamplesReached <==> !short)
  {
    ConclusionMeans(Quantile(s.candidate, 0.95), Quantile(s.baseline, 0.95), PValue(s.candidate, s.baseline, lib),
                    DeltaCI(s.candidate, s.baseline, 0.95, raw, pos, cfg.iterations),
                    Delta(s.candidate, s.baseline), cfg);
  }

  lemma FailureConditions(s: Scenario, cfg: Settings, lib: StatLib, raw: nat -> nat, pos: nat)
    requires lib.Valid() && cfg.Valid() && EnoughSamples(s, cfg)
    ensures !Assess(s, cfg, lib, raw, pos).pass <==>
              && SlowerBy(Quantile(s.candidate, 0.95), Quantile(s.baseline, 0.95), cfg.regressionPctLimit)
              && PValue(s.candidate, s.baseline, lib) < cfg.alpha
              && DeltaCI(s.candidate, s.baseline, 0.95, raw, pos, cfg.iterations).low > 0.0
              && Abs(Delta(s.candidate, s.baseline)) >= cfg.minCliffsDelta
  {
    VerdictMeans(s, cfg, lib, raw, pos);
  }

  /** A scenario with enough samples fails only on evidence from every test: the candidate's P95 is higher, its
      samples are not all tied, at least ten rounds were drawn, some candidate value exceeds some baseline value,
      and wins and losses do not balance. */
  lemma FlaggedMeans(s: Scenario, cfg: Settings, lib: StatLib, raw: nat -> nat, pos: nat)
    requires lib.Valid() && cfg.Valid() && EnoughSamples(s, cfg)
    ensures !Assess(s, cfg, lib, raw, pos).pass ==>
              && Quantile(s.candidate, 0.95) > Quantile(s.baseline, 0.95) > 0.0
              && cfg.iterations >= 10 && !AllTied(s.candidate + s.baseline)
              && !NowhereAbove(s.candidate, s.baseline)
              && Delta(s.candidate, s.baseline) != 0.0
  {
    FailureConditions(s, cfg, lib, raw, pos);
    SlowerIsHigher(Quantile(s.candidate, 0.95), Quantile(s.baseline, 0.95), cfg.regressionPctLimit);
    IntervalSign(s.candidate, s.baseline, 0.95, raw, pos, cfg.iterations);
    PValueRange(s.candidate, s.baseline, lib);
  }

  /** A candidate that nowhere exceeds the baseline is never flagged, whatever is drawn. */
  lemma DominatedPasses(s: Scenario, cfg: Settings, lib: StatLib, raw: nat -> nat, pos: nat)
    requires lib.Valid() && cfg.Valid() && EnoughSamples(s, cfg)
    requires NowhereAbove(s.candidate, s.baseline)
    ensures Assess(s, cfg, lib, raw, pos).pass && Assess(s, cfg, lib, raw, pos).reason == NoFinding
  {
    IntervalSign(s.candidate, s.baseline, 0.95, raw, pos, cfg.iterations);
  }

  /** A candidate with the baseline's own values, in any order, is never flagged. */
  lemma SameSamplePasses(s: Scenario, cfg: Settings, lib: StatLib, raw: nat -> nat, pos: nat)
    requires lib.Valid() && cfg.Valid() && EnoughSamples(s, cfg)
    requires multiset(s.candidate) == multiset(s.baseline)
    ensures Assess(s, cfg, lib, raw, pos).pass && Assess(s, cfg, lib, raw, pos).reason == NoFinding
  {
    QuantileOrderFree(s.candidate, s.baseline, 0.95);
    PercentSign(Quantile(s.candidate, 0.95), Quantile(s.baseline, 0.95));
  }

  lemma {:induction false} AllRowsGreater(x: seq<real>, y: seq<real>)
    requires Above(x, y)
    ensures PairTotal(x, y, Greater) == |x| * |y| && PairTotal(x, y, Lower) == 0
  {
    if |x| > 0 {
      var init := x[..|x|-1];
      forall c, b | c in init && b in y ensures c > b {
        assert c in x;
      }
      AllRowsGreater(init, y);
      forall i | 0 <= i < |y| ensures x[|x|-1] > y[i] {
        assert x[|x|-1] in x && y[i] in y;
      }
      CountAll(y, Related(Greater, x[|x|-1]));
      CountNone(y, Related(Lower, x[|x|-1]));
      assert |x| * |y| == (|x| - 1) * |y| + |y|;
    }
  }

  lemma AboveHasDeltaOne(x: seq<real>, y: seq<real>)
    requires |x| > 0 && |y| > 0 && Above(x, y)
    ensures Delta(x, y) == 1.0
  {
    PairsAreTotals(x, y, Greater);
    PairsAreTotals(x, y, Lower);
    AllRowsGreater(x, y);
    assert |x| * |y| > 0;
    WholeShare((|x| * |y|) as real);
  }

  lemma WholeShare(d: real)
    requires d > 0.0
    ensures (d - 0.0) / d == 1.0
  {
  }

  /** When every candidate value exceeds every baseline value, the effect size and the interval are out of the
      way for any draws: only the size of the P95 change and the p-value decide. */
  lemma SeparatedVerdict(s: Scenario, cfg: Settings, lib: StatLib, raw: nat -> nat, pos: nat)
    requires lib.Valid() && cfg.Valid() && EnoughSamples(s, cfg)
    requires Above(s.candidate, s.baseline) && cfg.minCliffsDelta <= 1.0 && cfg.iterations >= 10
    ensures var v := Assess(s, cfg, lib, raw, pos);
            !v.pass <==>
              && SlowerBy(Quantile(s.candidate, 0.95), Quantile(s.baseline, 0.95), cfg.regressionPctLimit)
              && PValue(s.candidate, s.baseline, lib) < cfg.alpha
  {
    FailureConditions(s, cfg, lib, raw, pos);
    AboveHasDeltaOne(s.candidate, s.baseline);
    IntervalSign(s.candidate, s.baseline, 0.95, raw, pos, cfg.iterations);
  }

  // ---- Which scenarios some draws flag ----

  lemma InOrderVerdict(s: Scenario, cfg: Settings, lib: StatLib, pos: nat)
    requires lib.Valid() && cfg.Valid() && EnoughSamples(s, cfg) && cfg.iterations >= 10
    ensures var v := Assess(s, cfg, lib, InOrder(|s.candidate|, |s.baseline|, pos), pos);
            !v.pass <==> Suspicious(s, cfg, lib)
  {
    var raw := InOrder(|s.candidate|, |s.baseline|, pos);
    InOrderInterval(s.candidate, s.baseline, 0.95, pos, cfg.iterations);
    FailureConditions(s, cfg, lib, raw, pos);
    SlowerIsHigher(Quantile(s.candidate, 0.95), Quantile(s.baseline, 0.95), cfg.regressionPctLimit);
  }

  /** The limits that do not depend on draws are all exceeded. */
  ghost predicate Suspicious(s: Scenario, cfg: Settings, lib: StatLib)
    requires lib.Valid()
  {
    && SlowerBy(Quantile(s.candidate, 0.95), Quantile(s.baseline, 0.95), cfg.regressionPctLimit)
    && PValue(s.candidate, s.baseline, lib) < cfg.alpha
    && Abs(Delta(s.candidate, s.baseline)) >= cfg.minCliffsDelta
  }

  ghost predicate Fails(s: Scenario, cfg: Settings, lib: StatLib, raw: nat -> nat, pos: nat)
    requires lib.Valid()
  {
    !Assess(s, cfg, lib, raw, pos).pass
  }

  lemma FailsOnlyIfSuspicious(s: Scenario, cfg: Settings, lib: StatLib, raw: nat -> nat, pos: nat)
    requires lib.Valid() && cfg.Valid() && EnoughSamples(s, cfg)
    ensures Fails(s, cfg, lib, raw, pos) ==> cfg.iterations >= 10 && Suspicious(s, cfg, lib)
  {
    FailureConditions(s, cfg, lib, raw, pos);
  }

  /** Some draws flag a scenario exactly when at least ten rounds are drawn and every other limit is exceeded: the
      interval alone never protects a candidate against every seed. */
  lemma SomeDrawsFlag(s: Scenario, cfg: Settings, lib: StatLib, pos: nat)
    requires lib.Valid() && cfg.Valid() && EnoughSamples(s, cfg)
    ensures (exists raw :: Fails(s, cfg, lib, raw, pos)) <==> cfg.iterations >= 10 && Suspicious(s, cfg, lib)
  {
    if raw :| Fails(s, cfg, lib, raw, pos) {
      FailsOnlyIfSuspicious(s, cfg, lib, raw, pos);
    }
    if cfg.iterations >= 10 && Suspicious(s, cfg, lib) {
      InOrderVerdict(s, cfg, lib, pos);
      assert Fails(s, cfg, lib, InOrder(|s.candidate|, |s.baseline|, pos), pos);
    }
  }

  // ---- The effect size is two-sided ----

  /** The effect size enters by its absolute value, so a failure does not mean that the candidate tends to be slower:
      a candidate that loses more comparisons than it wins is flagged by some draws exactly when its delta is below the
      negated limit and the other limits are exceeded. */
  lemma FlaggedWithNegativeDelta(s: Scenario, cfg: Settings, lib: StatLib, pos: nat)
    requires lib.Valid() && cfg.Valid() && EnoughSamples(s, cfg)
    ensures (exists raw :: Fails(s, cfg, lib, raw, pos) && Delta(s.candidate, s.baseline) < 0.0) <==>
              && cfg.iterations >= 10
              && SlowerBy(Quantile(s.candidate, 0.95), Quantile(s.baseline, 0.95), cfg.regressionPctLimit)
              && PValue(s.candidate, s.baseline, lib) < cfg.alpha
              && Delta(s.candidate, s.baseline) <= -cfg.minCliffsDelta
  {
    SomeDrawsFlag(s, cfg, lib, pos);
  }

  lemma LossesUntie(x: seq<real>, y: seq<real>)
    requires Pairs(x, y, Lower) > 0
    ensures !AllTied(x + y)
  {
    var p :| p in PairsBefore(x, y, Lower, |x|, 0);
    assert (x + y)[p.0] == x[p.0] && (x + y)[|x| + p.1] == y[p.1];
  }

  lemma MoreLosses(x: seq<real>, y: seq<real>)
    requires |x| > 0 && |y| > 0
    ensures Delta(x, y) < 0.0 <==> Pairs(x, y, Lower) > Pairs(x, y, Greater)
    ensures Delta(x, y) < 0.0 ==>
              (Deviation(x, y) == 0.5 <==> Pairs(x, y, Lower) == Pairs(x, y, Greater) + 1)
  {
    PairsAvailable(x, y);
    QuotientSign(Pairs(x, y, Lower) as real - Pairs(x, y, Greater) as real, (|x| * |y|) as real);
    NegatedQuotient(Pairs(x, y, Greater) as real - Pairs(x, y, Lower) as real, (|x| * |y|) as real);
  }

  lemma BelowSomeLevel(x: seq<real>, y: seq<real>, lib: StatLib)
    requires lib.Valid() && |x| > 0 && |y| > 0 && Delta(x, y) < 0.0
    ensures PValue(x, y, lib) < 1.0 <==> Pairs(x, y, Lower) >= Pairs(x, y, Greater) + 2
  {
    MoreLosses(x, y);
    LossesUntie(x, y);
    PValueRange(x, y, lib);
  }

  ghost predicate FailsUnder(s: Scenario, cfg: Settings, lib: StatLib, pos: nat)
    requires lib.Valid()
  {
    cfg.Valid() && EnoughSamples(s, cfg) && exists raw :: Fails(s, cfg, lib, raw, pos)
  }

  /** Settings whose limits the given change, p-value and delta just exceed. */
  function Lenient(pct: real, p: real, delta: real): Settings {
    Settings(pct / 2.0, (1.0 + p) / 2.0, 10, 1, Abs(delta))
  }

  /** In terms of the samples alone: some settings and draws flag a candidate that loses more comparisons than it
      wins exactly when its P95 lies above a positive baseline P95 and it loses at least two comparisons more than it
      wins. */
  lemma NegativeDeltaCanFail(x: seq<real>, y: seq<real>, lib: StatLib, pos: nat)
    requires lib.Valid()
    ensures (exists cfg :: FailsUnder(Scenario(x, y), cfg, lib, pos)) && Delta(x, y) < 0.0 <==>
              && Quantile(x, 0.95) > Quantile(y, 0.95) > 0.0
              && Pairs(x, y, Lower) >= Pairs(x, y, Greater) + 2
  {
    if |x| > 0 && |y| > 0 {
      MoreLosses(x, y);
    }
    if Delta(x, y) < 0.0 {
      BelowSomeLevel(x, y, lib);
      if cfg :| FailsUnder(Scenario(x, y), cfg, lib, pos) {
        SomeDrawsFlag(Scenario(x, y), cfg, lib, pos);
        SlowerIsHigher(Quantile(x, 0.95), Quantile(y, 0.95), cfg.regressionPctLimit);
        assert PValue(x, y, lib) < 1.0;
      }
      if Quantile(x, 0.95) > Quantile(y, 0.95) > 0.0 && PValue(x, y, lib) < 1.0 {
        LenientFails(x, y, lib, pos);
      }
    }
  }

  lemma HalfTheChange(c: real, b: real)
    requires c > b > 0.0
    ensures RegressionPct(c, b) > 0.0 && SlowerBy(c, b, RegressionPct(c, b) / 2.0)
  {
    PercentSign(c, b);
    PercentOfBaseline(c, b, RegressionPct(c, b) / 2.0);
  }

  lemma LenientFails(x: seq<real>, y: seq<real>, lib: StatLib, pos: nat)
    requires lib.Valid() && |x| > 0 && |y| > 0
    ensures Delta(x, y) != 0.0 && PValue(x, y, lib) < 1.0 && Quantile(x, 0.95) > Quantile(y, 0.95) > 0.0 ==>
              exists cfg :: FailsUnder(Scenario(x, y), cfg, lib, pos)
  {
    if Delta(x, y) != 0.0 && PValue(x, y, lib) < 1.0 && Quantile(x, 0.95) > Quantile(y, 0.95) > 0.0 {
      var pct := RegressionPct(Quantile(x, 0.95), Quantile(y, 0.95));
      var cfg := Lenient(pct, PValue(x, y, lib), Delta(x, y));
      HalfTheChange(Quantile(x, 0.95), Quantile(y, 0.95));
      PValueRange(x, y, lib);
      SomeDrawsFlag(Scenario(x, y), cfg, lib, pos);
      assert FailsUnder(Scenario(x, y), cfg, lib, pos);
    }
  }

  /** One such pair of samples: two comparisons out of three are lost, and the tail still fails. */
  lemma FlaggedDespiteNegativeDelta(x: seq<real>, y: seq<real>, lib: StatLib, pos: nat)
    requires lib.Valid() && x == [0.0, 0.0, 30.0] && y == [10.0, 10.0, 10.0]
    ensures Delta(x, y) < 0.0 && exists cfg :: FailsUnder(Scenario(x, y), cfg, lib, pos)
  {
    TailQuantile(x, 0.0, 30.0);
    TailQuantile(y, 10.0, 10.0);
    ExampleCounts(x, y);
    NegativeDeltaCanFail(x, y, lib, pos);
  }

  lemma TailQuantile(values: seq<real>, a: real, b: real)
    requires |values| == 3 && values[0] <= values[1] == a <= values[2] == b
    ensures Quantile(values, 0.95) == 0.1 * a + 0.9 * b
  {
    AscendingUnique(Sorted(values), values);
    assert Position(3, 0.95) == 1.9;
  }

  lemma ExampleCounts(x: seq<real>, y: seq<real>)
    requires x == [0.0, 0.0, 30.0] && y == [10.0, 10.0, 10.0]
    ensures Pairs(x, y, Greater) == 3 && Pairs(x, y, Lower) == 6
  {
    CountAll(y, Related(Lower, 0.0));
    CountNone(y, Related(Greater, 0.0));
    CountAll(y, Related(Greater, 30.0));
    CountNone(y, Related(Lower, 30.0));
    ThreeRows(x, y, Greater);
    ThreeRows(x, y, Lower);
  }

  lemma ThreeRows(x: seq<real>, y: seq<real>, c: Cmp)
    requires |x| == 3
    ensures Pairs(x, y, c) ==
            Count(y, Related(c, x[0])) + Count(y, Related(c, x[1])) + Count(y, Related(c, x[2]))
  {
    PairsAreTotals(x, y, c);
    var two, one := x[..2], x[..1];
    assert two[..1] == one && one[..0] == [];
    assert PairTotal(one, y, c) == Count(y, Related(c, x[0]));
    assert PairTotal(two, y, c) == PairTotal(one, y, c) + Count(y, Related(c, x[1]));
  }
}
