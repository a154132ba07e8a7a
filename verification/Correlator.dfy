/** Span enrichment with bounded fanout, and its batch form. Attribute maps are shared references, as Go maps are;
    everything else is a value. */
module Correlator {
  import opened Sums
  import opened Ordering
  import opened Signals
  import opened Correlation

  /** Attribute names. Every supported signal has an attribute of its own. */
  datatype AttrKey = SignalAttr(signal: Signal) | CorrelationConfidence | RetrievalKernelMs | OtherAttr(name: string)

  type Attributes = map<AttrKey, real>

  class AttrMap {
    var m: Attributes

    constructor ()
      ensures m == map[]
    {
      m := map[];
    }
  }

  datatype Settings = Settings(windowMs: int, enrichmentThreshold: real, maxJoinFanout: int)

  datatype DebugStats = DebugStats(unmatched: nat, lowConfidence: nat, fanoutDropped: nat, unsupportedType: nat)

  /** A matched signal. `position` is its index in the input; the sort does not look at it. */
  datatype Candidate = Candidate(position: nat, signal: SignalRef, decision: Decision)

  datatype EnrichmentResult = EnrichmentResult(attributes: AttrMap, candidates: seq<Candidate>, debug: DebugStats)

  predicate Supported(s: Signal) { !s.OtherSignal? }

  function Window(cfg: Settings): int { cfg.windowMs * MILLISECOND }

  function Threshold(cfg: Settings): (t: real)
    ensures t > 0.0
  {
    if cfg.enrichmentThreshold <= 0.0 then DEFAULT_THRESHOLD else cfg.enrichmentThreshold
  }

  function Fanout(cfg: Settings): (n: nat)
    ensures n > 0
  {
    if cfg.maxJoinFanout <= 0 then 3 else cfg.maxJoinFanout
  }

  // ---- What is kept ----

  /** What becomes of one signal before ranking. */
  datatype Fate = UnsupportedType | Unmatched | LowConfidence | Eligible(decision: Decision)

  function FateOf(cfg: Settings, span: SpanRef, signal: SignalRef): Fate {
    if !Supported(signal.signal) then UnsupportedType
    else
      var d := MatchPair(span, signal, Window(cfg));
      if d.NoMatch? then Unmatched else if d.confidence < Threshold(cfg) then LowConfidence else Eligible(d)
  }

  /** The eligible signals in input order. */
  function EligibleOf(cfg: Settings, span: SpanRef, signals: seq<SignalRef>): seq<Candidate> {
    if |signals| == 0 then []
    else
      var n := |signals| - 1;
      var fate := FateOf(cfg, span, signals[n]);
      EligibleOf(cfg, span, signals[..n])
      + (if fate.Eligible? then [Candidate(n, signals[n], fate.decision)] else [])
  }

  function TimeGap(span: SpanRef, signal: SignalRef): nat {
    if span.timestamp.At? && signal.timestamp.At? then Distance(span.timestamp, signal.timestamp) else 0
  }

  /** The comparator: more confidence first, then less distance in time. */
  predicate BetterThan(span: SpanRef, a: Candidate, b: Candidate) {
    if ConfidenceOf(a.decision) != ConfidenceOf(b.decision)
    then ConfidenceOf(a.decision) > ConfidenceOf(b.decision)
    else TimeGap(span, a.signal) < TimeGap(span, b.signal)
  }

  function Better(span: SpanRef): (Candidate, Candidate) -> bool {
    (a: Candidate, b: Candidate) => BetterThan(span, a, b)
  }

  function PositionOf(): Candidate -> int { (c: Candidate) => c.position }

  lemma BetterIsAnOrder(span: SpanRef)
    ensures StrictWeakOrder(Better(span))
  {
    forall a, b {:trigger Better(span)(a, b)} ensures Better(span)(a, b) ==> !Better(span)(b, a) {
    }
    forall a, b, c {:trigger Better(span)(a, b), Better(span)(c, b)}
      ensures Better(span)(a, b) ==> Better(span)(a, c) || Better(span)(c, b)
    {
    }
  }

  function Ranked(cfg: Settings, span: SpanRef, signals: seq<SignalRef>): seq<Candidate> {
    StableSort(EligibleOf(cfg, span, signals), Better(span))
  }

  function Kept(cfg: Settings, span: SpanRef, signals: seq<SignalRef>): seq<Candidate> {
    var ranked := Ranked(cfg, span, signals);
    if |ranked| > Fanout(cfg) then ranked[..Fanout(cfg)] else ranked
  }

  ghost predicate InInputOrder(e: seq<Candidate>, n: nat) {
    && (forall i | 0 <= i < |e| :: PositionOf()(e[i]) < n)
    && (forall i, j | 0 <= i < j < |e| :: PositionOf()(e[i]) < PositionOf()(e[j]))
  }

  lemma {:induction false} EligiblePositions(cfg: Settings, span: SpanRef, signals: seq<SignalRef>)
    ensures InInputOrder(EligibleOf(cfg, span, signals), |signals|)
  {
    if |signals| > 0 {
      var n := |signals| - 1;
      var init, e := EligibleOf(cfg, span, signals[..n]), EligibleOf(cfg, span, signals);
      EligiblePositions(cfg, span, signals[..n]);
      forall i | 0 <= i < |e| ensures i < |init| ==> e[i] == init[i] && PositionOf()(e[i]) < n {
      }
    }
  }

  /** An eligible signal is one of the input, with the decision the matcher gave it. */
  lemma {:induction false} EligibleMeans(cfg: Settings, span: SpanRef, signals: seq<SignalRef>, k: nat)
    requires k < |EligibleOf(cfg, span, signals)|
    ensures var c := EligibleOf(cfg, span, signals)[k];
            && c.position < |signals| && c.signal == signals[c.position]
            && FateOf(cfg, span, c.signal) == Eligible(c.decision)
  {
    var n := |signals| - 1;
    if k < |EligibleOf(cfg, span, signals[..n])| {
      EligibleMeans(cfg, span, signals[..n], k);
    }
  }

  /** What the settings make of a signal, in figures: the window is in milliseconds, and a threshold or a fanout that is
      not positive stands for 0.7 or 3. */
  lemma FateMeans(cfg: Settings, span: SpanRef, signal: SignalRef)
    ensures var d := MatchPair(span, signal, cfg.windowMs * 1_000_000);
            var threshold := if cfg.enrichmentThreshold > 0.0 then cfg.enrichmentThreshold else 0.7;
            && (FateOf(cfg, span, signal).UnsupportedType? <==> signal.signal.OtherSignal?)
            && (FateOf(cfg, span, signal).Unmatched? <==> !signal.signal.OtherSignal? && d == NoMatch)
            && (FateOf(cfg, span, signal).LowConfidence? <==>
                  !signal.signal.OtherSignal? && d.Match? && d.confidence < threshold)
            && (FateOf(cfg, span, signal).Eligible? <==> !signal.signal.OtherSignal? && ConfidenceOf(d) >= threshold)
            && (FateOf(cfg, span, signal).Eligible? ==> FateOf(cfg, span, signal).decision == d)
  {
  }

  ghost predicate EligibleAt(cfg: Settings, span: SpanRef, signals: seq<SignalRef>, k: nat) {
    exists c | c in EligibleOf(cfg, span, signals) :: c.position == k
  }

  /** The candidates are exactly the eligible positions. */
  lemma {:induction false} EligibleExactly(cfg: Settings, span: SpanRef, signals: seq<SignalRef>, k: nat)
    requires k < |signals|
    ensures EligibleAt(cfg, span, signals, k) <==> FateOf(cfg, span, signals[k]).Eligible?
  {
    var n := |signals| - 1;
    var init := EligibleOf(cfg, span, signals[..n]);
    if k < n {
      EligibleExactly(cfg, span, signals[..n], k);
      assert forall c | c in init :: c in EligibleOf(cfg, span, signals);
    } else {
      EligiblePositions(cfg, span, signals[..n]);
      forall c | c in init ensures c.position < n {
        var i :| 0 <= i < |init| && init[i] == c;
        assert PositionOf()(init[i]) < n;
      }
      if FateOf(cfg, span, signals[n]).Eligible? {
        assert Candidate(n, signals[n], FateOf(cfg, span, signals[n]).decision) in EligibleOf(cfg, span, signals);
      }
    }
  }

  /** The ranking is the only sequence of the eligible signals in strict order of confidence, then distance in
      time, then input position. */
  lemma RankingIsUnique(cfg: Settings, span: SpanRef, signals: seq<SignalRef>, other: seq<Candidate>)
    requires multiset(other) == multiset(EligibleOf(cfg, span, signals))
    requires StrictlyBefore(other, Better(span), PositionOf())
    ensures StrictlyBefore(Ranked(cfg, span, signals), Better(span), PositionOf())
    ensures other == Ranked(cfg, span, signals)
  {
    RankingIsStrict(cfg, span, signals);
    StableOrderUnique(Ranked(cfg, span, signals), other, Better(span), PositionOf());
  }

  lemma RankingIsStrict(cfg: Settings, span: SpanRef, signals: seq<SignalRef>)
    ensures StrictlyBefore(Ranked(cfg, span, signals), Better(span), PositionOf())
    ensures StrictWeakOrder(Better(span))
  {
    BetterIsAnOrder(span);
    EligiblePositions(cfg, span, signals);
    StableSortIsStable(EligibleOf(cfg, span, signals), Better(span), PositionOf());
  }

  /** The fanout cut keeps `min(fanout, m)` of the `m` eligible signals, and everything kept ranks before everything
      dropped. */
  lemma KeptAreTheBest(cfg: Settings, span: SpanRef, signals: seq<SignalRef>)
    ensures var ranked, kept := Ranked(cfg, span, signals), Kept(cfg, span, signals);
            && multiset(ranked) == multiset(EligibleOf(cfg, span, signals))
            && kept == ranked[..|kept|]
            && |kept| == (if cfg.maxJoinFanout > 0 then Min(|ranked|, cfg.maxJoinFanout) else Min(|ranked|, 3))
            && (forall i, j | 0 <= i < |kept| <= j < |ranked| :: RanksBefore(span, kept[i], ranked[j]))
  {
    RankingIsStrict(cfg, span, signals);
    HeadBeatsRest(Ranked(cfg, span, signals), Kept(cfg, span, signals), Better(span));
    forall i, j | 0 <= i < |Kept(cfg, span, signals)| <= j < |Ranked(cfg, span, signals)|
      ensures RanksBefore(span, Kept(cfg, span, signals)[i], Ranked(cfg, span, signals)[j])
    {
      BeforeMeans(span, Kept(cfg, span, signals)[i], Ranked(cfg, span, signals)[j]);
    }
  }

  function Min(a: int, b: int): int { if a < b then a else b }

  /** More confidence first, then the shorter time from the span, then the earlier input position. */
  predicate RanksBefore(span: SpanRef, a: Candidate, b: Candidate) {
    var ca, cb := ConfidenceOf(a.decision), ConfidenceOf(b.decision);
    var ga, gb := Gap(span.timestamp, a.signal.timestamp), Gap(span.timestamp, b.signal.timestamp);
    ca > cb || (ca == cb && (ga < gb || (ga == gb && a.position < b.position)))
  }

  /** The time between two readings, nothing if one is missing. */
  function Gap(a: Time, b: Time): int {
    if a.Unset? || b.Unset? then 0 else if a.ns <= b.ns then b.ns - a.ns else a.ns - b.ns
  }

  lemma BeforeMeans(span: SpanRef, a: Candidate, b: Candidate)
    ensures Before(a, b, Better(span), PositionOf()) ==> RanksBefore(span, a, b)
  {
  }

  lemma HeadBeatsRest(ranked: seq<Candidate>, kept: seq<Candidate>, less: (Candidate, Candidate) -> bool)
    requires StrictlyBefore(ranked, less, PositionOf())
    requires |kept| <= |ranked| && kept == ranked[..|kept|]
    ensures forall i, j | 0 <= i < |kept| <= j < |ranked| :: Before(kept[i], ranked[j], less, PositionOf())
  {
    forall i, j | 0 <= i < |kept| <= j < |ranked| ensures Before(kept[i], ranked[j], less, PositionOf()) {
      assert Before(ranked[i], ranked[j], less, PositionOf());
    }
  }

  lemma InRanking(cfg: Settings, span: SpanRef, signals: seq<SignalRef>, c: Candidate)
    ensures c in Ranked(cfg, span, signals) <==> c in EligibleOf(cfg, span, signals)
  {
    assert c in multiset(Ranked(cfg, span, signals)) <==> c in multiset(EligibleOf(cfg, span, signals));
  }

  // ---- The merged attributes ----

  function Larger(a: real, b: real): real { if b > a then b else a }

  /** One candidate written into the attributes: the larger of the present and the new value. */
  function MergeOne(m: Attributes, c: Candidate): Attributes {
    var key := SignalAttr(c.signal.signal);
    if key !in m || c.signal.value > m[key] then m[key := c.signal.value] else m
  }

  function MergeAll(base: Attributes, kept: seq<Candidate>): Attributes {
    if |kept| == 0 then base else MergeOne(MergeAll(base, kept[..|kept|-1]), kept[|kept|-1])
  }

  function MaxConfidence(kept: seq<Candidate>): real {
    if |kept| == 0 then 0.0 else Larger(MaxConfidence(kept[..|kept|-1]), ConfidenceOf(kept[|kept|-1].decision))
  }

  /** The attributes of an enriched span. */
  function Enriched(base: Attributes, kept: seq<Candidate>): Attributes {
    var merged := MergeAll(base, kept);
    if MaxConfidence(kept) > 0.0 then merged[CorrelationConfidence := MaxConfidence(kept)] else merged
  }

  /** Everything that competes for an attribute: its base value and the kept signals that map to it. */
  function Contenders(base: Attributes, kept: seq<Candidate>, key: AttrKey): seq<real> {
    if |kept| == 0 then (if key in base then [base[key]] else [])
    else
      var c := kept[|kept|-1];
      Contenders(base, kept[..|kept|-1], key) + (if SignalAttr(c.signal.signal) == key then [c.signal.value] else [])
  }

  ghost predicate IsMaximum(v: real, values: seq<real>) {
    v in values && forall w | w in values :: w <= v
  }

  /** An attribute is present after merging exactly when something competes for it, and then it is the maximum. */
  lemma {:induction false} MergedIsMaximum(base: Attributes, kept: seq<Candidate>, key: AttrKey)
    ensures key in MergeAll(base, kept) <==> Contenders(base, kept, key) != []
    ensures key in MergeAll(base, kept) ==> IsMaximum(MergeAll(base, kept)[key], Contenders(base, kept, key))
  {
    if |kept| > 0 {
      MergedIsMaximum(base, kept[..|kept|-1], key);
    }
  }

  lemma {:induction false} MaxConfidenceOfKept(kept: seq<Candidate>)
    requires forall i | 0 <= i < |kept| :: ConfidenceOf(kept[i].decision) > 0.0
    ensures kept == [] <==> MaxConfidence(kept) == 0.0
    ensures MaxConfidence(kept) >= 0.0
    ensures forall i | 0 <= i < |kept| :: ConfidenceOf(kept[i].decision) <= MaxConfidence(kept)
    ensures kept != [] ==> exists i :: 0 <= i < |kept| && ConfidenceOf(kept[i].decision) == MaxConfidence(kept)
  {
    if |kept| > 0 {
      var n := |kept| - 1;
      var init := kept[..n];
      MaxConfidenceOfKept(init);
      if ConfidenceOf(kept[n].decision) < MaxConfidence(kept) {
        var i :| 0 <= i < n && ConfidenceOf(init[i].decision) == MaxConfidence(init);
        assert kept[i] == init[i];
      }
    }
  }

  /** The reported confidence is the highest among all eligible signals, whatever the fanout cut drops, and it is
      reported exactly when some signal is eligible. */
  lemma ConfidenceIgnoresFanout(cfg: Settings, span: SpanRef, signals: seq<SignalRef>)
    ensures var eligible, best := EligibleOf(cfg, span, signals), MaxConfidence(Kept(cfg, span, signals));
            && (best > 0.0 <==> eligible != [])
            && (forall i | 0 <= i < |eligible| :: ConfidenceOf(eligible[i].decision) <= best)
            && (eligible != [] ==> exists i :: 0 <= i < |eligible| && ConfidenceOf(eligible[i].decision) == best)
  {
    var eligible, ranked, kept := EligibleOf(cfg, span, signals), Ranked(cfg, span, signals), Kept(cfg, span, signals);
    var best := MaxConfidence(kept);
    forall i | 0 <= i < |kept| ensures ConfidenceOf(kept[i].decision) > 0.0 {
      assert kept[i] == ranked[i];
      RankedHaveConfidence(cfg, span, signals, i);
    }
    MaxConfidenceOfKept(kept);
    forall i | 0 <= i < |eligible| ensures ConfidenceOf(eligible[i].decision) <= best {
      RankedBelowFirst(cfg, span, signals, eligible[i]);
    }
    if eligible != [] {
      var i :| 0 <= i < |kept| && ConfidenceOf(kept[i].decision) == best;
      InRanking(cfg, span, signals, ranked[i]);
      var j :| 0 <= j < |eligible| && eligible[j] == ranked[i];
    }
  }

  lemma RankedHaveConfidence(cfg: Settings, span: SpanRef, signals: seq<SignalRef>, i: nat)
    requires i < |Ranked(cfg, span, signals)|
    ensures ConfidenceOf(Ranked(cfg, span, signals)[i].decision) > 0.0
  {
    var c := Ranked(cfg, span, signals)[i];
    InRanking(cfg, span, signals, c);
    var k :| 0 <= k < |EligibleOf(cfg, span, signals)| && EligibleOf(cfg, span, signals)[k] == c;
    EligibleMeans(cfg, span, signals, k);
  }

  lemma RankedBelowFirst(cfg: Settings, span: SpanRef, signals: seq<SignalRef>, c: Candidate)
    requires c in EligibleOf(cfg, span, signals)
    ensures |Kept(cfg, span, signals)| > 0
    ensures ConfidenceOf(c.decision) <= ConfidenceOf(Kept(cfg, span, signals)[0].decision)
  {
    InRanking(cfg, span, signals, c);
    RankingIsStrict(cfg, span, signals);
    FirstIsBest(span, Ranked(cfg, span, signals), c);
  }

  lemma FirstIsBest(span: SpanRef, ranked: seq<Candidate>, c: Candidate)
    requires StrictlyBefore(ranked, Better(span), PositionOf()) && c in ranked
    ensures ConfidenceOf(c.decision) <= ConfidenceOf(ranked[0].decision)
  {
    var k :| 0 <= k < |ranked| && ranked[k] == c;
    if k > 0 {
      assert Before(ranked[0], ranked[k], Better(span), PositionOf());
    }
  }

  // ---- Accounting ----

  function CountFate(cfg: Settings, span: SpanRef, fate: Fate): SignalRef -> bool {
    (s: SignalRef) => FateOf(cfg, span, s) == fate
  }

  function Dropped(cfg: Settings, span: SpanRef, signals: seq<SignalRef>): nat {
    |Ranked(cfg, span, signals)| - |Kept(cfg, span, signals)|
  }

  /** The diagnostics of one span. */
  function DebugOf(cfg: Settings, span: SpanRef, signals: seq<SignalRef>): DebugStats {
    DebugStats(Count(signals, CountFate(cfg, span, Unmatched)), Count(signals, CountFate(cfg, span, LowConfidence)),
               Dropped(cfg, span, signals), Count(signals, CountFate(cfg, span, UnsupportedType)))
  }

  function Total(d: DebugStats): nat { d.unmatched + d.lowConfidence + d.fanoutDropped + d.unsupportedType }

  lemma {:induction false} FatesPartition(cfg: Settings, span: SpanRef, signals: seq<SignalRef>)
    ensures Count(signals, CountFate(cfg, span, Unmatched)) + Count(signals, CountFate(cfg, span, LowConfidence))
            + Count(signals, CountFate(cfg, span, UnsupportedType)) + |EligibleOf(cfg, span, signals)| == |signals|
  {
    if |signals| > 0 {
      FatesPartition(cfg, span, signals[..|signals|-1]);
    }
  }

  /** Every signal is accounted for: reported as not joined for one of four reasons, or kept. */
  lemma SpanAccounting(cfg: Settings, span: SpanRef, signals: seq<SignalRef>)
    ensures Total(DebugOf(cfg, span, signals)) + |Kept(cfg, span, signals)| == |signals|
  {
    FatesPartition(cfg, span, signals);
  }

  // ---- The enrichment code ----

  function Contents(base: AttrMap?): Attributes
    reads base
  {
    if base == null then map[] else base.m
  }

  /** A copy that shares nothing with the original. */
  method CloneMap(src: AttrMap) returns (out: AttrMap)
    ensures fresh(out) && out.m == src.m
  {
    out := new AttrMap();
    var rest := src.m.Keys;
    while rest != {}
      invariant rest <= src.m.Keys
      invariant out.m.Keys == src.m.Keys - rest
      invariant forall k | k in out.m :: out.m[k] == src.m[k]
      decreases |rest|
    {
      var k :| k in rest;
      out.m := out.m[k := src.m[k]];
      rest := rest - {k};
    }
  }

  /** The filtering loop. */
  method CollectCandidates(cfg: Settings, span: SpanRef, signals: seq<SignalRef>)
    returns (candidates: seq<Candidate>, debug: DebugStats)
    ensures candidates == EligibleOf(cfg, span, signals)
    ensures debug == DebugStats(Count(signals, CountFate(cfg, span, Unmatched)),
                                Count(signals, CountFate(cfg, span, LowConfidence)), 0,
                                Count(signals, CountFate(cfg, span, UnsupportedType)))
  {
    candidates := [];
    debug := DebugStats(0, 0, 0, 0);
    for i := 0 to |signals|
      invariant candidates == EligibleOf(cfg, span, signals[..i])
      invariant debug == DebugStats(Count(signals[..i], CountFate(cfg, span, Unmatched)),
                                    Count(signals[..i], CountFate(cfg, span, LowConfidence)), 0,
                                    Count(signals[..i], CountFate(cfg, span, UnsupportedType)))
    {
      var signal := signals[i];
      assert signals[..i+1][..i] == signals[..i] && signals[..i+1][i] == signal;
      if !Supported(signal.signal) {
        debug := debug.(unsupportedType := debug.unsupportedType + 1);
      } else {
        var decision := MatchPair(span, signal, Window(cfg));
        if !decision.Match? {
          debug := debug.(unmatched := debug.unmatched + 1);
        } else if decision.confidence < Threshold(cfg) {
          debug := debug.(lowConfidence := debug.lowConfidence + 1);
        } else {
          candidates := candidates + [Candidate(i, signal, decision)];
        }
      }
    }
    assert signals[..|signals|] == signals;
  }

  /** Filter, sort stably, and cut to the fanout. */
  method SelectCandidates(cfg: Settings, span: SpanRef, signals: seq<SignalRef>)
    returns (candidates: seq<Candidate>, debug: DebugStats)
    ensures candidates == Kept(cfg, span, signals)
    ensures debug == DebugOf(cfg, span, signals)
  {
    candidates, debug := CollectCandidates(cfg, span, signals);
    candidates := StableSort(candidates, Better(span));
    if |candidates| > Fanout(cfg) {
      debug := debug.(fanoutDropped := |candidates| - Fanout(cfg));
      candidates := candidates[..Fanout(cfg)];
    }
  }

  /** The max-merge loop. */
  method WriteCandidates(out: AttrMap, candidates: seq<Candidate>) returns (maxConfidence: real)
    modifies out
    ensures out.m == MergeAll(old(out.m), candidates)
    ensures maxConfidence == MaxConfidence(candidates)
  {
    maxConfidence := 0.0;
    for i := 0 to |candidates|
      invariant out.m == MergeAll(old(out.m), candidates[..i])
      invariant maxConfidence == MaxConfidence(candidates[..i])
    {
      assert candidates[..i+1][..i] == candidates[..i];
      var c := candidates[i];
      var key := SignalAttr(c.signal.signal);
      if key !in out.m || c.signal.value > out.m[key] {
        out.m := out.m[key := c.signal.value];
      }
      if ConfidenceOf(c.decision) > maxConfidence {
        maxConfidence := ConfidenceOf(c.decision);
      }
    }
    assert candidates[..|candidates|] == candidates;
  }

  method EnrichAttributes(cfg: Settings, base: AttrMap?, span: SpanRef, signals: seq<SignalRef>)
    returns (r: EnrichmentResult)
    ensures fresh(r.attributes)
    ensures r.attributes.m == Enriched(Contents(base), Kept(cfg, span, signals))
    ensures r.candidates == Kept(cfg, span, signals)
    ensures r.debug == DebugOf(cfg, span, signals)
  {
    var out: AttrMap;
    if base == null {
      out := new AttrMap();
    } else {
      out := CloneMap(base);
    }
    var candidates, debug := SelectCandidates(cfg, span, signals);
    var maxConfidence := WriteCandidates(out, candidates);
    if maxConfidence > 0.0 {
      out.m := out.m[CorrelationConfidence := maxConfidence];
    }
    r := EnrichmentResult(out, candidates, debug);
  }

  // ---- Retrieval decomposition ----

  const RETRIEVAL_PARTS: seq<AttrKey> :=
    [SignalAttr(DnsLatencyMs), SignalAttr(ConnectLatencyMs), SignalAttr(TlsHandshakeMs)]

  function ValueOrZero(m: Attributes, key: AttrKey): real { if key in m then m[key] else 0.0 }

  function RetrievalTotal(m: Attributes): real {
    ValueOrZero(m, SignalAttr(DnsLatencyMs)) + ValueOrZero(m, SignalAttr(ConnectLatencyMs))
    + ValueOrZero(m, SignalAttr(TlsHandshakeMs))
  }

  function Decomposed(m: Attributes): Attributes {
    if RetrievalTotal(m) > 0.0 then m[RetrievalKernelMs := RetrievalTotal(m)] else m
  }

  /** Sums the components that are present and records a positive sum in the map it was given. */
  method DecomposeRetrieval(attrs: AttrMap) returns (total: real)
    modifies attrs
    ensures total == RetrievalTotal(old(attrs.m))
    ensures attrs.m == Decomposed(old(attrs.m))
  {
    total := 0.0;
    for i := 0 to |RETRIEVAL_PARTS|
      invariant total == (if i > 0 then ValueOrZero(attrs.m, RETRIEVAL_PARTS[0]) else 0.0)
                         + (if i > 1 then ValueOrZero(attrs.m, RETRIEVAL_PARTS[1]) else 0.0)
                         + (if i > 2 then ValueOrZero(attrs.m, RETRIEVAL_PARTS[2]) else 0.0)
    {
      var key := RETRIEVAL_PARTS[i];
      if key in attrs.m {
        total := total + attrs.m[key];
      }
    }
    if total > 0.0 {
      attrs.m := attrs.m[RetrievalKernelMs := total];
    }
  }

  // ---- Batches ----

  datatype SpanRecord = SpanRecord(
    traceId: string,
    spanId: string,
    service: string,
    node: string,
    pod: string,
    pid: int,
    connTuple: string,
    timestamp: Time,
    attributes: AttrMap?)

  datatype ProcessedBatch = ProcessedBatch(spans: seq<SpanRecord>, debug: DebugStats)

  function RefOf(s: SpanRecord): SpanRef {
    SpanRef(s.traceId, s.service, s.node, s.pod, s.pid, s.connTuple, s.timestamp)
  }

  /** The attributes of a processed span: a function of that span and the signals alone. */
  function Processed(cfg: Settings, base: Attributes, span: SpanRef, signals: seq<SignalRef>): Attributes {
    Decomposed(Enriched(base, Kept(cfg, span, signals)))
  }

  function MergeDebug(a: DebugStats, b: DebugStats): DebugStats {
    DebugStats(a.unmatched + b.unmatched, a.lowConfidence + b.lowConfidence, a.fanoutDropped + b.fanoutDropped,
               a.unsupportedType + b.unsupportedType)
  }

  function MergeAllDebug(stats: seq<DebugStats>): DebugStats {
    if |stats| == 0 then DebugStats(0, 0, 0, 0) else MergeDebug(MergeAllDebug(stats[..|stats|-1]), stats[|stats|-1])
  }

  /** A value per span, each computed from that span alone. */
  function PerSpan<T>(spans: seq<SpanRecord>, f: SpanRef -> T): (r: seq<T>)
    ensures |r| == |spans| && forall i | 0 <= i < |spans| :: r[i] == f(RefOf(spans[i]))
  {
    seq(|spans|, i requires 0 <= i < |spans| => f(RefOf(spans[i])))
  }

  function Diagnose(cfg: Settings, signals: seq<SignalRef>): SpanRef -> DebugStats {
    (s: SpanRef) => DebugOf(cfg, s, signals)
  }

  function KeptCount(cfg: Settings, signals: seq<SignalRef>): SpanRef -> nat {
    (s: SpanRef) => |Kept(cfg, s, signals)|
  }

  function Process(cfg: Settings, signals: seq<SignalRef>): (Attributes, SpanRef) -> Attributes {
    (base: Attributes, s: SpanRef) => Processed(cfg, base, s, signals)
  }

  /** `process` and `diagnose` are what a run on a single span computes. */
  ghost predicate SpanFunctions(cfg: Settings, signals: seq<SignalRef>, process: (Attributes, SpanRef) -> Attributes,
                                diagnose: SpanRef -> DebugStats)
  {
    && (forall b, s {:trigger Processed(cfg, b, s, signals)} :: Processed(cfg, b, s, signals) == process(b, s))
    && (forall s {:trigger DebugOf(cfg, s, signals)} :: DebugOf(cfg, s, signals) == diagnose(s))
  }

  /** `out` is `item` with another attribute map, holding `contents`. */
  ghost predicate FilledWith(item: SpanRecord, contents: Attributes, out: SpanRecord)
    reads out.attributes
  {
    out.attributes != null && out == item.(attributes := out.attributes) && out.attributes.m == contents
  }

  method ProcessSpan(cfg: Settings, item: SpanRecord, signals: seq<SignalRef>,
                     ghost process: (Attributes, SpanRef) -> Attributes, ghost diagnose: SpanRef -> DebugStats)
    returns (out: SpanRecord, debug: DebugStats)
    requires SpanFunctions(cfg, signals, process, diagnose)
    ensures FilledWith(item, process(Contents(item.attributes), RefOf(item)), out) && fresh(out.attributes)
    ensures debug == diagnose(RefOf(item))
  {
    var enriched := EnrichAttributes(cfg, item.attributes, RefOf(item), signals);
    var _ := DecomposeRetrieval(enriched.attributes);
    assert enriched.attributes.m == Processed(cfg, Contents(item.attributes), RefOf(item), signals);
    out := item.(attributes := enriched.attributes);
    debug := enriched.debug;
  }

  /** What the input spans carry. */
  function Bases(spans: seq<SpanRecord>): (r: seq<Attributes>)
    reads set s | s in spans :: s.attributes
    ensures |r| == |spans| && forall i | 0 <= i < |spans| :: r[i] == Contents(spans[i].attributes)
  {
    if |spans| == 0 then [] else [Contents(spans[0].attributes)] + Bases(spans[1..])
  }

  /** What `process` makes of each span. */
  function Expected(spans: seq<SpanRecord>, bases: seq<Attributes>, process: (Attributes, SpanRef) -> Attributes)
    : (r: seq<Attributes>)
    requires |bases| == |spans|
    ensures |r| == |spans| && forall i | 0 <= i < |spans| :: r[i] == process(bases[i], RefOf(spans[i]))
  {
    seq(|spans|, i requires 0 <= i < |spans| => process(bases[i], RefOf(spans[i])))
  }

  /** The batch loop, for whatever functions a run on a single span computes. */
  method ProcessEach(cfg: Settings, spans: seq<SpanRecord>, signals: seq<SignalRef>,
                     ghost process: (Attributes, SpanRef) -> Attributes, ghost diagnose: SpanRef -> DebugStats,
                     ghost bases: seq<Attributes>)
    returns (out: seq<SpanRecord>, debug: DebugStats)
    requires SpanFunctions(cfg, signals, process, diagnose)
    requires |bases| == |spans| && forall i | 0 <= i < |spans| :: bases[i] == Contents(spans[i].attributes)
    ensures |out| == |spans|
    ensures forall i | 0 <= i < |spans| :: FilledWith(spans[i], Expected(spans, bases, process)[i], out[i])
    ensures forall i | 0 <= i < |spans| :: fresh(out[i].attributes)
    ensures forall i, j | 0 <= i < j < |spans| :: out[i].attributes != out[j].attributes
    ensures debug == MergeAllDebug(PerSpan(spans, diagnose))
  {
    out := [];
    debug := DebugStats(0, 0, 0, 0);
    ghost var perSpan, expected := PerSpan(spans, diagnose), Expected(spans, bases, process);
    for i := 0 to |spans|
      invariant |out| == i
      invariant forall k | 0 <= k < i :: fresh(out[k].attributes)
      invariant forall k | 0 <= k < |spans| :: Contents(spans[k].attributes) == bases[k]
      invariant AllFilled(spans, expected, out)
      invariant Merges(perSpan, i, debug)
    {
      var item, itemDebug := ProcessSpan(cfg, spans[i], signals, process, diagnose);
      OneMoreFilled(spans, expected, out, item);
      OneMoreMerged(perSpan, i, debug, itemDebug);
      out := out + [item];
      debug := MergeDebug(debug, itemDebug);
    }
    AllMerged(perSpan, debug);
  }

  /** The outputs so far are filled as expected, each with a map of its own. */
  ghost predicate AllFilled(spans: seq<SpanRecord>, expected: seq<Attributes>, out: seq<SpanRecord>)
    reads set k | 0 <= k < |out| :: out[k].attributes
  {
    && |out| <= |spans| && |out| <= |expected|
    && (forall k | 0 <= k < |out| :: FilledWith(spans[k], expected[k], out[k]))
    && (forall j, k | 0 <= j < k < |out| :: out[j].attributes != out[k].attributes)
  }

  lemma OneMoreFilled(spans: seq<SpanRecord>, expected: seq<Attributes>, out: seq<SpanRecord>, item: SpanRecord)
    requires AllFilled(spans, expected, out) && |out| < |spans| && |out| < |expected|
    requires FilledWith(spans[|out|], expected[|out|], item)
    requires forall k | 0 <= k < |out| :: out[k].attributes != item.attributes
    ensures AllFilled(spans, expected, out + [item])
  {
  }

  /** `debug` is the sum of the first `i` diagnostics. */
  ghost predicate Merges(stats: seq<DebugStats>, i: nat, debug: DebugStats) {
    i <= |stats| && debug == MergeAllDebug(stats[..i])
  }

  lemma OneMoreMerged(stats: seq<DebugStats>, i: nat, debug: DebugStats, next: DebugStats)
    requires Merges(stats, i, debug) && i < |stats| && next == stats[i]
    ensures Merges(stats, i + 1, MergeDebug(debug, next))
  {
    assert stats[..i+1][..i] == stats[..i];
  }

  lemma AllMerged(stats: seq<DebugStats>, debug: DebugStats)
    requires Merges(stats, |stats|, debug)
    ensures debug == MergeAllDebug(stats)
  {
    assert stats[..|stats|] == stats;
  }

  /** Each output span is its input span with a fresh attribute map of its own, filled as a run on that span alone
      would fill it; the input maps keep their contents, and the diagnostics are those of the spans added up. */
  method ProcessBatch(cfg: Settings, spans: seq<SpanRecord>, signals: seq<SignalRef>) returns (r: ProcessedBatch)
    ensures |r.spans| == |spans|
    ensures forall i | 0 <= i < |spans| ::
              FilledWith(spans[i], Process(cfg, signals)(old(Contents(spans[i].attributes)), RefOf(spans[i])),
                         r.spans[i])
    ensures forall i | 0 <= i < |spans| :: fresh(r.spans[i].attributes)
    ensures forall i, j | 0 <= i < j < |spans| :: r.spans[i].attributes != r.spans[j].attributes
    ensures forall i | 0 <= i < |spans| :: Contents(spans[i].attributes) == old(Contents(spans[i].attributes))
    ensures r.debug == MergeAllDebug(PerSpan(spans, Diagnose(cfg, signals)))
  {
    var out, debug := ProcessEach(cfg, spans, signals, Process(cfg, signals), Diagnose(cfg, signals), Bases(spans));
    r := ProcessedBatch(out, debug);
  }

  function AddUp(ns: seq<nat>): nat { if |ns| == 0 then 0 else AddUp(ns[..|ns|-1]) + ns[|ns|-1] }

  function Times(n: nat, m: nat): nat { if n == 0 then 0 else Times(n - 1, m) + m }

  lemma {:induction false} TimesIsProduct(n: nat, m: nat)
    ensures Times(n, m) == n * m
  {
    if n > 0 {
      TimesIsProduct(n - 1, m);
      assert n * m == (n - 1) * m + m;
    }
  }

  function Totals(stats: seq<DebugStats>): (r: seq<nat>)
    ensures |r| == |stats| && forall i | 0 <= i < |stats| :: r[i] == Total(stats[i])
  {
    seq(|stats|, i requires 0 <= i < |stats| => Total(stats[i]))
  }

  lemma {:induction false} TotalOfMerge(stats: seq<DebugStats>)
    ensures Total(MergeAllDebug(stats)) == AddUp(Totals(stats))
  {
    if |stats| > 0 {
      var n := |stats| - 1;
      TotalOfMerge(stats[..n]);
      assert Totals(stats)[..n] == Totals(stats[..n]);
    }
  }

  lemma {:induction false} PairsAddUp(totals: seq<nat>, kept: seq<nat>, m: nat)
    requires |totals| == |kept| && forall i | 0 <= i < |totals| :: totals[i] + kept[i] == m
    ensures AddUp(totals) + AddUp(kept) == Times(|totals|, m)
  {
    if |totals| > 0 {
      PairsAddUp(totals[..|totals|-1], kept[..|totals|-1], m);
    }
  }

  /** Over a batch, every pairing of a span with a signal is accounted for. */
  lemma BatchAccounting(cfg: Settings, spans: seq<SpanRecord>, signals: seq<SignalRef>)
    ensures Total(MergeAllDebug(PerSpan(spans, Diagnose(cfg, signals))))
            + AddUp(PerSpan(spans, KeptCount(cfg, signals))) == |spans| * |signals|
  {
    var stats, kept := PerSpan(spans, Diagnose(cfg, signals)), PerSpan(spans, KeptCount(cfg, signals));
    forall i | 0 <= i < |spans| ensures Total(stats[i]) + kept[i] == |signals| {
      SpanAccounting(cfg, RefOf(spans[i]), signals);
    }
    TotalOfMerge(stats);
    PairsAddUp(Totals(stats), kept, |signals|);
    TimesIsProduct(|spans|, |signals|);
  }

  lemma OnlySignalsMerge(base: Attributes, kept: seq<Candidate>, key: AttrKey)
    requires !key.SignalAttr?
    ensures SameAt(MergeAll(base, kept), base, key)
  {
  }

  predicate SameAt(m: Attributes, m': Attributes, key: AttrKey) {
    (key in m <==> key in m') && (key in m ==> m[key] == m'[key])
  }

  /** A finished signal attribute is present exactly when its base or a kept signal has a value for it, and is the
      largest of those. */
  lemma SignalAttributes(cfg: Settings, base: Attributes, span: SpanRef, signals: seq<SignalRef>, signal: Signal)
    ensures var kept, out, key := Kept(cfg, span, signals), Processed(cfg, base, span, signals), SignalAttr(signal);
            && (key in out <==> Contenders(base, kept, key) != [])
            && (key in out ==> IsMaximum(out[key], Contenders(base, kept, key)))
  {
    MergedIsMaximum(base, Kept(cfg, span, signals), SignalAttr(signal));
  }

  lemma ConfidenceOfEnriched(base: Attributes, kept: seq<Candidate>)
    ensures if MaxConfidence(kept) > 0.0
            then CorrelationConfidence in Enriched(base, kept)
                 && Enriched(base, kept)[CorrelationConfidence] == MaxConfidence(kept)
            else SameAt(Enriched(base, kept), base, CorrelationConfidence)
  {
    OnlySignalsMerge(base, kept, CorrelationConfidence);
  }

  /** The confidence attribute is set exactly when some signal is eligible. */
  lemma ConfidenceAttribute(cfg: Settings, base: Attributes, span: SpanRef, signals: seq<SignalRef>)
    ensures var kept, out := Kept(cfg, span, signals), Processed(cfg, base, span, signals);
            if EligibleOf(cfg, span, signals) != [] then
              CorrelationConfidence in out && out[CorrelationConfidence] == MaxConfidence(kept)
            else SameAt(out, base, CorrelationConfidence)
  {
    var kept := Kept(cfg, span, signals);
    ConfidenceOfEnriched(base, kept);
    ConfidenceIgnoresFanout(cfg, span, signals);
  }

  /** The retrieval attribute is the sum of the three finished components when that sum is positive. */
  lemma RetrievalAttribute(cfg: Settings, base: Attributes, span: SpanRef, signals: seq<SignalRef>)
    ensures var out := Processed(cfg, base, span, signals);
            var dns, connect, tls :=
              SignalAttr(DnsLatencyMs), SignalAttr(ConnectLatencyMs), SignalAttr(TlsHandshakeMs);
            var total := (if dns in out then out[dns] else 0.0) + (if connect in out then out[connect] else 0.0)
                         + (if tls in out then out[tls] else 0.0);
            if total > 0.0 then RetrievalKernelMs in out && out[RetrievalKernelMs] == total
            else SameAt(out, base, RetrievalKernelMs)
  {
    var kept := Kept(cfg, span, signals);
    OnlySignalsMerge(base, kept, RetrievalKernelMs);
  }

  /** Every other attribute is the input's. */
  lemma OtherAttributes(cfg: Settings, base: Attributes, span: SpanRef, signals: seq<SignalRef>, name: string)
    ensures SameAt(Processed(cfg, base, span, signals), base, OtherAttr(name))
  {
    OnlySignalsMerge(base, Kept(cfg, span, signals), OtherAttr(name));
  }
}
