/** Tiered span-signal matching. Times are nanoseconds; an unset time never matches. */
module Correlation {
  import opened Signals

  datatype Time = Unset | At(ns: int)

  const MILLISECOND: int := 1_000_000
  const DEFAULT_WINDOW: int := 2_000_000_000
  const DEFAULT_THRESHOLD: real := 0.7

  datatype SpanRef = SpanRef(
    traceId: string,
    service: string,
    node: string,
    pod: string,
    pid: int,
    connTuple: string,
    timestamp: Time)

  datatype SignalRef = SignalRef(
    signal: Signal,
    traceId: string,
    service: string,
    node: string,
    pod: string,
    pid: int,
    connTuple: string,
    timestamp: Time,
    value: real)

  datatype Tier = TraceIdExact | PodPid | PodConn | ServiceNode

  datatype Decision = NoMatch | Match(confidence: real, tier: Tier)

  /** The confidence of a decision, zero when there is none. */
  function ConfidenceOf(d: Decision): real { if d.Match? then d.confidence else 0.0 }

  function Distance(a: Time, b: Time): nat
    requires a.At? && b.At?
  {
    if a.ns >= b.ns then a.ns - b.ns else b.ns - a.ns
  }

  predicate WithinWindow(a: Time, b: Time, window: int) {
    a.At? && b.At? && Distance(a, b) <= window
  }

  function EffectiveWindow(window: int): (w: int)
    ensures w > 0
  {
    if window <= 0 then DEFAULT_WINDOW else window
  }

  /** The matching cascade: the first tier that applies decides. */
  function MatchPair(span: SpanRef, signal: SignalRef, window: int): Decision {
    var w := EffectiveWindow(window);
    if !WithinWindow(span.timestamp, signal.timestamp, w) then NoMatch
    else if span.traceId != "" && span.traceId == signal.traceId then Match(1.0, TraceIdExact)
    else if span.pod != "" && span.pod == signal.pod && span.pid > 0 && span.pid == signal.pid &&
            WithinWindow(span.timestamp, signal.timestamp, 100 * MILLISECOND) then Match(0.9, PodPid)
    else if span.pod != "" && span.pod == signal.pod && span.connTuple != "" && span.connTuple == signal.connTuple &&
            WithinWindow(span.timestamp, signal.timestamp, 250 * MILLISECOND) then Match(0.8, PodConn)
    else if span.service != "" && span.service == signal.service && span.node != "" && span.node == signal.node &&
            WithinWindow(span.timestamp, signal.timestamp, 500 * MILLISECOND) then Match(0.65, ServiceNode)
    else NoMatch
  }

  // ---- An order-free reading of the cascade ----

  function TierConfidence(t: Tier): real {
    match t
    case TraceIdExact => 1.0
    case PodPid => 0.9
    case PodConn => 0.8
    case ServiceNode => 0.65
  }

  /** Whether the two carry the identities a tier joins on. */
  predicate IdentitiesAgree(t: Tier, span: SpanRef, signal: SignalRef) {
    match t
    case TraceIdExact => span.traceId != "" && span.traceId == signal.traceId
    case PodPid => span.pod != "" && span.pod == signal.pod && span.pid > 0 && span.pid == signal.pid
    case PodConn =>
      span.pod != "" && span.pod == signal.pod && span.connTuple != "" && span.connTuple == signal.connTuple
    case ServiceNode =>
      span.service != "" && span.service == signal.service && span.node != "" && span.node == signal.node
  }

  /** How far apart in time a tier tolerates, given the caller's window. */
  function Reach(t: Tier, window: int): int {
    var w := EffectiveWindow(window);
    var own :=
      match t
      case TraceIdExact => w
      case PodPid => 100 * MILLISECOND
      case PodConn => 250 * MILLISECOND
      case ServiceNode => 500 * MILLISECOND;
    if own <= w then own else w
  }

  predicate Applies(t: Tier, span: SpanRef, signal: SignalRef, window: int) {
    IdentitiesAgree(t, span, signal) && WithinWindow(span.timestamp, signal.timestamp, Reach(t, window))
  }

  /** The cascade picks the most confident tier that applies, and matches exactly when one does. */
  lemma MatchIsBestTier(span: SpanRef, signal: SignalRef, window: int)
    ensures var d := MatchPair(span, signal, window);
            && (d.Match? <==> exists t :: Applies(t, span, signal, window))
            && (d.Match? ==> Applies(d.tier, span, signal, window) && d.confidence == TierConfidence(d.tier))
            && (forall t | Applies(t, span, signal, window) :: TierConfidence(t) <= ConfidenceOf(d))
  {
    var d := MatchPair(span, signal, window);
    if d.Match? {
      assert Applies(d.tier, span, signal, window);
    }
    forall t | Applies(t, span, signal, window) ensures d.Match? && TierConfidence(t) <= d.confidence {
    }
  }

  /** The tiers in figures: what each is worth, and its reach in nanoseconds. */
  lemma TierFigures(window: int)
    ensures TierConfidence(TraceIdExact) == 1.0 && TierConfidence(PodPid) == 0.9
    ensures TierConfidence(PodConn) == 0.8 && TierConfidence(ServiceNode) == 0.65
    ensures var w := if window > 0 then window else 2_000_000_000;
            && Reach(TraceIdExact, window) == w
            && Reach(PodPid, window) == (if w < 100_000_000 then w else 100_000_000)
            && Reach(PodConn, window) == (if w < 250_000_000 then w else 250_000_000)
            && Reach(ServiceNode, window) == (if w < 500_000_000 then w else 500_000_000)
  {
  }

  /** Two pairs whose identities agree on the same tiers. */
  predicate SameIdentities(span: SpanRef, signal: SignalRef, span': SpanRef, signal': SignalRef) {
    && IdentitiesAgree(TraceIdExact, span, signal) == IdentitiesAgree(TraceIdExact, span', signal')
    && IdentitiesAgree(PodPid, span, signal) == IdentitiesAgree(PodPid, span', signal')
    && IdentitiesAgree(PodConn, span, signal) == IdentitiesAgree(PodConn, span', signal')
    && IdentitiesAgree(ServiceNode, span, signal) == IdentitiesAgree(ServiceNode, span', signal')
  }

  /** Moving a signal closer in time, with the identities kept, never lowers the confidence. */
  lemma CloserIsNoWorse(span: SpanRef, signal: SignalRef, span': SpanRef, signal': SignalRef, window: int)
    requires SameIdentities(span, signal, span', signal')
    requires span.timestamp.At? && signal.timestamp.At? && span'.timestamp.At? && signal'.timestamp.At?
    requires Distance(span.timestamp, signal.timestamp) <= Distance(span'.timestamp, signal'.timestamp)
    ensures ConfidenceOf(MatchPair(span', signal', window)) <= ConfidenceOf(MatchPair(span, signal, window))
  {
    MatchIsBestTier(span, signal, window);
    MatchIsBestTier(span', signal', window);
    var d' := MatchPair(span', signal', window);
    if d'.Match? {
      assert Applies(d'.tier, span, signal, window);
    }
  }

  /** Widening a positive window only adds matches: an existing one keeps its confidence and tier. */
  lemma WideningKeepsMatches(span: SpanRef, signal: SignalRef, window: int, window': int)
    requires 0 < window <= window'
    ensures MatchPair(span, signal, window).Match? ==>
              MatchPair(span, signal, window') == MatchPair(span, signal, window)
  {
  }

  /** A window that is not positive means the default, so the previous law stops at zero: narrowing a positive window
      to one that is not changes a decision to another match exactly when the default window matches a pair further
      apart than the positive one reached. */
  lemma ZeroWindowIsDefault(span: SpanRef, signal: SignalRef, window: int, window': int)
    requires window <= 0 < window'
    ensures MatchPair(span, signal, window) == MatchPair(span, signal, DEFAULT_WINDOW)
    ensures (MatchPair(span, signal, window).Match? &&
             MatchPair(span, signal, window') != MatchPair(span, signal, window))
            <==>
            MatchPair(span, signal, DEFAULT_WINDOW).Match? && Distance(span.timestamp, signal.timestamp) > window'
  {
  }

  /** Such a pair: one trace, five nanoseconds apart, joined by a window of zero but not by one of a nanosecond. */
  lemma ZeroWindowGainsMatch(span: SpanRef, signal: SignalRef)
    requires span.traceId != "" && span.traceId == signal.traceId
    requires span.timestamp == At(0) && signal.timestamp == At(5)
    ensures MatchPair(span, signal, 1) == NoMatch
    ensures MatchPair(span, signal, 0) == Match(1.0, TraceIdExact)
  {
  }
}
