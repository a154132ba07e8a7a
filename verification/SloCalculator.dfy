/** Percentile summaries over request-level SLO snapshots. */
module SloCalculator {
  import opened Quantiles

  datatype RetrievalBreakdown = RetrievalBreakdown(vectorDBMs: real, networkMs: real, dnsMs: real)

  datatype Snapshot = Snapshot(ttftMs: real, tokensPerS: real, retrieval: RetrievalBreakdown)

  datatype Percentiles = Percentiles(
    ttftP50: real,
    ttftP95: real,
    ttftP99: real,
    tokensP50: real,
    tokensP95: real,
    retrievalP95: real)

  function NonNegative(v: real): real { if v < 0.0 then 0.0 else v }

  function TotalRetrieval(b: RetrievalBreakdown): real {
    NonNegative(b.vectorDBMs) + NonNegative(b.networkMs) + NonNegative(b.dnsMs)
  }

  function Ttfts(items: seq<Snapshot>): seq<real> {
    seq(|items|, i requires 0 <= i < |items| => NonNegative(items[i].ttftMs))
  }

  function Tokens(items: seq<Snapshot>): seq<real> {
    seq(|items|, i requires 0 <= i < |items| => NonNegative(items[i].tokensPerS))
  }

  function Retrievals(items: seq<Snapshot>): seq<real> {
    seq(|items|, i requires 0 <= i < |items| => TotalRetrieval(items[i].retrieval))
  }

  /** Percentiles in every summary are ordered and nonnegative, whatever the snapshots hold, and each is a
      quantile of the clamped measurements. */
  method Aggregate(items: seq<Snapshot>) returns (p: Percentiles)
    ensures 0.0 <= p.ttftP50 <= p.ttftP95 <= p.ttftP99
    ensures 0.0 <= p.tokensP50 <= p.tokensP95
    ensures 0.0 <= p.retrievalP95
    ensures p.ttftP50 == Quantile(Ttfts(items), 0.50) && p.ttftP95 == Quantile(Ttfts(items), 0.95)
    ensures p.ttftP99 == Quantile(Ttfts(items), 0.99)
    ensures p.tokensP50 == Quantile(Tokens(items), 0.50) && p.tokensP95 == Quantile(Tokens(items), 0.95)
    ensures p.retrievalP95 == Quantile(Retrievals(items), 0.95)
  {
    if |items| == 0 {
      return Percentiles(0.0, 0.0, 0.0, 0.0, 0.0, 0.0);
    }
    var ttft, tps, retrieval := CollectMeasurements(items);
    var ttftP50 := NonNegativeQuantile(ttft, 0.50);
    var ttftP95 := NonNegativeQuantile(ttft, 0.95);
    var ttftP99 := NonNegativeQuantile(ttft, 0.99);
    var tokensP50 := NonNegativeQuantile(tps, 0.50);
    var tokensP95 := NonNegativeQuantile(tps, 0.95);
    var retrievalP95 := NonNegativeQuantile(retrieval, 0.95);
    QuantileMonotoneInQ(ttft, 0.50, 0.95);
    QuantileMonotoneInQ(ttft, 0.95, 0.99);
    QuantileMonotoneInQ(tps, 0.50, 0.95);
    p := Percentiles(ttftP50, ttftP95, ttftP99, tokensP50, tokensP95, retrievalP95);
  }

  /** The append loop over the snapshots. */
  method CollectMeasurements(items: seq<Snapshot>) returns (ttft: seq<real>, tps: seq<real>, retrieval: seq<real>)
    ensures ttft == Ttfts(items) && tps == Tokens(items) && retrieval == Retrievals(items)
    ensures forall v | v in ttft || v in tps || v in retrieval :: v >= 0.0
  {
    ttft, tps, retrieval := [], [], [];
    for i := 0 to |items|
      invariant ttft == Ttfts(items[..i]) && tps == Tokens(items[..i]) && retrieval == Retrievals(items[..i])
      invariant forall v | v in ttft || v in tps || v in retrieval :: v >= 0.0
    {
      ttft := ttft + [NonNegative(items[i].ttftMs)];
      tps := tps + [NonNegative(items[i].tokensPerS)];
      retrieval := retrieval + [TotalRetrieval(items[i].retrieval)];
    }
    assert items[..|items|] == items;
  }

  method NonNegativeQuantile(values: seq<real>, q: real) returns (r: real)
    requires |values| > 0 && forall v | v in values :: v >= 0.0
    ensures r == Quantile(values, q) && r >= 0.0
  {
    QuantileAbove(values, q, 0.0);
    r := ComputeQuantile(values, q);
  }

  /** Measurements count as they are, but for negative ones, which count as zero; a retrieval takes as long as its three
      parts together. */
  lemma MeasurementsAreClamped(items: seq<Snapshot>, i: nat)
    requires i < |items|
    ensures var b := items[i].retrieval;
            b.vectorDBMs >= 0.0 && b.networkMs >= 0.0 && b.dnsMs >= 0.0 ==>
              Retrievals(items)[i] == b.vectorDBMs + b.networkMs + b.dnsMs
    ensures items[i].ttftMs >= 0.0 ==> Ttfts(items)[i] == items[i].ttftMs
    ensures items[i].tokensPerS >= 0.0 ==> Tokens(items)[i] == items[i].tokensPerS
    ensures Ttfts(items)[i] >= 0.0 && Tokens(items)[i] >= 0.0
    ensures items[i].ttftMs <= 0.0 ==> Ttfts(items)[i] == 0.0
    ensures items[i].tokensPerS <= 0.0 ==> Tokens(items)[i] == 0.0
  {
  }

  /** A negative part of a retrieval changes no other part's contribution. */
  lemma NegativePartsCountAsZero(b: RetrievalBreakdown)
    ensures TotalRetrieval(b) == TotalRetrieval(b.(vectorDBMs := if b.vectorDBMs > 0.0 then b.vectorDBMs else 0.0))
    ensures TotalRetrieval(b) == TotalRetrieval(b.(networkMs := if b.networkMs > 0.0 then b.networkMs else 0.0))
    ensures TotalRetrieval(b) == TotalRetrieval(b.(dnsMs := if b.dnsMs > 0.0 then b.dnsMs else 0.0))
  {
  }

  /** Slower requests never lower a TTFT percentile. */
  lemma SlowerRequestsRaiseTtft(items: seq<Snapshot>, items': seq<Snapshot>, q: real)
    requires |items| == |items'| && forall i | 0 <= i < |items| :: items[i].ttftMs <= items'[i].ttftMs
    ensures Quantile(Ttfts(items), q) <= Quantile(Ttfts(items'), q)
  {
    QuantileMonotoneInData(Ttfts(items), Ttfts(items'), q);
  }
}
