/** Where posteriors come from: priors and likelihood tables as configured, one step at a time. */
module AttributionOdds {
  import opened Sums
  import opened Signals
  import opened Attribution

  /** The configured prior, or next to nothing where none is configured that is positive. */
  function ConfiguredPrior(priors: map<Domain, real>, d: Domain): real {
    if d in priors && priors[d] > 0.0 then priors[d] else 0.0000000001
  }

  lemma JointWithoutTables(b: Attributor, elevated: set<Signal>, d: Domain)
    requires b.likelihoods == map[]
    ensures Joints(b, elevated)(d) == ConfiguredPrior(b.priors, d) > 0.0
  {
  }

  /** Without likelihoods the posteriors are in proportion to the priors. */
  lemma PosteriorsFollowPriors(b: Attributor, elevated: set<Signal>, d: Domain, e: Domain)
    requires b.likelihoods == map[]
    ensures ConfiguredPrior(b.priors, e) > 0.0 && Posteriors(b, elevated)(e) > 0.0
    ensures Odds(Posteriors(b, elevated), d, e) == ConfiguredPrior(b.priors, d) / ConfiguredPrior(b.priors, e)
  {
    JointWithoutTables(b, elevated, d);
    JointWithoutTables(b, elevated, e);
    PosteriorOdds(b, elevated, d, e);
  }

  /** What a table says about a domain when its signal is elevated or not: nothing either way if the domain is missing,
      and never with more certainty than 99 to 1. */
  function Weight(table: map<Domain, real>, d: Domain, elevated: bool): real {
    if d !in table then 0.5
    else
      var p := if table[d] < 0.01 then 0.01 else if table[d] > 0.99 then 0.99 else table[d];
      if elevated then p else 1.0 - p
  }

  lemma WeightIsUsed(b: Attributor, s: Signal, d: Domain, elevated: bool)
    requires s in b.likelihoods
    ensures LikelihoodFor(b, s, d, elevated) == Weight(b.likelihoods[s], d, elevated)
  {
  }

  /** The attributor with one more table. */
  function Configure(b: Attributor, s: Signal, table: map<Domain, real>): Attributor {
    b.(likelihoods := b.likelihoods[s := table])
  }

  lemma JointWithTable(b: Attributor, s: Signal, table: map<Domain, real>, elevated: set<Signal>, d: Domain)
    requires s !in b.likelihoods
    ensures Joints(Configure(b, s, table), elevated)(d) ==
            Mul(Weight(table, d, s in elevated), Joints(b, elevated)(d))
  {
    var b' := Configure(b, s, table);
    assert b'.likelihoods.Keys == b.likelihoods.Keys + {s};
    WeightIsUsed(b', s, d, s in elevated);
    TakeOut(b.likelihoods.Keys, Factor(b', elevated, d), Factor(b, elevated, d), Prior(b, d), s);
  }

  lemma TakeOut(keys: set<Signal>, f: Signal -> real, g: Signal -> real, start: real, s: Signal)
    requires s !in keys && forall x | x in keys :: f(x) == g(x)
    ensures Fold(keys + {s}, f, Mul, start) == Mul(f(s), Fold(keys, g, Mul, start))
  {
    MulCommutes();
    FoldRemove(keys + {s}, f, Mul, start, s);
    assert keys + {s} - {s} == keys;
    FoldEqual(keys, f, g, Mul, start);
  }

  /** Each further table multiplies the odds of two domains by the ratio of what it says about them. Together with
      `PosteriorsFollowPriors` this gives the posteriors of every configuration. */
  lemma TableMovesOdds(b: Attributor, s: Signal, table: map<Domain, real>, elevated: set<Signal>, d: Domain, e: Domain)
    requires s !in b.likelihoods
    ensures Posteriors(b, elevated)(e) > 0.0 && Posteriors(Configure(b, s, table), elevated)(e) > 0.0
    ensures var before, after := Posteriors(b, elevated), Posteriors(Configure(b, s, table), elevated);
            Odds(after, d, e) ==
              Mul(Odds(before, d, e), Weight(table, d, s in elevated) / Weight(table, e, s in elevated))
  {
    JointWithTable(b, s, table, elevated, d);
    JointWithTable(b, s, table, elevated, e);
    PosteriorOdds(b, elevated, d, e);
    PosteriorOdds(Configure(b, s, table), elevated, d, e);
    RatioOfProducts(Joints(b, elevated), Joints(Configure(b, s, table), elevated), d, e,
                    Weight(table, d, s in elevated), Weight(table, e, s in elevated));
  }

  lemma RatioOfProducts(before: Domain -> real, after: Domain -> real, d: Domain, e: Domain, wd: real, we: real)
    requires before(e) > 0.0 && after(e) > 0.0 && we > 0.0
    requires after(d) == Mul(wd, before(d)) && after(e) == Mul(we, before(e))
    ensures after(d) / after(e) == Mul(before(d) / before(e), wd / we)
  {
    ProductOfQuotients(wd, before(d), we, before(e), after(e));
  }

  lemma ProductOfQuotients(a: real, b: real, c: real, d: real, cd: real)
    requires c > 0.0 && d > 0.0 && cd > 0.0 && cd == c * d
    ensures (a * b) / cd == (b / d) * (a / c)
  {
    var u, v := b / d, a / c;
    assert u * d == b && v * c == a;
    assert a * b == (u * v) * cd;
  }

  /** A signal speaks for a domain if it is elevated and, as configured, at least as likely elevated as not under it. */
  lemma EvidenceIsFavourable(b: Attributor, elevated: set<Signal>, d: Domain, s: Signal)
    ensures s in EvidenceFor(b, elevated, d) <==>
              && s in elevated && s in b.likelihoods && d in b.likelihoods[s]
              && b.likelihoods[s][d] >= 1.0 - b.likelihoods[s][d]
  {
  }

  predicate Reaches(signals: map<Signal, real>, s: Signal, limit: real) { s in signals && signals[s] >= limit }

  /** From which values on the signals are elevated: milliseconds, percent or counts. */
  lemma ElevatedMeans(signals: map<Signal, real>)
    ensures var elevated := Elevated(signals);
            && (DnsLatencyMs in elevated <==> Reaches(signals, DnsLatencyMs, 40.0))
            && (TcpRetransmits in elevated <==> Reaches(signals, TcpRetransmits, 2.0))
            && (RunqueueDelayMs in elevated <==> Reaches(signals, RunqueueDelayMs, 10.0))
            && (ConnectLatencyMs in elevated <==> Reaches(signals, ConnectLatencyMs, 80.0))
            && (TlsHandshakeMs in elevated <==> Reaches(signals, TlsHandshakeMs, 60.0))
            && (CpuStealPct in elevated <==> Reaches(signals, CpuStealPct, 2.0))
            && (CfsThrottledMs in elevated <==> Reaches(signals, CfsThrottledMs, 40.0))
            && (MemReclaimLatencyMs in elevated <==> Reaches(signals, MemReclaimLatencyMs, 5.0))
            && (DiskIoLatencyMs in elevated <==> Reaches(signals, DiskIoLatencyMs, 10.0))
            && (SyscallLatencyMs in elevated <==> Reaches(signals, SyscallLatencyMs, 50.0))
            && (ConnectErrors in elevated <==> Reaches(signals, ConnectErrors, 1.0))
            && (TlsHandshakeFails in elevated <==> Reaches(signals, TlsHandshakeFails, 1.0))
            && (forall s | s in elevated :: !s.OtherSignal?)
  {
  }
}
