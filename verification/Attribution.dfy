/** Naive Bayes attribution of an incident to a fault domain. Maps are iterated in an arbitrary order throughout, so
    every result below is independent of it. */
module Attribution {
  import opened Basics
  import opened Sums
  import opened Ordering
  import opened Signals

  datatype Domain =
    | NetworkDns
    | NetworkEgress
    | CpuThrottle
    | MemoryPressure
    | ProviderThrottle
    | ProviderError
    | RetrievalBackend
    | Unknown

  const ALL_DOMAINS: seq<Domain> := [
    NetworkDns, NetworkEgress, CpuThrottle, MemoryPressure, ProviderThrottle, ProviderError, RetrievalBackend, Unknown]

  /** Exponential and logarithm, kept abstract. */
  datatype LogLib = LogLib(exp: real -> real, log: real -> real) {
    ghost predicate Valid() {
      && (forall a {:trigger exp(a)} :: exp(a) > 0.0)
      && (forall a, b {:trigger exp(Add(a, b))} :: exp(Add(a, b)) == exp(a) * exp(b))
      && (forall v {:trigger log(v)} :: v > 0.0 ==> exp(log(v)) == v)
    }
  }

  /** Priors by domain, and by signal and domain the probability that the signal is elevated. */
  datatype Attributor = Attributor(priors: map<Domain, real>, likelihoods: map<Signal, map<Domain, real>>)

  /** From which value on a known signal counts as elevated. */
  function ElevationThreshold(s: Signal): real
    requires !s.OtherSignal?
  {
    match s
    case DnsLatencyMs => 40.0
    case TcpRetransmits => 2.0
    case RunqueueDelayMs => 10.0
    case ConnectLatencyMs => 80.0
    case TlsHandshakeMs => 60.0
    case CpuStealPct => 2.0
    case CfsThrottledMs => 40.0
    case MemReclaimLatencyMs => 5.0
    case DiskIoLatencyMs => 10.0
    case SyscallLatencyMs => 50.0
    case ConnectErrors => 1.0
    case TlsHandshakeFails => 1.0
  }

  predicate IsElevated(signals: map<Signal, real>, s: Signal) {
    s in signals && !s.OtherSignal? && signals[s] >= ElevationThreshold(s)
  }

  function Elevated(signals: map<Signal, real>): set<Signal> {
    set s | s in signals && IsElevated(signals, s)
  }

  method FindElevated(signals: map<Signal, real>) returns (elevated: set<Signal>)
    ensures elevated == Elevated(signals)
  {
    elevated := {};
    var rest := signals.Keys;
    while rest != {}
      invariant rest <= signals.Keys
      invariant forall s :: s in elevated <==> s in signals && s !in rest && IsElevated(signals, s)
      decreases |rest|
    {
      var s :| s in rest;
      if !s.OtherSignal? && signals[s] >= ElevationThreshold(s) {
        elevated := elevated + {s};
      }
      rest := rest - {s};
    }
  }

  // ---- Likelihoods ----

  function ClampLikelihood(p: real): (r: real)
    ensures 0.01 <= r <= 0.99
  {
    if p < 0.01 then 0.01 else if p > 0.99 then 0.99 else p
  }

  /** The probability of a signal's state under a domain; one half where nothing is configured. */
  function LikelihoodFor(b: Attributor, s: Signal, d: Domain, elevated: bool): (r: real)
    ensures 0.01 <= r <= 0.99
  {
    if s !in b.likelihoods then 0.5
    else if d !in b.likelihoods[s] then 0.5
    else if elevated then ClampLikelihood(b.likelihoods[s][d])
    else ClampLikelihood(1.0 - b.likelihoods[s][d])
  }

  function Prior(b: Attributor, d: Domain): (p: real)
    ensures p > 0.0
  {
    if d in b.priors && b.priors[d] > 0.0 then b.priors[d] else 0.0000000001
  }

  function Factor(b: Attributor, elevated: set<Signal>, d: Domain): Signal -> real {
    (s: Signal) => LikelihoodFor(b, s, d, s in elevated)
  }

  // ---- Products and sums over sets ----

  /** Some member of a set. */
  ghost function Pick<T>(s: set<T>): (x: T)
    requires s != {}
    ensures x in s
  {
    var x :| x in s;
    x
  }

  ghost predicate Swaps(op: (real, real) -> real, a: real, b: real, c: real) {
    op(a, op(b, c)) == op(b, op(a, c))
  }

  ghost predicate Commuting(op: (real, real) -> real) {
    forall a, b, c :: Swaps(op, a, b, c)
  }

  lemma CommuteAt(op: (real, real) -> real, a: real, b: real, c: real)
    requires Commuting(op)
    ensures op(a, op(b, c)) == op(b, op(a, c))
  {
    assert Swaps(op, a, b, c);
  }

  /** The values of `f` over a set, combined in no particular order. */
  ghost function Fold<T>(s: set<T>, f: T -> real, op: (real, real) -> real, unit: real): real
    decreases |s|
  {
    if s == {} then unit else op(f(Pick(s)), Fold(s - {Pick(s)}, f, op, unit))
  }

  /** Any element can be taken out first. */
  lemma {:induction false} FoldRemove<T>(s: set<T>, f: T -> real, op: (real, real) -> real, unit: real, x: T)
    requires x in s && Commuting(op)
    ensures Fold(s, f, op, unit) == op(f(x), Fold(s - {x}, f, op, unit))
    decreases |s|
  {
    var y := Pick(s);
    if y != x {
      FoldRemove(s - {y}, f, op, unit, x);
      FoldRemove(s - {x}, f, op, unit, y);
      assert s - {y} - {x} == s - {x} - {y};
      CommuteAt(op, f(y), f(x), Fold(s - {x} - {y}, f, op, unit));
    }
  }

  /** An element can just as well be absorbed by the starting value. */
  lemma {:induction false} FoldAbsorb<T>(s: set<T>, f: T -> real, op: (real, real) -> real, unit: real, x: T)
    requires x in s && Commuting(op)
    ensures Fold(s, f, op, unit) == Fold(s - {x}, f, op, op(f(x), unit))
    decreases |s|
  {
    FoldRemove(s, f, op, unit, x);
    if s - {x} != {} {
      var y := Pick(s - {x});
      FoldRemove(s, f, op, unit, y);
      FoldAbsorb(s - {y}, f, op, unit, x);
      assert s - {y} - {x} == s - {x} - {y};
      FoldRemove(s - {x}, f, op, op(f(x), unit), y);
    }
  }

  lemma {:induction false} FoldEqual<T>(s: set<T>, f: T -> real, g: T -> real, op: (real, real) -> real, unit: real)
    requires forall x | x in s :: f(x) == g(x)
    ensures Fold(s, f, op, unit) == Fold(s, g, op, unit)
    decreases |s|
  {
    if s != {} {
      FoldEqual(s - {Pick(s)}, f, g, op, unit);
    }
  }

  function Mul(a: real, b: real): real { a * b }

  function Add(a: real, b: real): real { a + b }

  lemma MulCommutes()
    ensures Commuting(Mul)
  {
    forall a: real, b: real, c: real ensures Swaps(Mul, a, b, c) {
      assert a * (b * c) == b * (a * c);
    }
  }

  lemma AbsorbTerm(s: set<Domain>, f: Domain -> real, sum: real, d: Domain)
    requires d in s
    ensures Fold(s, f, Add, sum) == Fold(s - {d}, f, Add, sum + f(d))
  {
    assert Commuting(Add);
    FoldAbsorb(s, f, Add, sum, d);
    assert Add(f(d), sum) == sum + f(d);
  }

  lemma RemoveTerm(s: set<Domain>, f: Domain -> real, d: Domain)
    requires d in s
    ensures Fold(s, f, Add, 0.0) == Fold(s - {d}, f, Add, 0.0) + f(d)
  {
    assert Commuting(Add);
    FoldRemove(s, f, Add, 0.0, d);
    assert Fold(s, f, Add, 0.0) == Add(f(d), Fold(s - {d}, f, Add, 0.0));
  }

  lemma AbsorbFactor(s: set<Signal>, f: Signal -> real, product: real, x: Signal)
    requires x in s
    ensures Fold(s, f, Mul, product) == Fold(s - {x}, f, Mul, Mul(f(x), product))
  {
    MulCommutes();
    FoldAbsorb(s, f, Mul, product, x);
  }

  lemma {:induction false} FoldPositive(s: set<Signal>, f: Signal -> real, start: real)
    requires start > 0.0 && forall x | x in s :: f(x) > 0.0
    ensures Fold(s, f, Mul, start) > 0.0
    decreases |s|
  {
    if s != {} {
      FoldPositive(s - {Pick(s)}, f, start);
      ProductPositive(f(Pick(s)), Fold(s - {Pick(s)}, f, Mul, start));
    }
  }

  lemma {:induction false} SumScaled(ds: seq<Domain>, f: Domain -> real, g: Domain -> real, c: real)
    requires forall d | d in ds :: g(d) == c * f(d)
    ensures Sum(ds, g) == c * Sum(ds, f)
  {
    if |ds| > 0 {
      var n := |ds| - 1;
      var init := ds[..n];
      var a, r := f(ds[n]), Sum(init, f);
      assert Sum(init, g) == c * r by { SumScaled(init, f, g, c); }
    }
  }

  function Members(ds: seq<Domain>): set<Domain> { set d | d in ds }

  /** Adding up along a list without repetitions is adding up over its set. */
  lemma {:induction false} SumOfList(ds: seq<Domain>, f: Domain -> real)
    requires forall i, j | 0 <= i < j < |ds| :: ds[i] != ds[j]
    ensures Sum(ds, f) == Fold(Members(ds), f, Add, 0.0)
  {
    if |ds| > 0 {
      var n := |ds| - 1;
      SumOfList(ds[..n], f);
      RemoveTerm(Members(ds), f, ds[n]);
      assert Members(ds) - {ds[n]} == Members(ds[..n]);
    }
  }

  lemma Listed(d: Domain)
    ensures d in ALL_DOMAINS
  {
    assert ALL_DOMAINS[0] == NetworkDns && ALL_DOMAINS[1] == NetworkEgress && ALL_DOMAINS[2] == CpuThrottle;
    assert ALL_DOMAINS[3] == MemoryPressure && ALL_DOMAINS[4] == ProviderThrottle && ALL_DOMAINS[5] == ProviderError;
    assert ALL_DOMAINS[6] == RetrievalBackend && ALL_DOMAINS[7] == Unknown;
  }

  lemma AllDomainsListed()
    ensures forall d: Domain :: d in Members(ALL_DOMAINS)
    ensures forall i, j | 0 <= i < j < |ALL_DOMAINS| :: ALL_DOMAINS[i] != ALL_DOMAINS[j]
  {
    forall d: Domain ensures d in Members(ALL_DOMAINS) {
      Listed(d);
    }
  }

  // ---- The specification ----

  /** The prior multiplied by the likelihoods of all configured signals. */
  ghost function Joint(b: Attributor, elevated: set<Signal>, d: Domain): real {
    Fold(b.likelihoods.Keys, Factor(b, elevated, d), Mul, Prior(b, d))
  }

  ghost function Joints(b: Attributor, elevated: set<Signal>): Domain -> real {
    (d: Domain) => Joint(b, elevated, d)
  }

  ghost function Evidence(b: Attributor, elevated: set<Signal>): real {
    Sum(ALL_DOMAINS, Joints(b, elevated))
  }

  lemma JointPositive(b: Attributor, elevated: set<Signal>, d: Domain)
    ensures Joint(b, elevated, d) > 0.0
  {
    FoldPositive(b.likelihoods.Keys, Factor(b, elevated, d), Prior(b, d));
  }

  lemma {:induction false} SumPositive(ds: seq<Domain>, f: Domain -> real)
    requires forall d | d in ds :: f(d) > 0.0
    ensures Sum(ds, f) >= 0.0 && (|ds| > 0 ==> Sum(ds, f) > 0.0)
  {
    if |ds| > 0 {
      SumPositive(ds[..|ds|-1], f);
    }
  }

  lemma EvidencePositive(b: Attributor, elevated: set<Signal>)
    ensures Evidence(b, elevated) > 0.0
  {
    forall d ensures Joints(b, elevated)(d) > 0.0 {
      JointPositive(b, elevated, d);
    }
    SumPositive(ALL_DOMAINS, Joints(b, elevated));
  }

  /** The posterior of a domain, with no logarithm in sight. */
  ghost function PosteriorOf(b: Attributor, elevated: set<Signal>, d: Domain): real {
    EvidencePositive(b, elevated);
    Joint(b, elevated, d) / Evidence(b, elevated)
  }

  ghost function Posteriors(b: Attributor, elevated: set<Signal>): Domain -> real {
    (d: Domain) => PosteriorOf(b, elevated, d)
  }

  datatype Posterior = Posterior(domain: Domain, posterior: real, evidence: set<Signal>)

  /** The elevated signals that speak for a domain. */
  function EvidenceFor(b: Attributor, elevated: set<Signal>, d: Domain): set<Signal> {
    set s | s in elevated && s in b.likelihoods && d in b.likelihoods[s] && b.likelihoods[s][d] >= 0.5
  }

  predicate MoreLikely(a: Posterior, b: Posterior) { a.posterior > b.posterior }

  ghost function Listing(b: Attributor, domains: seq<Domain>, elevated: set<Signal>, posterior: Domain -> real)
    : (r: seq<Posterior>)
    ensures |r| == |domains|
    ensures forall i | 0 <= i < |r| ::
              r[i] == Posterior(domains[i], posterior(domains[i]), EvidenceFor(b, elevated, domains[i]))
  {
    seq(|domains|, i requires 0 <= i < |domains| =>
      Posterior(domains[i], posterior(domains[i]), EvidenceFor(b, elevated, domains[i])))
  }

  /** The domains by falling posterior, ties in the order they are listed in. */
  ghost function Ranking(b: Attributor, elevated: set<Signal>): seq<Posterior> {
    StableSort(Listing(b, ALL_DOMAINS, elevated, Posteriors(b, elevated)), MoreLikely)
  }

  // ---- The computation in logarithms ----

  lemma ExpOfSum(lib: LogLib, a: real, b: real)
    requires lib.Valid()
    ensures lib.exp(a + b) == lib.exp(a) * lib.exp(b)
  {
    assert lib.exp(Add(a, b)) == lib.exp(a) * lib.exp(b);
  }

  /** Adding a logarithm multiplies. */
  lemma AddLog(lib: LogLib, logP: real, l: real)
    requires lib.Valid() && l > 0.0
    ensures lib.exp(logP + lib.log(l)) == Mul(l, lib.exp(logP))
  {
    ExpOfSum(lib, logP, lib.log(l));
  }

  lemma AddLikelihood(s: set<Signal>, f: Signal -> real, x: Signal, l: real, logP: real, lib: LogLib)
    requires lib.Valid() && x in s && f(x) == l > 0.0
    ensures Fold(s, f, Mul, lib.exp(logP)) == Fold(s - {x}, f, Mul, lib.exp(logP + lib.log(l)))
  {
    AbsorbFactor(s, f, lib.exp(logP), x);
    AddLog(lib, logP, l);
  }

  method LogPosterior(b: Attributor, d: Domain, elevated: set<Signal>, lib: LogLib) returns (logP: real)
    requires lib.Valid()
    ensures lib.exp(logP) == Joint(b, elevated, d)
  {
    logP := AddLogs(b, d, elevated, lib, lib.log(Prior(b, d)), Factor(b, elevated, d));
  }

  /** Adding up logarithms over the configured signals, in whatever order the map yields them. */
  method AddLogs(b: Attributor, d: Domain, elevated: set<Signal>, lib: LogLib, start: real, ghost f: Signal -> real)
    returns (logP: real)
    requires lib.Valid() && forall s :: f(s) == LikelihoodFor(b, s, d, s in elevated)
    ensures lib.exp(logP) == Fold(b.likelihoods.Keys, f, Mul, lib.exp(start))
  {
    logP := start;
    var rest := b.likelihoods.Keys;
    while rest != {}
      invariant rest <= b.likelihoods.Keys
      invariant Fold(b.likelihoods.Keys, f, Mul, lib.exp(start)) == Fold(rest, f, Mul, lib.exp(logP))
      decreases |rest|
    {
      var s :| s in rest;
      var l := LikelihoodFor(b, s, d, s in elevated);
      assert f(s) == l;
      AddLikelihood(rest, f, s, l, logP, lib);
      logP := logP + lib.log(l);
      rest := rest - {s};
    }
  }

  method LogPosteriors(b: Attributor, elevated: set<Signal>, lib: LogLib) returns (lps: map<Domain, real>)
    requires lib.Valid()
    ensures lps.Keys == Members(ALL_DOMAINS)
    ensures forall d | d in lps :: lib.exp(lps[d]) == Joint(b, elevated, d)
  {
    lps := map[];
    for i := 0 to |ALL_DOMAINS|
      invariant lps.Keys == Members(ALL_DOMAINS[..i])
      invariant forall d | d in lps :: lib.exp(lps[d]) == Joint(b, elevated, d)
    {
      var logP := LogPosterior(b, ALL_DOMAINS[i], elevated, lib);
      lps := lps[ALL_DOMAINS[i] := logP];
    }
    assert ALL_DOMAINS[..|ALL_DOMAINS|] == ALL_DOMAINS;
  }

  method MaxLog(lps: map<Domain, real>) returns (m: real)
    requires lps != map[]
    ensures exists d | d in lps :: lps[d] == m
    ensures forall d | d in lps :: lps[d] <= m
  {
    var rest := lps.Keys;
    var found := false;
    m := 0.0;
    while rest != {}
      invariant rest <= lps.Keys
      invariant !found ==> rest == lps.Keys
      invariant found ==> exists d | d in lps :: lps[d] == m
      invariant found ==> forall d | d in lps && d !in rest :: lps[d] <= m
      decreases |rest|
    {
      var d :| d in rest;
      if !found || lps[d] > m {
        found, m := true, lps[d];
      }
      rest := rest - {d};
    }
  }

  ghost function Exponentials(lps: map<Domain, real>, shift: real, lib: LogLib): Domain -> real {
    (d: Domain) => if d in lps then lib.exp(lps[d] - shift) else 0.0
  }

  method SumExp(lps: map<Domain, real>, shift: real, lib: LogLib) returns (sum: real)
    ensures sum == Fold(lps.Keys, Exponentials(lps, shift, lib), Add, 0.0)
  {
    sum := 0.0;
    var rest := lps.Keys;
    ghost var f := Exponentials(lps, shift, lib);
    while rest != {}
      invariant rest <= lps.Keys
      invariant Fold(lps.Keys, f, Add, 0.0) == Fold(rest, f, Add, sum)
      decreases |rest|
    {
      var d :| d in rest;
      AbsorbTerm(rest, f, sum, d);
      sum := sum + lib.exp(lps[d] - shift);
      rest := rest - {d};
    }
  }

  /** The logarithm that is subtracted in the end. */
  ghost function LogZ(lps: map<Domain, real>, shift: real, lib: LogLib): real {
    shift + lib.log(Fold(lps.Keys, Exponentials(lps, shift, lib), Add, 0.0))
  }

  /** `lps` holds the logarithms of `joints`. */
  ghost predicate Logarithms(ds: seq<Domain>, lps: map<Domain, real>, joints: Domain -> real, lib: LogLib) {
    forall d | d in ds :: d in lps && lib.exp(lps[d]) == joints(d)
  }

  lemma TermsScale(ds: seq<Domain>, lps: map<Domain, real>, joints: Domain -> real, shift: real, lib: LogLib)
    requires lib.Valid() && Logarithms(ds, lps, joints, lib)
    ensures forall d | d in ds :: joints(d) == lib.exp(shift) * Exponentials(lps, shift, lib)(d)
  {
    forall d | d in ds ensures joints(d) == lib.exp(shift) * Exponentials(lps, shift, lib)(d) {
      ExpOfSum(lib, shift, lps[d] - shift);
      assert shift + (lps[d] - shift) == lps[d];
    }
  }

  /** Whatever is subtracted before exponentiation scales the sum of exponentials. */
  lemma ShiftScales(ds: seq<Domain>, lps: map<Domain, real>, joints: Domain -> real, shift: real, lib: LogLib)
    requires lib.Valid() && Logarithms(ds, lps, joints, lib)
    ensures Sum(ds, joints) == lib.exp(shift) * Sum(ds, Exponentials(lps, shift, lib))
  {
    TermsScale(ds, lps, joints, shift, lib);
    SumScaled(ds, Exponentials(lps, shift, lib), joints, lib.exp(shift));
  }

  lemma LogZIsLogOfSum(ds: seq<Domain>, lps: map<Domain, real>, shift: real, lib: LogLib)
    requires lib.Valid() && lps.Keys == Members(ds) && |ds| > 0
    requires forall i, j | 0 <= i < j < |ds| :: ds[i] != ds[j]
    ensures LogZ(lps, shift, lib) == shift + lib.log(Sum(ds, Exponentials(lps, shift, lib)))
    ensures Sum(ds, Exponentials(lps, shift, lib)) > 0.0
  {
    SumOfList(ds, Exponentials(lps, shift, lib));
    SumPositive(ds, Exponentials(lps, shift, lib));
  }

  lemma SumShiftCancels(ds: seq<Domain>, lps: map<Domain, real>, joints: Domain -> real, shift: real, lib: LogLib,
                        d: Domain)
    requires lib.Valid() && Logarithms(ds, lps, joints, lib) && d in ds
    requires Sum(ds, Exponentials(lps, shift, lib)) > 0.0 && Sum(ds, joints) > 0.0
    ensures lib.exp(lps[d] - (shift + lib.log(Sum(ds, Exponentials(lps, shift, lib))))) == joints(d) / Sum(ds, joints)
  {
    ShiftScales(ds, lps, joints, shift, lib);
    QuotientOfExps(lib, lps[d], shift, Sum(ds, Exponentials(lps, shift, lib)), Sum(ds, joints));
  }

  /** The shift cancels: adding it back leaves each joint over the sum of all. */
  lemma ShiftCancels(ds: seq<Domain>, lps: map<Domain, real>, joints: Domain -> real, shift: real, lib: LogLib,
                     d: Domain)
    requires lib.Valid() && Logarithms(ds, lps, joints, lib) && lps.Keys == Members(ds)
    requires forall i, j | 0 <= i < j < |ds| :: ds[i] != ds[j]
    requires d in ds && Sum(ds, joints) > 0.0
    ensures lib.exp(lps[d] - LogZ(lps, shift, lib)) == joints(d) / Sum(ds, joints)
  {
    LogZIsLogOfSum(ds, lps, shift, lib);
    SumShiftCancels(ds, lps, joints, shift, lib, d);
  }

  lemma QuotientOfExps(lib: LogLib, lp: real, shift: real, sum: real, evidence: real)
    requires lib.Valid() && sum > 0.0 && evidence == lib.exp(shift) * sum
    ensures evidence > 0.0 && lib.exp(lp - (shift + lib.log(sum))) == lib.exp(lp) / evidence
  {
    var logZ := shift + lib.log(sum);
    ExpOfSum(lib, shift, lib.log(sum));
    ExpOfSum(lib, lp - logZ, logZ);
    assert lp - logZ + logZ == lp;
    ProductPositive(lib.exp(shift), sum);
  }

  method CollectEvidence(b: Attributor, elevated: set<Signal>, d: Domain) returns (evidence: set<Signal>)
    ensures evidence == EvidenceFor(b, elevated, d)
  {
    evidence := {};
    var rest := elevated;
    while rest != {}
      invariant rest <= elevated
      invariant evidence == EvidenceFor(b, elevated - rest, d)
      decreases |rest|
    {
      var s :| s in rest;
      if s in b.likelihoods && d in b.likelihoods[s] && b.likelihoods[s][d] >= 0.5 {
        evidence := evidence + {s};
      }
      rest := rest - {s};
    }
    assert elevated - rest == elevated;
  }

  /** Normalising with any shift at all gives `posterior`. */
  ghost predicate NormalisesTo(ds: seq<Domain>, lps: map<Domain, real>, posterior: Domain -> real, lib: LogLib) {
    forall shift :: NormalisesWith(ds, lps, posterior, LogZ(lps, shift, lib), lib)
  }

  ghost predicate NormalisesWith(ds: seq<Domain>, lps: map<Domain, real>, posterior: Domain -> real, logZ: real,
                                 lib: LogLib)
  {
    forall d | d in ds :: d in lps && lib.exp(lps[d] - logZ) == posterior(d)
  }

  lemma Normalises(ds: seq<Domain>, lps: map<Domain, real>, joints: Domain -> real, posterior: Domain -> real,
                   lib: LogLib)
    requires lib.Valid() && Logarithms(ds, lps, joints, lib) && lps.Keys == Members(ds)
    requires forall i, j | 0 <= i < j < |ds| :: ds[i] != ds[j]
    requires Sum(ds, joints) > 0.0
    requires forall d | d in ds :: posterior(d) == joints(d) / Sum(ds, joints)
    ensures NormalisesTo(ds, lps, posterior, lib)
  {
    forall shift ensures NormalisesWith(ds, lps, posterior, LogZ(lps, shift, lib), lib) {
      forall d | d in ds ensures d in lps && lib.exp(lps[d] - LogZ(lps, shift, lib)) == posterior(d) {
        ShiftCancels(ds, lps, joints, shift, lib, d);
      }
    }
  }

  /** One record per domain, then a stable sort. */
  method RankDomains(b: Attributor, domains: seq<Domain>, elevated: set<Signal>, lps: map<Domain, real>, logZ: real,
                     lib: LogLib, ghost posterior: Domain -> real)
    returns (result: seq<Posterior>)
    requires NormalisesWith(domains, lps, posterior, logZ, lib)
    ensures result == StableSort(Listing(b, domains, elevated, posterior), MoreLikely)
  {
    result := [];
    for i := 0 to |domains|
      invariant result == Listing(b, domains, elevated, posterior)[..i]
    {
      var domain := domains[i];
      var evidence := CollectEvidence(b, elevated, domain);
      result := result + [Posterior(domain, lib.exp(lps[domain] - logZ), evidence)];
    }
    assert result == Listing(b, domains, elevated, posterior);
    result := StableSort(result, MoreLikely);
  }

  /** Log-sum-exp normalisation, then the ranking. */
  method Normalise(b: Attributor, domains: seq<Domain>, elevated: set<Signal>, lps: map<Domain, real>, lib: LogLib,
                   ghost posterior: Domain -> real)
    returns (result: seq<Posterior>)
    requires lps != map[] && NormalisesTo(domains, lps, posterior, lib)
    ensures result == StableSort(Listing(b, domains, elevated, posterior), MoreLikely)
  {
    var maxLog := MaxLog(lps);
    var sumExp := SumExp(lps, maxLog, lib);
    var logZ := maxLog + lib.log(sumExp);
    assert logZ == LogZ(lps, maxLog, lib);
    assert NormalisesWith(domains, lps, posterior, LogZ(lps, maxLog, lib), lib);
    result := RankDomains(b, domains, elevated, lps, logZ, lib, posterior);
  }

  /** The whole attribution: log posteriors, log-sum-exp normalisation, evidence and a stable ranking. */
  method Attribute(b: Attributor, signals: map<Signal, real>, lib: LogLib) returns (result: seq<Posterior>)
    requires lib.Valid()
    ensures result == Ranking(b, Elevated(signals))
  {
    var elevated := FindElevated(signals);
    var lps := LogPosteriors(b, elevated, lib);
    assert lps != map[] && Logarithms(ALL_DOMAINS, lps, Joints(b, elevated), lib) by {
      AllDomainsListed();
      assert NetworkDns in lps;
    }
    AllDomainsListed();
    EvidencePositive(b, elevated);
    Normalises(ALL_DOMAINS, lps, Joints(b, elevated), Posteriors(b, elevated), lib);
    result := Normalise(b, ALL_DOMAINS, elevated, lps, lib, Posteriors(b, elevated));
  }

  // ---- What the ranking promises ----

  lemma Quotient(j: real, e: real)
    requires j > 0.0 && e > 0.0
    ensures j / e > 0.0 && j / e == (1.0 / e) * j
  {
  }

  lemma Reciprocal(e: real)
    requires e > 0.0
    ensures (1.0 / e) * e == 1.0
  {
  }

  lemma QuotientsSumToOne(ds: seq<Domain>, joints: Domain -> real, posteriors: Domain -> real)
    requires forall d :: joints(d) > 0.0
    requires Sum(ds, joints) > 0.0
    requires forall d :: posteriors(d) == joints(d) / Sum(ds, joints)
    ensures forall d :: posteriors(d) > 0.0
    ensures Sum(ds, posteriors) == 1.0
  {
    var e := Sum(ds, joints);
    forall d ensures posteriors(d) > 0.0 && posteriors(d) == (1.0 / e) * joints(d) {
      Quotient(joints(d), e);
    }
    SumScaled(ds, joints, posteriors, 1.0 / e);
    Reciprocal(e);
  }

  /** Every posterior is positive and together they are one. */
  lemma PosteriorsAreADistribution(b: Attributor, elevated: set<Signal>)
    ensures forall d :: Posteriors(b, elevated)(d) > 0.0
    ensures Sum(ALL_DOMAINS, Posteriors(b, elevated)) == 1.0
  {
    forall d ensures Joints(b, elevated)(d) > 0.0 {
      JointPositive(b, elevated, d);
    }
    EvidencePositive(b, elevated);
    QuotientsSumToOne(ALL_DOMAINS, Joints(b, elevated), Posteriors(b, elevated));
  }

  function Mass(p: Posterior): real { p.posterior }

  ghost function ListPosition(p: Posterior): int {
    match p.domain
    case NetworkDns => 0
    case NetworkEgress => 1
    case CpuThrottle => 2
    case MemoryPressure => 3
    case ProviderThrottle => 4
    case ProviderError => 5
    case RetrievalBackend => 6
    case Unknown => 7
  }

  /** Falling posteriors, ties in list order, and every domain once with its posterior and evidence. */
  lemma RankingOrder(b: Attributor, elevated: set<Signal>)
    ensures |Ranking(b, elevated)| == |ALL_DOMAINS|
    ensures StrictlyBefore(Ranking(b, elevated), MoreLikely, ListPosition)
    ensures forall p :: p in Ranking(b, elevated) <==>
              p == Posterior(p.domain, PosteriorOf(b, elevated, p.domain), EvidenceFor(b, elevated, p.domain))
  {
    var listing, ranking := Listing(b, ALL_DOMAINS, elevated, Posteriors(b, elevated)), Ranking(b, elevated);
    forall i, j | 0 <= i < j < |listing| ensures ListPosition(listing[i]) < ListPosition(listing[j]) {
      PositionOf(i);
      PositionOf(j);
    }
    StableSortIsStable(listing, MoreLikely, ListPosition);
    forall p ensures p in ranking <==>
              p == Posterior(p.domain, PosteriorOf(b, elevated, p.domain), EvidenceFor(b, elevated, p.domain)) {
      assert p in ranking <==> p in multiset(ranking);
      assert p in listing <==> p in multiset(listing);
      Listed(p.domain);
      if p == Posterior(p.domain, PosteriorOf(b, elevated, p.domain), EvidenceFor(b, elevated, p.domain)) {
        var k :| 0 <= k < |ALL_DOMAINS| && ALL_DOMAINS[k] == p.domain;
        assert listing[k] == p;
      }
    }
  }

  lemma PositionOf(k: nat)
    requires k < |ALL_DOMAINS|
    ensures forall p: Posterior | p.domain == ALL_DOMAINS[k] :: ListPosition(p) == k
  {
    assert k == 0 || k == 1 || k == 2 || k == 3 || k == 4 || k == 5 || k == 6 || k == 7;
  }

  lemma RankingMass(b: Attributor, elevated: set<Signal>)
    ensures Sum(Ranking(b, elevated), Mass) == 1.0
    ensures forall p | p in Ranking(b, elevated) :: p.posterior > 0.0
  {
    var listing := Listing(b, ALL_DOMAINS, elevated, Posteriors(b, elevated));
    PosteriorsAreADistribution(b, elevated);
    SumMapped(ALL_DOMAINS, listing, Posteriors(b, elevated), Mass);
    SumPermutation(Ranking(b, elevated), listing, Mass);
    forall p | p in Ranking(b, elevated) ensures p.posterior > 0.0 {
      assert p in multiset(listing);
    }
  }

  /** Falling masses that add up to one start with at least an average one. */
  lemma FirstIsAboveAverage(ranking: seq<Posterior>)
    requires |ranking| > 0 && Sum(ranking, Mass) == 1.0
    requires forall i, j | 0 <= i < j < |ranking| :: ranking[i].posterior >= ranking[j].posterior
    ensures ranking[0].posterior * |ranking| as real >= 1.0
  {
    SumUpperBound(ranking, Mass, ranking[0].posterior);
  }

  /** The winner holds at least an eighth. */
  lemma TopPosterior(b: Attributor, elevated: set<Signal>)
    ensures |Ranking(b, elevated)| == 8
    ensures forall i, j | 0 <= i < j < 8 :: Ranking(b, elevated)[i].posterior >= Ranking(b, elevated)[j].posterior
    ensures 0.125 <= Ranking(b, elevated)[0].posterior < 1.0
  {
    var ranking := Ranking(b, elevated);
    RankingOrder(b, elevated);
    forall i, j | 0 <= i < j < 8 ensures ranking[i].posterior >= ranking[j].posterior {
      assert Before(ranking[i], ranking[j], MoreLikely, ListPosition);
    }
    RankingMass(b, elevated);
    FirstIsAboveAverage(ranking);
    TopBelowTotal(ranking);
  }

  lemma TopBelowTotal(ranking: seq<Posterior>)
    requires |ranking| > 1 && Sum(ranking, Mass) == 1.0
    requires forall p | p in ranking :: p.posterior > 0.0
    ensures ranking[0].posterior < 1.0
  {
    var n := |ranking| - 1;
    HeadBelowSum(ranking[..n]);
    assert ranking[..n][0] == ranking[0];
    assert ranking[n] in ranking;
  }

  lemma {:induction false} HeadBelowSum(ranking: seq<Posterior>)
    requires |ranking| > 0 && forall p | p in ranking :: p.posterior > 0.0
    ensures ranking[0].posterior <= Sum(ranking, Mass)
  {
    var n := |ranking| - 1;
    if n > 0 {
      HeadBelowSum(ranking[..n]);
      assert ranking[n] in ranking;
    } else {
      assert ranking[..n] == [];
    }
  }

  // ---- Incidents ----

  datatype Incident = Incident(predicted: Domain, confidence: real, hypotheses: seq<Posterior>)

  const CUTOFF: real := 0.01

  /** The first `k` entries of a ranking are exactly those of at least one percent. */
  ghost predicate CutAt(ranking: seq<Posterior>, k: nat) {
    && k <= |ranking|
    && (forall i | 0 <= i < k :: ranking[i].posterior >= 0.01)
    && (forall i | k <= i < |ranking| :: ranking[i].posterior < 0.01)
  }

  /** The filtering loop: on a falling ranking it keeps a prefix. */
  method KeepHypotheses(posteriors: seq<Posterior>) returns (hypotheses: seq<Posterior>)
    requires forall i, j | 0 <= i < j < |posteriors| :: posteriors[i].posterior >= posteriors[j].posterior
    ensures |hypotheses| <= |posteriors| && hypotheses == posteriors[..|hypotheses|]
    ensures CutAt(posteriors, |hypotheses|)
  {
    hypotheses := [];
    for i := 0 to |posteriors|
      invariant |hypotheses| <= i && hypotheses == posteriors[..|hypotheses|]
      invariant forall j | 0 <= j < |hypotheses| :: posteriors[j].posterior >= CUTOFF
      invariant |hypotheses| < i ==> posteriors[|hypotheses|].posterior < CUTOFF
    {
      if posteriors[i].posterior >= CUTOFF {
        hypotheses := hypotheses + [posteriors[i]];
      }
    }
  }

  /** Attribution of one sample: the hypotheses kept are a non-empty prefix of the ranking headed by the prediction,
      and what is dropped weighs less than seven hundredths. */
  method AttributeSample(b: Attributor, signals: map<Signal, real>, base: Incident, lib: LogLib)
    returns (incident: Incident)
    requires lib.Valid()
    ensures signals == map[] ==> incident == base
    ensures signals != map[] ==>
      var ranking := Ranking(b, Elevated(signals));
      && 0 < |incident.hypotheses| <= 8
      && CutAt(ranking, |incident.hypotheses|)
      && incident.hypotheses == ranking[..|incident.hypotheses|]
      && incident.predicted == incident.hypotheses[0].domain
      && incident.confidence == incident.hypotheses[0].posterior >= 0.125
      && Sum(incident.hypotheses, Mass) > 0.93
  {
    if signals == map[] {
      return base;
    }
    var posteriors := Attribute(b, signals, lib);
    TopPosterior(b, Elevated(signals));
    var hypotheses := KeepHypotheses(posteriors);
    incident := base.(hypotheses := hypotheses);
    if |posteriors| > 0 {
      incident := incident.(predicted := posteriors[0].domain, confidence := posteriors[0].posterior);
    }
    DroppedMass(b, Elevated(signals), |hypotheses|);
  }

  lemma DroppedMass(b: Attributor, elevated: set<Signal>, k: nat)
    requires 0 < k && CutAt(Ranking(b, elevated), k)
    ensures Sum(Ranking(b, elevated)[..k], Mass) > 0.93
  {
    TopPosterior(b, elevated);
    RankingMass(b, elevated);
    KeptMass(Ranking(b, elevated), k);
  }

  lemma KeptMass(ranking: seq<Posterior>, k: nat)
    requires 0 < k && CutAt(ranking, k) && |ranking| <= 8 && Sum(ranking, Mass) == 1.0
    ensures Sum(ranking[..k], Mass) > 0.93
  {
    SumConcat(ranking[..k], ranking[k..], Mass);
    assert ranking == ranking[..k] + ranking[k..];
    SumBelow(ranking[k..]);
  }

  lemma {:induction false} SumBelow(dropped: seq<Posterior>)
    requires forall i | 0 <= i < |dropped| :: dropped[i].posterior < CUTOFF
    ensures Sum(dropped, Mass) <= |dropped| as real * CUTOFF
    ensures |dropped| > 0 ==> Sum(dropped, Mass) < |dropped| as real * CUTOFF
  {
    if |dropped| > 0 {
      SumBelow(dropped[..|dropped|-1]);
    }
  }

  // ---- Only the configured elevated signals matter ----

  /** Values speak only through their thresholds, and unconfigured signals do not speak at all. */
  lemma OnlyElevatedMatters(b: Attributor, one: map<Signal, real>, two: map<Signal, real>)
    requires forall s | s in b.likelihoods :: IsElevated(one, s) == IsElevated(two, s)
    ensures Ranking(b, Elevated(one)) == Ranking(b, Elevated(two))
  {
    var e1, e2 := Elevated(one), Elevated(two);
    forall d ensures Joints(b, e1)(d) == Joints(b, e2)(d) && EvidenceFor(b, e1, d) == EvidenceFor(b, e2, d) {
      FoldEqual(b.likelihoods.Keys, Factor(b, e1, d), Factor(b, e2, d), Mul, Prior(b, d));
    }
    SumEqual(ALL_DOMAINS, Joints(b, e1), Joints(b, e2));
    assert Listing(b, ALL_DOMAINS, e1, Posteriors(b, e1)) == Listing(b, ALL_DOMAINS, e2, Posteriors(b, e2));
  }

  // ---- One more elevated signal ----

  /** The likelihood actually used for an elevated signal. */
  function Effective(b: Attributor, s: Signal, d: Domain): (p: real)
    ensures 0.01 <= p <= 0.99
  {
    LikelihoodFor(b, s, d, true)
  }

  ghost function Odds(posterior: Domain -> real, d: Domain, e: Domain): real
    requires posterior(e) > 0.0
  {
    posterior(d) / posterior(e)
  }

  /** Both clamps agree: the complement of a clamped value is the clamped complement. */
  lemma ClampComplement(b: Attributor, s: Signal, d: Domain)
    requires s in b.likelihoods
    ensures LikelihoodFor(b, s, d, false) == 1.0 - Effective(b, s, d)
  {
  }

  /** Two products that differ in one factor, over what the other factors contribute. */
  lemma SplitProduct(s: set<Signal>, before: Signal -> real, after: Signal -> real, start: real, x: Signal)
    returns (others: real)
    requires x in s && start > 0.0 && forall y | y in s :: before(y) > 0.0
    requires forall y | y in s && y != x :: before(y) == after(y)
    ensures others > 0.0
    ensures Fold(s, before, Mul, start) == Mul(before(x), others)
    ensures Fold(s, after, Mul, start) == Mul(after(x), others)
  {
    others := Fold(s - {x}, before, Mul, start);
    MulCommutes();
    FoldPositive(s - {x}, before, start);
    FoldEqual(s - {x}, before, after, Mul, start);
    FoldRemove(s, before, Mul, start, x);
    FoldRemove(s, after, Mul, start, x);
  }

  /** A joint before and after a configured signal becomes elevated, over what the other signals contribute. */
  lemma JointSplit(b: Attributor, elevated: set<Signal>, s: Signal, d: Domain) returns (others: real)
    requires s !in elevated && s in b.likelihoods
    ensures others > 0.0
    ensures Joint(b, elevated, d) == Mul(1.0 - Effective(b, s, d), others)
    ensures Joint(b, elevated + {s}, d) == Mul(Effective(b, s, d), others)
  {
    FactorsAround(b, elevated, s, d);
    others := SplitProduct(b.likelihoods.Keys, Factor(b, elevated, d), Factor(b, elevated + {s}, d), Prior(b, d), s);
  }

  lemma FactorsAround(b: Attributor, elevated: set<Signal>, s: Signal, d: Domain)
    requires s !in elevated && s in b.likelihoods
    ensures var before, after := Factor(b, elevated, d), Factor(b, elevated + {s}, d);
            && before(s) == 1.0 - Effective(b, s, d) && after(s) == Effective(b, s, d)
            && forall y :: before(y) > 0.0 && (y != s ==> before(y) == after(y))
  {
    ClampComplement(b, s, d);
  }

  /** `after` and `before` share a factor; besides it they have `p` and its complement. */
  ghost predicate Split(before: real, after: real, p: real) {
    exists others :: others > 0.0 && before == Mul(1.0 - p, others) && after == Mul(p, others)
  }

  lemma QuotientOfQuotients(a: real, b: real, c: real)
    requires a > 0.0 && b > 0.0 && c > 0.0
    ensures b / c > 0.0 && (a / c) / (b / c) == a / b
  {
    Quotient(b, c);
    var q := a / b;
    assert a == q * b;
    assert (a / c) == q * (b / c) by { Quotient(a, c); Quotient(b, c); }
  }

  lemma RatioOfSplits(p: real, q: real, x: real, y: real, d0: real, e0: real, d1: real, e1: real)
    requires 0.0 < p < 1.0 && 0.0 < q < 1.0 && x > 0.0 && y > 0.0
    requires d0 == (1.0 - p) * x && e0 == (1.0 - q) * y && e0 > 0.0
    requires d1 == p * x && e1 == q * y && e1 > 0.0
    ensures (d1 / e1) * (q * (1.0 - p)) == (d0 / e0) * (p * (1.0 - q))
    ensures d1 / e1 >= d0 / e0 <==> p >= q
  {
    var ratio := x / y;
    assert ratio > 0.0 && x == ratio * y;
    OneSplit(1.0 - p, 1.0 - q, x, y, d0 / e0, ratio);
    OneSplit(p, q, x, y, d1 / e1, ratio);
    CompareSplits(p, q, ratio, d0 / e0, d1 / e1);
  }

  lemma OneSplit(p: real, q: real, x: real, y: real, odds: real, ratio: real)
    requires p > 0.0 && q > 0.0 && y > 0.0 && x == ratio * y
    requires q * y > 0.0 && odds == (p * x) / (q * y)
    ensures odds * q == p * ratio
  {
    assert odds * (q * y) == p * x;
    assert (odds * q) * y == (p * ratio) * y;
  }

  lemma CompareSplits(p: real, q: real, ratio: real, before: real, after: real)
    requires 0.0 < p < 1.0 && 0.0 < q < 1.0 && ratio > 0.0
    requires before * (1.0 - q) == (1.0 - p) * ratio && after * q == p * ratio
    ensures after * (q * (1.0 - p)) == before * (p * (1.0 - q))
    ensures after >= before <==> p >= q
  {
    calc {
      after * (q * (1.0 - p));
      (after * q) * (1.0 - p);
      (p * ratio) * (1.0 - p);
      p * ((1.0 - p) * ratio);
      p * (before * (1.0 - q));
      before * (p * (1.0 - q));
    }
    var c := q * (1.0 - q);
    ProductPositive(q, 1.0 - q);
    assert (after - before) * c == (p - q) * ratio by {
      assert after * c == (after * q) * (1.0 - q) == (p * ratio) * (1.0 - q);
      assert before * c == (before * (1.0 - q)) * q == ((1.0 - p) * ratio) * q;
    }
    SameSign(after - before, c, p - q, ratio);
  }

  lemma SameSign(a: real, b: real, c: real, d: real)
    requires b > 0.0 && d > 0.0 && a * b == c * d
    ensures a >= 0.0 <==> c >= 0.0
  {
  }

  ghost predicate MovedBy(p: real, q: real, before: real, after: real) {
    after * (q * (1.0 - p)) == before * (p * (1.0 - q)) && (after >= before <==> p >= q)
  }

  /** A split moves a quotient by the likelihood ratio. */
  lemma SplitMovesQuotient(p: real, q: real, d0: real, d1: real, e0: real, e1: real)
    requires 0.0 < p < 1.0 && 0.0 < q < 1.0 && e0 > 0.0 && e1 > 0.0
    requires Split(d0, d1, p) && Split(e0, e1, q)
    ensures MovedBy(p, q, d0 / e0, d1 / e1)
  {
    var x :| x > 0.0 && d0 == Mul(1.0 - p, x) && d1 == Mul(p, x);
    var y :| y > 0.0 && e0 == Mul(1.0 - q, y) && e1 == Mul(q, y);
    RatioOfSplits(p, q, x, y, d0, e0, d1, e1);
  }

  /** Normalising does not change odds. */
  lemma NormalisedOdds(joint: Domain -> real, posterior: Domain -> real, total: real, d: Domain, e: Domain)
    requires total > 0.0 && joint(d) > 0.0 && joint(e) > 0.0
    requires posterior(d) == joint(d) / total && posterior(e) == joint(e) / total
    ensures posterior(e) > 0.0 && Odds(posterior, d, e) == joint(d) / joint(e)
  {
    QuotientOfQuotients(joint(d), joint(e), total);
  }

  lemma SplitMovesOdds(joint0: Domain -> real, joint1: Domain -> real, posterior0: Domain -> real,
                       posterior1: Domain -> real, p: Domain -> real, d: Domain, e: Domain)
    requires joint0(e) > 0.0 && joint1(e) > 0.0 && posterior0(e) > 0.0 && posterior1(e) > 0.0
    requires Odds(posterior0, d, e) == joint0(d) / joint0(e)
    requires Odds(posterior1, d, e) == joint1(d) / joint1(e)
    requires 0.0 < p(d) < 1.0 && 0.0 < p(e) < 1.0
    requires Split(joint0(d), joint1(d), p(d)) && Split(joint0(e), joint1(e), p(e))
    ensures MovedBy(p(d), p(e), Odds(posterior0, d, e), Odds(posterior1, d, e))
  {
    SplitMovesQuotient(p(d), p(e), joint0(d), joint1(d), joint0(e), joint1(e));
  }

  ghost function Effectives(b: Attributor, s: Signal): Domain -> real {
    (d: Domain) => Effective(b, s, d)
  }

  lemma PosteriorOdds(b: Attributor, elevated: set<Signal>, d: Domain, e: Domain)
    ensures Joints(b, elevated)(e) > 0.0 && Posteriors(b, elevated)(e) > 0.0
    ensures Odds(Posteriors(b, elevated), d, e) == Joints(b, elevated)(d) / Joints(b, elevated)(e)
  {
    JointPositive(b, elevated, d);
    JointPositive(b, elevated, e);
    EvidencePositive(b, elevated);
    NormalisedOdds(Joints(b, elevated), Posteriors(b, elevated), Evidence(b, elevated), d, e);
  }

  lemma JointsSplit(b: Attributor, elevated: set<Signal>, s: Signal)
    requires s !in elevated && s in b.likelihoods
    ensures forall c :: Split(Joints(b, elevated)(c), Joints(b, elevated + {s})(c), Effectives(b, s)(c))
  {
    forall c ensures Split(Joints(b, elevated)(c), Joints(b, elevated + {s})(c), Effectives(b, s)(c)) {
      var others := JointSplit(b, elevated, s, c);
    }
  }

  /** Elevating one more configured signal multiplies the odds of `d` against `e` by its likelihood ratio over the
      complementary one, so it never lowers them exactly when the signal is at least as likely under `d`. */
  lemma ElevationMovesOdds(b: Attributor, elevated: set<Signal>, s: Signal, d: Domain, e: Domain)
    requires s !in elevated && s in b.likelihoods
    ensures Posteriors(b, elevated)(e) > 0.0 && Posteriors(b, elevated + {s})(e) > 0.0
    ensures MovedBy(Effective(b, s, d), Effective(b, s, e),
                    Odds(Posteriors(b, elevated), d, e), Odds(Posteriors(b, elevated + {s}), d, e))
  {
    PosteriorOdds(b, elevated, d, e);
    PosteriorOdds(b, elevated + {s}, d, e);
    JointsSplit(b, elevated, s);
    SplitMovesOdds(Joints(b, elevated), Joints(b, elevated + {s}), Posteriors(b, elevated),
                   Posteriors(b, elevated + {s}), Effectives(b, s), d, e);
  }

  /** An unconfigured signal changes no posterior. */
  lemma UnconfiguredSignal(b: Attributor, elevated: set<Signal>, s: Signal, d: Domain)
    requires s !in b.likelihoods
    ensures PosteriorOf(b, elevated + {s}, d) == PosteriorOf(b, elevated, d)
  {
    forall c ensures Joints(b, elevated)(c) == Joints(b, elevated + {s})(c) {
      FoldEqual(b.likelihoods.Keys, Factor(b, elevated, c), Factor(b, elevated + {s}, c), Mul, Prior(b, c));
    }
    SumEqual(ALL_DOMAINS, Joints(b, elevated), Joints(b, elevated + {s}));
    assert Joints(b, elevated)(d) == Joints(b, elevated + {s})(d);
  }

  lemma {:induction false} WeightedSums(ds: seq<Domain>, f: Domain -> real, g: Domain -> real, a: real, c: real)
    requires forall e | e in ds :: a * f(e) >= c * g(e)
    ensures a * Sum(ds, f) >= c * Sum(ds, g)
  {
    if |ds| > 0 {
      var n := |ds| - 1;
      var init := ds[..n];
      var x, y, u, v := Sum(init, f), Sum(init, g), f(ds[n]), g(ds[n]);
      assert a * x >= c * y by { WeightedSums(init, f, g, a, c); }
    }
  }

  // ---- The exact update ----

  /** How much likelier an elevated signal is than a quiet one, by domain. */
  ghost function Ratios(b: Attributor, s: Signal): Domain -> real {
    (d: Domain) => Ratio(Effective(b, s, d))
  }

  function Ratio(p: real): real
    requires p < 1.0
  {
    p / (1.0 - p)
  }

  ghost function Weighted(ratio: Domain -> real, posterior: Domain -> real): Domain -> real {
    (d: Domain) => Mul(ratio(d), posterior(d))
  }

  lemma SplitRatio(before: real, after: real, p: real)
    requires 0.0 < p < 1.0 && Split(before, after, p)
    ensures after == Mul(Ratio(p), before)
  {
    var x :| x > 0.0 && before == Mul(1.0 - p, x) && after == Mul(p, x);
    var r := Ratio(p);
    assert r * (1.0 - p) == p;
    calc {
      after;
      (r * (1.0 - p)) * x;
      r * ((1.0 - p) * x);
      r * before;
    }
  }

  lemma UpdateWeight(ratio: real, joint0: real, joint1: real, posterior0: real, total0: real)
    requires total0 > 0.0 && joint1 == Mul(ratio, joint0) && posterior0 == joint0 / total0
    ensures Mul(ratio, posterior0) == (1.0 / total0) * joint1
  {
    var u := 1.0 / total0;
    assert posterior0 == u * joint0;
    calc {
      ratio * posterior0;
      ratio * (u * joint0);
      u * (ratio * joint0);
      u * joint1;
    }
  }

  lemma UpdateOne(ratio: real, weight: real, posterior0: real, posterior1: real, joint1: real, total0: real,
                  total1: real, mean: real)
    requires total0 > 0.0 && total1 > 0.0 && joint1 > 0.0 && posterior0 > 0.0
    requires weight == Mul(ratio, posterior0) && weight == (1.0 / total0) * joint1
    requires posterior1 == joint1 / total1 && mean == (1.0 / total0) * total1
    ensures Mul(posterior1, mean) == Mul(ratio, posterior0)
    ensures posterior1 >= posterior0 <==> ratio >= mean
  {
    var u := 1.0 / total0;
    Reciprocal(total0);
    assert u > 0.0;
    assert posterior1 * total1 == joint1;
    calc {
      posterior1 * mean;
      posterior1 * (u * total1);
      u * (posterior1 * total1);
      u * joint1;
      weight;
    }
    ProductPositive(u, total1);
    CompareFactors(posterior1, mean, ratio, posterior0);
  }

  lemma CompareFactors(a: real, m: real, r: real, c: real)
    requires m > 0.0 && c > 0.0 && a * m == r * c
    ensures a >= c <==> r >= m
  {
    assert (a - c) * m == (r - m) * c;
    SameSign(a - c, m, r - m, c);
  }

  lemma UpdateTotal(ds: seq<Domain>, joint0: Domain -> real, joint1: Domain -> real, posterior0: Domain -> real,
                    ratio: Domain -> real, total0: real)
    requires total0 > 0.0
    requires forall e :: joint1(e) == Mul(ratio(e), joint0(e)) && posterior0(e) == joint0(e) / total0
    ensures Sum(ds, Weighted(ratio, posterior0)) == (1.0 / total0) * Sum(ds, joint1)
  {
    forall e | e in ds ensures Weighted(ratio, posterior0)(e) == (1.0 / total0) * joint1(e) {
      UpdateWeight(ratio(e), joint0(e), joint1(e), posterior0(e), total0);
    }
    SumScaled(ds, joint1, Weighted(ratio, posterior0), 1.0 / total0);
  }

  /** Every posterior is multiplied by its ratio and divided by the mean of the ratios under the posteriors before. */
  lemma Update(ds: seq<Domain>, joint0: Domain -> real, joint1: Domain -> real, posterior0: Domain -> real,
               posterior1: Domain -> real, ratio: Domain -> real, d: Domain)
    requires Sum(ds, joint0) > 0.0 && Sum(ds, joint1) > 0.0 && joint1(d) > 0.0 && posterior0(d) > 0.0
    requires forall e :: joint1(e) == Mul(ratio(e), joint0(e)) && posterior0(e) == joint0(e) / Sum(ds, joint0)
    requires posterior1(d) == joint1(d) / Sum(ds, joint1)
    ensures Mul(posterior1(d), Sum(ds, Weighted(ratio, posterior0))) == Mul(ratio(d), posterior0(d))
    ensures posterior1(d) >= posterior0(d) <==> ratio(d) >= Sum(ds, Weighted(ratio, posterior0))
  {
    var total0, total1 := Sum(ds, joint0), Sum(ds, joint1);
    UpdateTotal(ds, joint0, joint1, posterior0, ratio, total0);
    UpdateWeight(ratio(d), joint0(d), joint1(d), posterior0(d), total0);
    UpdateOne(ratio(d), Mul(ratio(d), posterior0(d)), posterior0(d), posterior1(d), joint1(d), total0, total1,
              Sum(ds, Weighted(ratio, posterior0)));
  }

  /** The mean of the ratios of a signal under the posteriors. */
  ghost function MeanRatio(b: Attributor, elevated: set<Signal>, s: Signal): real {
    Sum(ALL_DOMAINS, Weighted(Ratios(b, s), Posteriors(b, elevated)))
  }

  lemma JointsByRatio(b: Attributor, elevated: set<Signal>, s: Signal)
    requires s !in elevated && s in b.likelihoods
    ensures forall e :: Joints(b, elevated + {s})(e) == Mul(Ratios(b, s)(e), Joints(b, elevated)(e))
  {
    JointsSplit(b, elevated, s);
    forall e ensures Joints(b, elevated + {s})(e) == Mul(Ratios(b, s)(e), Joints(b, elevated)(e)) {
      SplitRatio(Joints(b, elevated)(e), Joints(b, elevated + {s})(e), Effectives(b, s)(e));
    }
  }

  /** Bayes' rule for one more elevated signal, and so the exact condition under which a posterior does not fall: the
      domain's ratio is at least the mean ratio under the posteriors before. */
  lemma ElevationUpdatesPosterior(b: Attributor, elevated: set<Signal>, s: Signal, d: Domain)
    requires s !in elevated && s in b.likelihoods
    ensures Mul(PosteriorOf(b, elevated + {s}, d), MeanRatio(b, elevated, s)) ==
            Mul(Ratio(Effective(b, s, d)), PosteriorOf(b, elevated, d))
    ensures PosteriorOf(b, elevated + {s}, d) >= PosteriorOf(b, elevated, d) <==>
              Ratio(Effective(b, s, d)) >= MeanRatio(b, elevated, s)
  {
    EvidencePositive(b, elevated);
    EvidencePositive(b, elevated + {s});
    JointPositive(b, elevated + {s}, d);
    PosteriorsAreADistribution(b, elevated);
    JointsByRatio(b, elevated, s);
    Update(ALL_DOMAINS, Joints(b, elevated), Joints(b, elevated + {s}), Posteriors(b, elevated),
           Posteriors(b, elevated + {s}), Ratios(b, s), d);
  }

  lemma RatioOrder(p: real, q: real)
    requires 0.0 < p <= q < 1.0
    ensures Ratio(p) <= Ratio(q)
  {
    var r, t := Ratio(p), Ratio(q);
    assert r * (1.0 - p) == p && t * (1.0 - q) == q;
    assert t > 0.0;
    ProductPositive(t, q - p);
    CrossOver(r, t, p, q);
  }

  lemma CrossOver(r: real, t: real, p: real, q: real)
    requires p <= q && p < 1.0 && r * (1.0 - p) == p && t * (1.0 - q) == q && t * (q - p) >= 0.0
    ensures r <= t
  {
    assert t * (1.0 - p) == t * (1.0 - q) + t * (q - p);
    assert (t - r) * (1.0 - p) == t * (1.0 - p) - r * (1.0 - p);
    SignOfFactor(t - r, 1.0 - p);
  }

  lemma LargerFactor(a: real, b: real, w: real)
    requires a >= b && w > 0.0
    ensures a * w >= 1.0 * Mul(b, w)
  {
    ProductPositive(a - b, w);
    assert (a - b) * w == a * w - b * w;
  }

  lemma MeanBelowTop(ds: seq<Domain>, ratio: Domain -> real, posterior: Domain -> real, top: real)
    requires Sum(ds, posterior) == 1.0
    requires forall e :: posterior(e) > 0.0 && ratio(e) <= top
    ensures Sum(ds, Weighted(ratio, posterior)) <= top
  {
    forall e | e in ds ensures top * posterior(e) >= 1.0 * Weighted(ratio, posterior)(e) {
      LargerFactor(top, ratio(e), posterior(e));
    }
    WeightedSums(ds, posterior, Weighted(ratio, posterior), top, 1.0);
  }

  /** So a domain that explains a signal at least as well as every other gains when the signal becomes elevated. */
  lemma BestExplanationGains(b: Attributor, elevated: set<Signal>, s: Signal, d: Domain)
    requires s !in elevated && s in b.likelihoods
    requires forall e :: Effective(b, s, d) >= Effective(b, s, e)
    ensures PosteriorOf(b, elevated + {s}, d) >= PosteriorOf(b, elevated, d)
  {
    forall e ensures Ratios(b, s)(e) <= Ratio(Effective(b, s, d)) {
      assert Effective(b, s, d) >= Effective(b, s, e);
      RatioOrder(Effective(b, s, e), Effective(b, s, d));
    }
    PosteriorsAreADistribution(b, elevated);
    MeanBelowTop(ALL_DOMAINS, Ratios(b, s), Posteriors(b, elevated), Ratio(Effective(b, s, d)));
    ElevationUpdatesPosterior(b, elevated, s, d);
  }
}
