/** Probe lifecycle: which probe owns a signal, and who closes what. A probe's links, ring buffer and collection are
    closed together, so each probe carries one count of closings. */
module ProbeManager {
  import opened Signals

  class ProbeSpec {
    const signal: Signal
    var closes: nat

    constructor (signal: Signal)
      ensures this.signal == signal && closes == 0
    {
      this.signal := signal;
      closes := 0;
    }
  }

  /** The outcome of asking the overhead guard. */
  datatype GuardReading = NoGuard | GuardFailed | WithinBudget | Exceeded

  datatype Disabled = NoProbe | Disabled(signal: Signal)

  function FirstRegistered(order: seq<Signal>, probes: map<Signal, ProbeSpec>): Disabled {
    if |order| == 0 then NoProbe
    else if order[0] in probes then Disabled(order[0])
    else FirstRegistered(order[1..], probes)
  }

  /** Which signal is shed: registered, and with no registered one before it in the order. */
  lemma {:induction false} FirstRegisteredMeans(order: seq<Signal>, probes: map<Signal, ProbeSpec>, i: nat)
    requires i < |order| && order[i] in probes && forall j | 0 <= j < i :: order[j] !in probes
    ensures FirstRegistered(order, probes) == Disabled(order[i])
  {
    if i > 0 {
      assert order[0] !in probes;
      FirstRegisteredMeans(order[1..], probes, i - 1);
    }
  }

  lemma {:induction false} NoneRegisteredMeans(order: seq<Signal>, probes: map<Signal, ProbeSpec>)
    ensures FirstRegistered(order, probes) == NoProbe <==> forall s | s in order :: s !in probes
  {
    if |order| > 0 {
      NoneRegisteredMeans(order[1..], probes);
      assert order == [order[0]] + order[1..];
    }
  }

  /** How often something happened to each probe. */
  type Tally = map<ProbeSpec, nat>

  function Times(m: Tally, p: ProbeSpec): nat { if p in m then m[p] else 0 }

  /** Once more for `p`. */
  function Plus(m: Tally, p: ProbeSpec): Tally { m[p := Times(m, p) + 1] }

  /** Once more for each of `ps`. */
  function PlusAll(m: Tally, ps: set<ProbeSpec>): Tally {
    map p | p in m.Keys + ps :: Times(m, p) + (if p in ps then 1 else 0)
  }

  type Probes = map<Signal, ProbeSpec>

  /** The probes attached to some signal. */
  function Specs(probes: Probes): (r: set<ProbeSpec>)
    ensures forall s | s in probes :: probes[s] in r
  {
    set s | s in probes :: probes[s]
  }

  /** `p` currently holds its signal. */
  predicate Holds(probes: Probes, p: ProbeSpec) { p.signal in probes && probes[p.signal] == p }

  /** Every registration of `p` is accounted for: it is still attached, was closed, or was displaced by a later
      registration for the same signal. */
  ghost predicate Accounted(probes: Probes, registered: Tally, displaced: Tally, closed: Tally, p: ProbeSpec) {
    Times(registered, p) == Times(closed, p) + Times(displaced, p) + (if Holds(probes, p) then 1 else 0)
  }

  ghost predicate Balanced(probes: Probes, registered: Tally, displaced: Tally, closed: Tally) {
    && (forall s | s in probes :: probes[s].signal == s && probes[s] in registered)
    && closed.Keys <= registered.Keys
    && displaced.Keys <= registered.Keys
    && (forall p | p in registered :: Accounted(probes, registered, displaced, closed, p))
  }

  /** What is displaced once `spec` takes its signal. */
  function Displacing(probes: Probes, displaced: Tally, spec: ProbeSpec): Tally {
    if spec.signal in probes then Plus(displaced, probes[spec.signal]) else displaced
  }

  lemma RegisterAccounts(probes: Probes, registered: Tally, displaced: Tally, closed: Tally, spec: ProbeSpec,
                         p: ProbeSpec)
    requires Balanced(probes, registered, displaced, closed) && (p in registered || p == spec)
    ensures Accounted(probes[spec.signal := spec], Plus(registered, spec), Displacing(probes, displaced, spec), closed,
                      p)
  {
    var held, loses := Holds(probes, p), spec.signal in probes && probes[spec.signal] == p;
    assert Accounted(probes, registered, displaced, closed, p);
    assert Times(Plus(registered, spec), p) == Times(registered, p) + (if p == spec then 1 else 0);
    assert Times(Displacing(probes, displaced, spec), p) == Times(displaced, p) + (if loses then 1 else 0);
    assert Holds(probes[spec.signal := spec], p) <==> p == spec || (held && !loses);
  }

  lemma RegisterKeepsBalance(probes: Probes, registered: Tally, displaced: Tally, closed: Tally, spec: ProbeSpec)
    requires Balanced(probes, registered, displaced, closed)
    ensures Balanced(probes[spec.signal := spec], Plus(registered, spec), Displacing(probes, displaced, spec), closed)
  {
    var registered' := Plus(registered, spec);
    assert registered'.Keys == registered.Keys + {spec};
    forall p | p in registered'
      ensures Accounted(probes[spec.signal := spec], registered', Displacing(probes, displaced, spec), closed, p)
    {
      RegisterAccounts(probes, registered, displaced, closed, spec, p);
    }
  }

  lemma RemovalAccounts(probes: Probes, registered: Tally, displaced: Tally, closed: Tally, signal: Signal,
                        p: ProbeSpec)
    requires Balanced(probes, registered, displaced, closed) && signal in probes && p in registered
    ensures Accounted(probes - {signal}, registered, displaced, Plus(closed, probes[signal]), p)
  {
    assert Accounted(probes, registered, displaced, closed, p);
    assert Times(Plus(closed, probes[signal]), p) == Times(closed, p) + (if p == probes[signal] then 1 else 0);
    assert Holds(probes - {signal}, p) <==> Holds(probes, p) && p != probes[signal];
  }

  lemma RemovalKeepsBalance(probes: Probes, registered: Tally, displaced: Tally, closed: Tally, signal: Signal)
    requires Balanced(probes, registered, displaced, closed) && signal in probes
    ensures Balanced(probes - {signal}, registered, displaced, Plus(closed, probes[signal]))
  {
    var closed' := Plus(closed, probes[signal]);
    assert closed'.Keys == closed.Keys + {probes[signal]};
    forall p | p in registered ensures Accounted(probes - {signal}, registered, displaced, closed', p) {
      RemovalAccounts(probes, registered, displaced, closed, signal, p);
    }
  }

  lemma DetachKeepsBalance(probes: Probes, registered: Tally, displaced: Tally, closed: Tally)
    requires Balanced(probes, registered, displaced, closed)
    ensures var closed' := PlusAll(closed, Specs(probes));
            && Balanced(map[], registered, displaced, closed')
            && forall p | p in registered :: Times(closed', p) == Times(closed, p) + (if Holds(probes, p) then 1 else 0)
  {
    var closed' := PlusAll(closed, Specs(probes));
    forall p ensures p in Specs(probes) <==> Holds(probes, p) {
    }
    forall p | p in registered
      ensures Times(closed', p) == Times(closed, p) + (if Holds(probes, p) then 1 else 0)
      ensures Accounted(map[], registered, displaced, closed', p)
    {
      assert Accounted(probes, registered, displaced, closed, p);
    }
  }

  /** The closings recorded since the first registration are the ones that happened. */
  ghost predicate Counted(registered: Tally, before: map<ProbeSpec, nat>, closed: Tally)
    reads set p | p in registered
  {
    forall p | p in registered :: p in before && p.closes == before[p] + Times(closed, p)
  }

  /** What was known of a probe before its first registration. */
  ghost function Noted(registered: Tally, before: map<ProbeSpec, nat>, spec: ProbeSpec): (r: map<ProbeSpec, nat>)
    reads spec
    ensures forall p | p in registered && p in before :: p in r && r[p] == before[p]
  {
    if spec in registered then before else before[spec := spec.closes]
  }

  lemma RegisterKeepsCount(registered: Tally, before: map<ProbeSpec, nat>, closed: Tally, spec: ProbeSpec)
    requires Counted(registered, before, closed) && closed.Keys <= registered.Keys
    ensures Counted(Plus(registered, spec), Noted(registered, before, spec), closed)
  {
    assert spec !in registered ==> Times(closed, spec) == 0;
  }

  class Manager {
    const allowed: set<Signal>
    const disableOrder: seq<Signal>
    var probes: Probes
    ghost var registered: Tally
    ghost var displaced: Tally
    ghost var closed: Tally
    /** How often a probe had been closed when it was first registered. */
    ghost var before: map<ProbeSpec, nat>

    ghost predicate Valid()
      reads this, set p | p in registered
    {
      && probes.Keys <= allowed
      && Balanced(probes, registered, displaced, closed)
      && Counted(registered, before, closed)
    }

    constructor (allowed: seq<Signal>, disableOrder: seq<Signal>)
      ensures Valid() && probes == map[] && registered == map[]
      ensures this.allowed == (set s | s in allowed) && this.disableOrder == disableOrder
    {
      this.allowed := set s | s in allowed;
      this.disableOrder := disableOrder;
      probes := map[];
      registered, displaced, closed, before := map[], map[], map[], map[];
    }

    /** Adds a probe; a probe already there for the signal is displaced without being closed. */
    method Register(spec: ProbeSpec) returns (ok: bool)
      requires Valid()
      modifies this
      ensures Valid()
      ensures ok <==> spec.signal in allowed
      ensures probes == if ok then old(probes)[spec.signal := spec] else old(probes)
      ensures registered == if ok then Plus(old(registered), spec) else old(registered)
      ensures displaced == if ok then Displacing(old(probes), old(displaced), spec) else old(displaced)
      ensures closed == old(closed) && (forall p | p in old(registered) :: before[p] == old(before)[p])
    {
      if spec.signal !in allowed {
        return false;
      }
      NoteRegistration(spec);
      probes := probes[spec.signal := spec];
      ok := true;
    }

    /** The bookkeeping of a registration that is about to happen. */
    ghost method NoteRegistration(spec: ProbeSpec)
      requires Valid()
      modifies this`registered, this`displaced, this`before
      ensures Balanced(probes[spec.signal := spec], registered, displaced, closed)
      ensures Counted(registered, before, closed)
      ensures registered == Plus(old(registered), spec) && before == Noted(old(registered), old(before), spec)
      ensures displaced == Displacing(probes, old(displaced), spec)
    {
      ghost var known, noted := registered, before;
      RegisterKeepsBalance(probes, registered, displaced, closed, spec);
      registered, before := Plus(known, spec), Noted(known, noted, spec);
      RegisterKeepsCount(known, noted, closed, spec);
      displaced := Displacing(probes, displaced, spec);
    }

    method CloseProbe(spec: ProbeSpec)
      modifies spec
      ensures spec.closes == old(spec.closes) + 1
    {
      spec.closes := spec.closes + 1;
    }

    /** Closes the probe of a signal and forgets it. */
    method Remove(signal: Signal)
      requires Valid() && signal in probes
      modifies this`probes, this`closed, probes[signal]
      ensures Valid()
      ensures probes == old(probes) - {signal}
      ensures closed == Plus(old(closed), old(probes)[signal])
      ensures old(probes)[signal].closes == old(probes[signal].closes) + 1
    {
      var spec := probes[signal];
      RemovalKeepsBalance(probes, registered, displaced, closed, signal);
      CloseProbe(spec);
      closed := Plus(closed, spec);
      probes := probes - {signal};
      forall p | p in registered ensures p in before && p.closes == before[p] + Times(closed, p) {
        assert p != spec ==> p.closes == old(p.closes) && Times(closed, p) == Times(old(closed), p);
      }
    }

    method DisableProbe(signal: Signal) returns (disabled: bool)
      requires Valid()
      modifies this`probes, this`closed, if signal in probes then {probes[signal]} else {}
      ensures Valid()
      ensures disabled <==> signal in old(probes)
      ensures probes == old(probes) - {signal}
      ensures closed == if disabled then Plus(old(closed), old(probes)[signal]) else old(closed)
      ensures disabled ==> old(probes)[signal].closes == old(probes[signal].closes) + 1
    {
      if signal !in probes {
        assert probes - {signal} == probes;
        return false;
      }
      Remove(signal);
      disabled := true;
    }

    /** The closing loop of `DetachAll`. */
    method CloseEach(specs: set<ProbeSpec>)
      modifies specs
      ensures forall p | p in specs :: p.closes == old(p.closes) + 1
    {
      var rest := specs;
      while rest != {}
        invariant rest <= specs
        invariant forall p | p in specs :: p.closes == old(p.closes) + (if p in rest then 0 else 1)
        decreases |rest|
      {
        var p :| p in rest;
        CloseProbe(p);
        rest := rest - {p};
      }
    }

    /** Closes every attached probe once and forgets them all. */
    method DetachAll()
      requires Valid()
      modifies this`probes, this`closed, Specs(probes)
      ensures Valid() && probes == map[]
      ensures forall s | s in old(probes) :: old(probes)[s].closes == old(probes[s].closes) + 1
      ensures forall p | p in registered ::
                Times(closed, p) == Times(old(closed), p) + (if Holds(old(probes), p) then 1 else 0)
    {
      DetachKeepsBalance(probes, registered, displaced, closed);
      CloseEach(Specs(probes));
      closed := PlusAll(closed, Specs(probes));
      forall p | p in registered ensures p in before && p.closes == before[p] + Times(closed, p) {
        assert p !in Specs(probes) ==> p.closes == old(p.closes) && Times(closed, p) == Times(old(closed), p);
      }
      probes := map[];
    }

    /** Sheds the first attached probe of the disable order when the guard reports the budget exceeded. */
    method CheckOverhead(reading: GuardReading) returns (shed: Disabled)
      requires Valid()
      modifies this`probes, this`closed, Specs(probes)
      ensures Valid()
      ensures shed == if reading.Exceeded? then FirstRegistered(disableOrder, old(probes)) else NoProbe
      ensures shed.Disabled? ==> shed.signal in old(probes)
      ensures probes == if shed.Disabled? then old(probes) - {shed.signal} else old(probes)
      ensures closed == if shed.Disabled? then Plus(old(closed), old(probes)[shed.signal]) else old(closed)
      ensures forall s | s in old(probes) ::
                old(probes)[s].closes == old(probes[s].closes) + (if shed == Disabled(s) then 1 else 0)
    {
      if !reading.Exceeded? {
        return NoProbe;
      }
      for i := 0 to |disableOrder|
        invariant FirstRegistered(disableOrder, probes) == FirstRegistered(disableOrder[i..], probes)
        invariant Valid() && probes == old(probes) && closed == old(closed)
        invariant forall s | s in probes :: probes[s].closes == old(probes[s].closes)
      {
        if disableOrder[i] in probes {
          Remove(disableOrder[i]);
          return Disabled(disableOrder[i]);
        }
      }
      shed := NoProbe;
    }
  }

  /** As long as a probe is registered at most once it is closed at most once, and never while it is attached; unless
      a later registration displaced it, it is closed exactly when it is no longer attached. */
  lemma ClosedAtMostOnce(m: Manager, p: ProbeSpec)
    requires m.Valid() && Times(m.registered, p) == 1
    ensures p.closes == m.before[p] || (p.closes == m.before[p] + 1 && !Holds(m.probes, p))
    ensures Times(m.displaced, p) == 0 ==> (p.closes == m.before[p] + 1 <==> !Holds(m.probes, p))
  {
  }

  /** Registering a signal again leaves the earlier probe open: it is then neither attached nor closed. */
  lemma DisplacedIsNeverClosed(m: Manager, p: ProbeSpec)
    requires m.Valid() && Times(m.registered, p) == 1
    ensures Times(m.displaced, p) == 1 <==> !Holds(m.probes, p) && p.closes == m.before[p]
  {
  }

  method RegisterBoth(signal: Signal, disableOrder: seq<Signal>)
    returns (manager: Manager, first: ProbeSpec, second: ProbeSpec)
    ensures fresh(manager) && fresh(first) && fresh(second) && first != second
    ensures manager.Valid() && manager.probes == map[signal := second]
    ensures first.closes == 0 && second.closes == 0
  {
    manager := new Manager([signal], disableOrder);
    first := new ProbeSpec(signal);
    second := new ProbeSpec(signal);
    var ok := manager.Register(first);
    ok := manager.Register(second);
  }

  /** And it happens: two probes registered for one signal, everything detached, and the first is still open. */
  method DisplaceAndDetach(signal: Signal, disableOrder: seq<Signal>) returns (first: ProbeSpec, second: ProbeSpec)
    ensures fresh(first) && fresh(second) && first != second
    ensures first.closes == 0 && second.closes == 1
  {
    var manager: Manager;
    manager, first, second := RegisterBoth(signal, disableOrder);
    assert second == manager.probes[signal];
    manager.DetachAll();
  }
}
