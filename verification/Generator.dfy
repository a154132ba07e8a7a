/** The probe generator's enabled set and its shedding order. */
module Generator {
  import opened Basics
  import opened Signals

  datatype Shed = Nothing | Shed(signal: Signal)

  function AsSet(s: seq<Signal>): set<Signal> { set x | x in s }

  predicate NoDuplicates(s: seq<Signal>) { forall i, j | 0 <= i < j < |s| :: s[i] != s[j] }

  /** The first entry of an order that is enabled. */
  function FirstEnabled(order: seq<Signal>, enabled: set<Signal>): Shed {
    if |order| == 0 then Nothing
    else if order[0] in enabled then Shed(order[0])
    else FirstEnabled(order[1..], enabled)
  }

  function AfterShed(order: seq<Signal>, enabled: set<Signal>): set<Signal> {
    var s := FirstEnabled(order, enabled);
    if s.Shed? then enabled - {s.signal} else enabled
  }

  class Generator {
    const mode: Mode
    var enabled: set<Signal>

    ghost predicate Valid()
      reads this
    {
      enabled <= AsSet(SupportedSignals(mode))
    }

    constructor (mode: Mode, signalSet: seq<Signal>)
      ensures Valid() && this.mode == mode && enabled == Selection(mode, signalSet)
    {
      this.mode := mode;
      enabled := {};
      new;
      SetSignals(signalSet);
    }

    /** Replaces the enabled set; an empty request means everything the mode supports. */
    method SetSignals(signalSet: seq<Signal>)
      modifies this
      ensures Valid() && enabled == Selection(mode, signalSet)
      ensures forall s :: s in enabled <==> s in SupportedSignals(mode) && (signalSet == [] || s in signalSet)
    {
      enabled := {};
      var allowed := AsSet(SupportedSignals(mode));
      if |signalSet| == 0 {
        enabled := allowed;
        return;
      }
      for i := 0 to |signalSet|
        invariant enabled == AsSet(signalSet[..i]) * allowed
      {
        if signalSet[i] in allowed {
          enabled := enabled + {signalSet[i]};
        }
      }
      assert signalSet[..|signalSet|] == signalSet;
    }

    method Disable(signal: Signal) returns (disabled: bool)
      requires Valid()
      modifies this
      ensures Valid()
      ensures disabled <==> signal in old(enabled)
      ensures enabled == old(enabled) - {signal}
    {
      if signal !in enabled {
        return false;
      }
      enabled := enabled - {signal};
      disabled := true;
    }

    /** The shedding loop over the disable order. */
    method DisableHighestCost() returns (shed: Shed)
      requires Valid()
      modifies this
      ensures Valid()
      ensures shed == FirstEnabled(DISABLE_ORDER, old(enabled))
      ensures enabled == AfterShed(DISABLE_ORDER, old(enabled))
    {
      for i := 0 to |DISABLE_ORDER|
        invariant enabled == old(enabled)
        invariant FirstEnabled(DISABLE_ORDER, enabled) == FirstEnabled(DISABLE_ORDER[i..], enabled)
      {
        if DISABLE_ORDER[i] in enabled {
          shed := Shed(DISABLE_ORDER[i]);
          enabled := enabled - {DISABLE_ORDER[i]};
          return;
        }
      }
      shed := Nothing;
    }
  }

  function Selection(mode: Mode, signalSet: seq<Signal>): set<Signal> {
    if |signalSet| == 0 then AsSet(SupportedSignals(mode)) else AsSet(signalSet) * AsSet(SupportedSignals(mode))
  }

  // ---- Repeated shedding ----

  /** The signals removed by `k` shedding calls, in call order. */
  function Removed(order: seq<Signal>, enabled: set<Signal>, k: nat): seq<Signal> {
    if k == 0 then []
    else
      var s := FirstEnabled(order, enabled);
      (if s.Shed? then [s.signal] else []) + Removed(order, AfterShed(order, enabled), k - 1)
  }

  function Remaining(order: seq<Signal>, enabled: set<Signal>, k: nat): set<Signal> {
    if k == 0 then enabled else Remaining(order, AfterShed(order, enabled), k - 1)
  }

  /** The part of the order that is enabled. */
  function Restricted(order: seq<Signal>, enabled: set<Signal>): seq<Signal> {
    if |order| == 0 then []
    else (if order[0] in enabled then [order[0]] else []) + Restricted(order[1..], enabled)
  }

  lemma {:induction false} FirstOfRestricted(order: seq<Signal>, enabled: set<Signal>)
    ensures FirstEnabled(order, enabled) ==
            if Restricted(order, enabled) == [] then Nothing else Shed(Restricted(order, enabled)[0])
  {
    if |order| > 0 {
      if order[0] in enabled {
        assert Restricted(order, enabled)[0] == order[0];
      } else {
        FirstOfRestricted(order[1..], enabled);
        assert Restricted(order, enabled) == Restricted(order[1..], enabled);
      }
    }
  }

  lemma {:induction false} RestrictedWithout(order: seq<Signal>, enabled: set<Signal>, s: Signal)
    requires s !in order
    ensures Restricted(order, enabled - {s}) == Restricted(order, enabled)
  {
    if |order| > 0 {
      assert s != order[0] && s !in order[1..];
      RestrictedWithout(order[1..], enabled, s);
    }
  }

  /** One shedding call removes the head of the restricted order. */
  lemma {:induction false} ShedTakesHead(order: seq<Signal>, enabled: set<Signal>)
    requires NoDuplicates(order) && Restricted(order, enabled) != []
    ensures Restricted(order, AfterShed(order, enabled)) == Restricted(order, enabled)[1..]
  {
    var rest := order[1..];
    assert NoDuplicates(rest);
    if order[0] in enabled {
      assert order[0] !in rest;
      RestrictedWithout(rest, enabled, order[0]);
    } else {
      assert Restricted(order, enabled) == Restricted(rest, enabled);
      ShedTakesHead(rest, enabled);
      assert AfterShed(order, enabled) == AfterShed(rest, enabled);
      assert Restricted(order, AfterShed(rest, enabled)) == Restricted(rest, AfterShed(rest, enabled));
    }
  }

  /** `k` calls remove exactly the first `min(k, m)` of the `m` enabled entries of the order. */
  lemma {:induction false} SheddingFollowsOrder(order: seq<Signal>, enabled: set<Signal>, k: nat)
    requires NoDuplicates(order)
    ensures var r := Restricted(order, enabled);
            && Removed(order, enabled, k) == r[..Min(k, |r|)]
            && Restricted(order, Remaining(order, enabled, k)) == r[Min(k, |r|)..]
    decreases k
  {
    var r := Restricted(order, enabled);
    if k > 0 {
      FirstOfRestricted(order, enabled);
      SheddingFollowsOrder(order, AfterShed(order, enabled), k - 1);
      if r != [] {
        ShedTakesHead(order, enabled);
        var m := Min(k, |r|);
        assert r[..m] == [r[0]] + r[1..][..m-1] && r[m..] == r[1..][m-1..];
      }
    }
  }

  lemma TablesFit(mode: Mode)
    ensures NoDuplicates(DISABLE_ORDER)
    ensures AsSet(SupportedSignals(mode)) <= AsSet(DISABLE_ORDER)
  {
    forall s | s in SupportedSignals(mode) ensures s in DISABLE_ORDER {
      OrderCovers(s);
    }
  }

  lemma OrderCovers(s: Signal)
    requires !s.OtherSignal?
    ensures s in DISABLE_ORDER
  {
    assert DISABLE_ORDER[0] == TlsHandshakeMs && DISABLE_ORDER[1] == SyscallLatencyMs;
    assert DISABLE_ORDER[2] == RunqueueDelayMs && DISABLE_ORDER[3] == DiskIoLatencyMs;
    assert DISABLE_ORDER[4] == ConnectLatencyMs && DISABLE_ORDER[5] == MemReclaimLatencyMs;
    assert DISABLE_ORDER[6] == CpuStealPct && DISABLE_ORDER[7] == DnsLatencyMs;
    assert DISABLE_ORDER[8] == TcpRetransmits && DISABLE_ORDER[9] == CfsThrottledMs;
    assert DISABLE_ORDER[10] == ConnectErrors && DISABLE_ORDER[11] == TlsHandshakeFails;
  }

  lemma OrderTail(order: seq<Signal>, enabled: set<Signal>)
    requires |order| > 0 && NoDuplicates(order) && enabled <= AsSet(order)
    ensures NoDuplicates(order[1..]) && order[0] !in order[1..]
    ensures enabled - {order[0]} <= AsSet(order[1..])
  {
    assert order == [order[0]] + order[1..];
  }

  lemma SizeWithout(enabled: set<Signal>, s: Signal)
    ensures |enabled| == |enabled - {s}| + (if s in enabled then 1 else 0)
  {
    if s in enabled {
      assert enabled == (enabled - {s}) + {s};
    } else {
      assert enabled == enabled - {s};
    }
  }

  lemma {:induction false} RestrictedSize(order: seq<Signal>, enabled: set<Signal>)
    requires NoDuplicates(order) && enabled <= AsSet(order)
    ensures |Restricted(order, enabled)| == |enabled|
  {
    if |order| == 0 {
      assert enabled == {};
    } else {
      OrderTail(order, enabled);
      RestrictedSize(order[1..], enabled - {order[0]});
      RestrictedWithout(order[1..], enabled, order[0]);
      SizeWithout(enabled, order[0]);
    }
  }

  /** From any set a generator can reach, shedding never leaves the mode's signals, follows the disable order, and
      empties the set in exactly as many calls as it has members. */
  lemma SheddingEmptiesGenerator(mode: Mode, enabled: set<Signal>, k: nat)
    requires enabled <= AsSet(SupportedSignals(mode))
    ensures |Restricted(DISABLE_ORDER, enabled)| == |enabled|
    ensures Removed(DISABLE_ORDER, enabled, k) == Restricted(DISABLE_ORDER, enabled)[..Min(k, |enabled|)]
    ensures Remaining(DISABLE_ORDER, enabled, k) <= enabled
    ensures Remaining(DISABLE_ORDER, enabled, k) == {} <==> k >= |enabled|
  {
    TablesFit(mode);
    SheddingFollowsOrder(DISABLE_ORDER, enabled, k);
    RestrictedSize(DISABLE_ORDER, enabled);
    RemainingShrinks(DISABLE_ORDER, enabled, k);
    RestrictedSize(DISABLE_ORDER, Remaining(DISABLE_ORDER, enabled, k));
  }

  lemma {:induction false} RemainingShrinks(order: seq<Signal>, enabled: set<Signal>, k: nat)
    ensures Remaining(order, enabled, k) <= enabled
    decreases k
  {
    if k > 0 {
      RemainingShrinks(order, AfterShed(order, enabled), k - 1);
    }
  }
}
