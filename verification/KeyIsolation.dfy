/** Keys of a start/end probe do not interfere with each other, except through the map being full. */
module KeyIsolation {
  import opened EventCodec
  import opened LatencyProbe

  function Project(h: seq<Event>, key: Key): seq<Event> {
    if |h| == 0 then []
    else Project(h[..|h|-1], key) + (if h[|h|-1].key == key then [h[|h|-1]] else [])
  }

  /** The records submitted for one key. */
  function EmissionsFor(p: Program, h: seq<Event>, key: Key): seq<BpfEvent> {
    if |h| == 0 then []
    else
      var o := OutcomeOf(p, Replay(p, h[..|h|-1]), h[|h|-1]);
      EmissionsFor(p, h[..|h|-1], key) + (if o.Emitted? && h[|h|-1].key == key then [o.event] else [])
  }

  lemma {:induction false} ProjectKeys(h: seq<Event>, key: Key)
    ensures forall i | 0 <= i < |Project(h, key)| :: Project(h, key)[i].key == key
  {
    if |h| > 0 {
      ProjectKeys(h[..|h|-1], key);
    }
  }

  lemma {:induction false} OneKeyMap(p: Program, h: seq<Event>, key: Key)
    requires forall i | 0 <= i < |h| :: h[i].key == key
    ensures forall k | k in Replay(p, h) :: k == key
  {
    if |h| > 0 {
      OneKeyMap(p, h[..|h|-1], key);
    }
  }

  /** No start of `key` ever met a full map. */
  predicate NeverRefused(p: Program, h: seq<Event>, key: Key) {
    |h| == 0 ||
    (NeverRefused(p, h[..|h|-1], key) &&
     (h[|h|-1].key == key ==> !OutcomeOf(p, Replay(p, h[..|h|-1]), h[|h|-1]).Refused?))
  }

  /** The entry and the records of `key` are those of its own events alone. */
  predicate Isolated(p: Program, h: seq<Event>, key: Key) {
    var m, own := Replay(p, h), Replay(p, Project(h, key));
    && (key in m <==> key in own)
    && (key in m ==> m[key] == own[key])
    && EmissionsFor(p, h, key) == Emissions(p, Project(h, key))
  }

  /** `key` was isolated all along. */
  predicate AlwaysIsolated(p: Program, h: seq<Event>, key: Key) {
    Isolated(p, h, key) && (|h| > 0 ==> AlwaysIsolated(p, h[..|h|-1], key))
  }

  /** What happens to one key depends on the events of other keys only through the map being full: the key is isolated
      all along if and only if none of its starts was refused. */
  lemma {:induction false} KeysDoNotInterfere(p: Program, h: seq<Event>, key: Key)
    ensures AlwaysIsolated(p, h, key) <==> NeverRefused(p, h, key)
  {
    if |h| > 0 {
      var init, e := h[..|h|-1], h[|h|-1];
      KeysDoNotInterfere(p, init, key);
      if e.key == key {
        RefusalSets(p, h, key);
        OneKeyStep(p, h, key);
      } else {
        OtherKeyStep(p, h, key);
      }
    }
  }

  /** A refused start would have been recorded, had there been no other keys. */
  lemma RefusalSets(p: Program, h: seq<Event>, key: Key)
    requires |h| > 0 && h[|h|-1].key == key
    ensures Isolated(p, h[..|h|-1], key) && OutcomeOf(p, Replay(p, h[..|h|-1]), h[|h|-1]).Refused? ==>
              !Isolated(p, h, key)
  {
    var init, e := h[..|h|-1], h[|h|-1];
    if Isolated(p, init, key) && OutcomeOf(p, Replay(p, init), e).Refused? {
      var own := Project(init, key);
      assert Project(h, key) == own + [e];
      ReplayAppend(p, own, e);
      ProjectKeys(init, key);
      OneKeyMap(p, own, key);
      RefusedOnlyInCompany(p, Replay(p, init), Replay(p, own), e);
    }
  }

  lemma RefusedOnlyInCompany(p: Program, m: Inflight, own: Inflight, e: Event)
    requires OutcomeOf(p, m, e).Refused?
    requires e.key !in own && (forall k | k in own :: k == e.key)
    ensures e.key !in InflightAfter(p, m, e) && e.key in InflightAfter(p, own, e)
  {
    SmallMap(own, e.key);
  }

  lemma OtherKeyStep(p: Program, h: seq<Event>, key: Key)
    requires |h| > 0 && h[|h|-1].key != key
    ensures Isolated(p, h[..|h|-1], key) ==> Isolated(p, h, key)
  {
    var init, e := h[..|h|-1], h[|h|-1];
    assert Project(h, key) == Project(init, key);
    OtherKeyUntouched(p, Replay(p, init), e, key);
    assert EmissionsFor(p, h, key) == EmissionsFor(p, init, key);
  }

  lemma OtherKeyUntouched(p: Program, m: Inflight, e: Event, key: Key)
    requires e.key != key
    ensures key in InflightAfter(p, m, e) <==> key in m
    ensures key in m ==> InflightAfter(p, m, e)[key] == m[key]
  {
  }

  lemma SmallMap(m: Inflight, key: Key)
    requires (forall k | k in m :: k == key) && key !in m
    ensures |m| == 0
  {
    assert m.Keys == {};
  }

  lemma OneKeyStep(p: Program, h: seq<Event>, key: Key)
    requires |h| > 0 && h[|h|-1].key == key
    ensures Isolated(p, h[..|h|-1], key) && !OutcomeOf(p, Replay(p, h[..|h|-1]), h[|h|-1]).Refused? ==>
              Isolated(p, h, key)
  {
    var init, e := h[..|h|-1], h[|h|-1];
    if Isolated(p, init, key) && !OutcomeOf(p, Replay(p, init), e).Refused? {
      var own := Project(init, key);
      assert Project(h, key) == own + [e];
      ReplayAppend(p, own, e);
      ProjectKeys(init, key);
      OneKeyMap(p, own, key);
      SameOutcome(p, Replay(p, init), Replay(p, own), e);
    }
  }

  lemma SameOutcome(p: Program, m: Inflight, own: Inflight, e: Event)
    requires e.key in m <==> e.key in own
    requires e.key in m ==> m[e.key] == own[e.key]
    requires forall k | k in own :: k == e.key
    requires !OutcomeOf(p, m, e).Refused?
    ensures OutcomeOf(p, own, e) == OutcomeOf(p, m, e)
    ensures e.key in InflightAfter(p, m, e) <==> e.key in InflightAfter(p, own, e)
    ensures e.key in InflightAfter(p, m, e) ==> InflightAfter(p, m, e)[e.key] == InflightAfter(p, own, e)[e.key]
  {
    if e.key !in own {
      SmallMap(own, e.key);
    }
  }
}
