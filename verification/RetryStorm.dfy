/** Retry-storm detection: per-pod sliding windows of retransmit times, pruned lazily by whichever call looks at
    them. */
module RetryStorm {
  import opened Basics

  datatype Op = Record(pod: string, ts: int) | Query(pod: string, now: int) | Reset

  type Buckets = map<string, seq<int>>

  /** The events from the first one at or after `cutoff` on. */
  function Pruned(events: seq<int>, cutoff: int): seq<int> {
    if |events| > 0 && events[0] < cutoff then Pruned(events[1..], cutoff) else events
  }

  function BucketOf(m: Buckets, pod: string): seq<int> { if pod in m then m[pod] else [] }

  function After(window: int, m: Buckets, op: Op): Buckets {
    match op
    case Record(pod, ts) => m[pod := Pruned(BucketOf(m, pod) + [ts], ts - window)]
    case Query(pod, now) => if pod in m then m[pod := Pruned(m[pod], now - window)] else m
    case Reset => map[]
  }

  /** The buckets after a whole history of calls. */
  function Replay(window: int, h: seq<Op>): Buckets {
    if |h| == 0 then map[] else After(window, Replay(window, h[..|h|-1]), h[|h|-1])
  }

  lemma ReplayAppend(window: int, h: seq<Op>, op: Op)
    ensures Replay(window, h + [op]) == After(window, Replay(window, h), op)
  {
    assert (h + [op])[..|h|] == h;
  }

  class Detector {
    const window: int
    const threshold: int
    var buckets: Buckets
    ghost var history: seq<Op>

    ghost predicate Valid()
      reads this
    {
      buckets == Replay(window, history)
    }

    constructor (window: int, threshold: int)
      ensures Valid() && history == [] && this.window == window && this.threshold == threshold
    {
      this.window := window;
      this.threshold := threshold;
      buckets := map[];
      history := [];
    }

    /** Counts one event; the answer is whether the pod's window now holds `threshold` of them. */
    method RecordEvent(pod: string, ts: int) returns (storm: bool)
      requires Valid()
      modifies this
      ensures Valid() && history == old(history) + [Record(pod, ts)]
      ensures storm <==> |BucketOf(buckets, pod)| >= threshold
      ensures NotBefore(old(history), pod, ts) ==>
                (storm <==> |Inside(Recorded(old(history), pod) + [ts], ts - window, ts)| >= threshold)
    {
      ReplayAppend(window, history, Record(pod, ts));
      RecordAnswer(window, history, pod, ts);
      history := history + [Record(pod, ts)];
      if pod !in buckets {
        buckets := buckets[pod := []];
      }
      var events := buckets[pod] + [ts];
      events := PruneOld(events, ts, window);
      buckets := buckets[pod := events];
      storm := |events| >= threshold;
    }

    method IsStorm(pod: string, now: int) returns (storm: bool)
      requires Valid()
      modifies this
      ensures Valid() && history == old(history) + [Query(pod, now)]
      ensures storm <==> pod in old(buckets) && |BucketOf(buckets, pod)| >= threshold
      ensures NotBefore(old(history), pod, now) ==>
                (storm <==> Recorded(old(history), pod) != [] &&
                            |Inside(Recorded(old(history), pod), now - window, now)| >= threshold)
    {
      ReplayAppend(window, history, Query(pod, now));
      SeenIfRecorded(window, history, pod);
      if NotBefore(history, pod, now) {
        QueryMatchesNaiveCount(window, history, pod, now);
      }
      history := history + [Query(pod, now)];
      if pod !in buckets {
        return false;
      }
      var events := PruneOld(buckets[pod], now, window);
      buckets := buckets[pod := events];
      storm := |events| >= threshold;
    }

    method CountEvents(pod: string, now: int) returns (n: nat)
      requires Valid()
      modifies this
      ensures Valid() && history == old(history) + [Query(pod, now)]
      ensures n == |BucketOf(buckets, pod)|
      ensures NotBefore(old(history), pod, now) ==> n == |Inside(Recorded(old(history), pod), now - window, now)|
    {
      ReplayAppend(window, history, Query(pod, now));
      if NotBefore(history, pod, now) {
        QueryMatchesNaiveCount(window, history, pod, now);
      }
      history := history + [Query(pod, now)];
      if pod !in buckets {
        return 0;
      }
      var events := PruneOld(buckets[pod], now, window);
      buckets := buckets[pod := events];
      n := |events|;
    }

    method ResetAll()
      requires Valid()
      modifies this
      ensures Valid() && history == old(history) + [Reset]
    {
      ReplayAppend(window, history, Reset);
      history := history + [Reset];
      buckets := map[];
    }
  }

  /** The pruning loop: skip the leading stale events, copy the rest. */
  method PruneOld(events: seq<int>, now: int, window: int) returns (r: seq<int>)
    ensures r == Pruned(events, now - window)
  {
    var cutoff := now - window;
    var start := 0;
    while start < |events| && events[start] < cutoff
      invariant start <= |events|
      invariant Pruned(events[start..], cutoff) == Pruned(events, cutoff)
    {
      start := start + 1;
    }
    if start == 0 {
      return events;
    }
    r := events[start..];
  }

  // ---- The naive account ----

  /** What was recorded for a pod since the last reset, in call order. */
  function Recorded(h: seq<Op>, pod: string): seq<int> {
    if |h| == 0 || h[|h|-1].Reset? then []
    else
      var op := h[|h|-1];
      Recorded(h[..|h|-1], pod) + (if op.Record? && op.pod == pod then [op.ts] else [])
  }

  /** Every time mentioned for a pod since the last reset, by records and queries alike. */
  function Times(h: seq<Op>, pod: string): seq<int> {
    if |h| == 0 || h[|h|-1].Reset? then []
    else
      var op := h[|h|-1];
      Times(h[..|h|-1], pod) + (if op.pod != pod then [] else if op.Record? then [op.ts] else [op.now])
  }

  predicate IsInside(e: int, cutoff: int, now: int) { cutoff <= e <= now }

  /** The events inside the window that ends at `now`, picked one by one. */
  function Inside(events: seq<int>, cutoff: int, now: int): seq<int> {
    if |events| == 0 then []
    else
      var last := events[|events|-1];
      Inside(events[..|events|-1], cutoff, now) + (if IsInside(last, cutoff, now) then [last] else [])
  }

  /** The events from the cutoff on, however late. */
  function Since(events: seq<int>, cutoff: int): seq<int> {
    if |events| == 0 then []
    else Since(events[..|events|-1], cutoff) + (if events[|events|-1] >= cutoff then [events[|events|-1]] else [])
  }

  predicate IsSuffix(a: seq<int>, b: seq<int>) { |a| <= |b| && a == b[|b|-|a|..] }

  lemma {:induction false} PrunedIsSuffix(events: seq<int>, cutoff: int)
    ensures IsSuffix(Pruned(events, cutoff), events)
    ensures Pruned(events, cutoff) != [] ==> Pruned(events, cutoff)[0] >= cutoff
  {
    if |events| > 0 && events[0] < cutoff {
      PrunedIsSuffix(events[1..], cutoff);
    }
  }

  /** What one call does to the bucket of one pod. */
  function BucketAfter(window: int, b: seq<int>, op: Op, pod: string): seq<int> {
    if op.Reset? then []
    else if op.pod != pod then b
    else if op.Record? then Pruned(b + [op.ts], op.ts - window)
    else Pruned(b, op.now - window)
  }

  lemma SuffixStep(window: int, b: seq<int>, recorded: seq<int>, op: Op, pod: string)
    requires IsSuffix(b, recorded) && !op.Reset?
    ensures IsSuffix(BucketAfter(window, b, op, pod), recorded + (if op.Record? && op.pod == pod then [op.ts] else []))
  {
    if op.pod == pod {
      if op.Record? {
        PrunedIsSuffix(b + [op.ts], op.ts - window);
      } else {
        PrunedIsSuffix(b, op.now - window);
      }
    }
    assert recorded + [] == recorded;
  }

  /** For arbitrary timestamps a bucket is a suffix of what was recorded for its pod. */
  lemma {:induction false} BucketIsSuffix(window: int, h: seq<Op>, pod: string)
    ensures IsSuffix(BucketOf(Replay(window, h), pod), Recorded(h, pod))
  {
    if |h| > 0 {
      if !h[|h|-1].Reset? {
        var init := h[..|h|-1];
        BucketIsSuffix(window, init, pod);
        SuffixStep(window, BucketOf(Replay(window, init), pod), Recorded(init, pod), h[|h|-1], pod);
      }
    }
  }

  /** A stale event at `j` hides behind a fresh one at `i`. */
  predicate Hides(events: seq<int>, cutoff: int, i: int, j: int) {
    0 <= i < j < |events| && events[i] >= cutoff && events[j] < cutoff
  }

  ghost predicate StaleFirst(events: seq<int>, cutoff: int) { forall i, j :: !Hides(events, cutoff, i, j) }

  /** Looking only at the front is exact precisely when no stale event hides behind a fresh one. */
  lemma {:induction false} PruneExactly(events: seq<int>, cutoff: int)
    ensures Pruned(events, cutoff) == Since(events, cutoff) <==> StaleFirst(events, cutoff)
    ensures |Since(events, cutoff)| <= |Pruned(events, cutoff)|
    ensures |Since(events, cutoff)| == |Pruned(events, cutoff)| <==> StaleFirst(events, cutoff)
  {
    if |events| == 0 {
    } else if events[0] < cutoff {
      PruneExactly(events[1..], cutoff);
      SinceFront(events, cutoff);
      StaleFront(events, cutoff);
    } else {
      FullSince(events, cutoff);
      FreshFront(events, cutoff);
    }
  }

  lemma StaleFront(events: seq<int>, cutoff: int)
    requires |events| > 0 && events[0] < cutoff
    ensures StaleFirst(events, cutoff) <==> StaleFirst(events[1..], cutoff)
  {
    forall i, j ensures Hides(events[1..], cutoff, i, j) <==> Hides(events, cutoff, i + 1, j + 1) && i >= 0 {
    }
    forall i, j ensures Hides(events, cutoff, i, j) <==> Hides(events[1..], cutoff, i - 1, j - 1) {
    }
  }

  lemma FreshFront(events: seq<int>, cutoff: int)
    requires |events| > 0 && events[0] >= cutoff
    ensures StaleFirst(events, cutoff) <==> forall j | 0 <= j < |events| :: events[j] >= cutoff
  {
    forall j | 0 <= j < |events| ensures Hides(events, cutoff, 0, j) <==> events[j] < cutoff {
    }
  }

  lemma {:induction false} SinceFront(events: seq<int>, cutoff: int)
    requires |events| > 0
    ensures Since(events, cutoff) ==
            (if events[0] >= cutoff then [events[0]] else []) + Since(events[1..], cutoff)
  {
    var n := |events| - 1;
    if n > 0 {
      SinceFront(events[..n], cutoff);
      assert events[..n][1..] == events[1..][..n-1];
    }
  }

  lemma {:induction false} FullSince(events: seq<int>, cutoff: int)
    ensures |Since(events, cutoff)| <= |events|
    ensures |Since(events, cutoff)| == |events| <==> forall j | 0 <= j < |events| :: events[j] >= cutoff
    ensures |Since(events, cutoff)| == |events| <==> Since(events, cutoff) == events
  {
    if |events| > 0 {
      FullSince(events[..|events|-1], cutoff);
      assert events == events[..|events|-1] + [events[|events|-1]];
    }
  }

  /** Pruning early, before more is appended, makes no difference to a later and stricter pruning. */
  lemma {:induction false} PruneEarlier(events: seq<int>, tail: seq<int>, a: int, b: int)
    requires a <= b
    ensures Pruned(Pruned(events, a) + tail, b) == Pruned(events + tail, b)
  {
    if |events| > 0 && events[0] < a {
      PruneEarlier(events[1..], tail, a, b);
      assert (events + tail)[1..] == events[1..] + tail;
    }
  }

  lemma {:induction false} RecordedWithinTimes(h: seq<Op>, pod: string)
    requires Nondecreasing(Times(h, pod))
    ensures Nondecreasing(Recorded(h, pod))
    ensures Recorded(h, pod) != [] ==> Times(h, pod) != []
    ensures forall i | 0 <= i < |Recorded(h, pod)| :: Recorded(h, pod)[i] <= Times(h, pod)[|Times(h, pod)|-1]
  {
    if |h| > 0 && !h[|h|-1].Reset? {
      var init, op := h[..|h|-1], h[|h|-1];
      TimesPrefix(h, pod);
      RecordedWithinTimes(init, pod);
      if op.pod == pod {
        WithinStep(Recorded(init, pod), Times(init, pod), if op.Record? then op.ts else op.now);
        assert Times(h, pod) == Times(init, pod) + [if op.Record? then op.ts else op.now];
        assert Recorded(h, pod) == Recorded(init, pod) + (if op.Record? then [op.ts] else []);
      } else {
        assert Recorded(h, pod) == Recorded(init, pod) && Times(h, pod) == Times(init, pod);
      }
    }
  }

  lemma WithinStep(recorded: seq<int>, times: seq<int>, t: int)
    requires Nondecreasing(recorded) && Nondecreasing(times + [t]) && (recorded != [] ==> times != [])
    requires forall i | 0 <= i < |recorded| :: recorded[i] <= times[|times|-1]
    ensures Nondecreasing(recorded + [t])
    ensures forall i | 0 <= i < |recorded| :: recorded[i] <= t
  {
    if times != [] {
      assert (times + [t])[|times|-1] <= (times + [t])[|times|];
    }
  }

  lemma TimesPrefix(h: seq<Op>, pod: string)
    requires |h| > 0 && !h[|h|-1].Reset? && Nondecreasing(Times(h, pod))
    ensures Nondecreasing(Times(h[..|h|-1], pod))
    ensures var before, now := Times(h[..|h|-1], pod), Times(h, pod);
            before != [] ==> now != [] && before[|before|-1] <= now[|now|-1]
  {
    var before, now := Times(h[..|h|-1], pod), Times(h, pod);
    assert forall i | 0 <= i < |before| :: before[i] == now[i];
  }

  /** `b` is the record pruned at the latest time mentioned. */
  predicate IsPrunedRecord(window: int, b: seq<int>, recorded: seq<int>, times: seq<int>) {
    if times == [] then b == [] && recorded == []
    else b == Pruned(recorded, times[|times|-1] - window)
  }

  lemma PruneNow(window: int, b: seq<int>, recorded: seq<int>, times: seq<int>, tail: seq<int>, now: int)
    requires IsPrunedRecord(window, b, recorded, times)
    requires times != [] ==> times[|times|-1] <= now
    ensures Pruned(b + tail, now - window) == Pruned(recorded + tail, now - window)
  {
    if times != [] {
      PruneEarlier(recorded, tail, times[|times|-1] - window, now - window);
    }
  }

  lemma PrunedRecordStep(window: int, b: seq<int>, recorded: seq<int>, times: seq<int>, op: Op)
    requires IsPrunedRecord(window, b, recorded, times) && !op.Reset?
    requires times != [] ==> times[|times|-1] <= (if op.Record? then op.ts else op.now)
    ensures IsPrunedRecord(window, BucketAfter(window, b, op, op.pod), recorded + (if op.Record? then [op.ts] else []),
                           times + [if op.Record? then op.ts else op.now])
  {
    if op.Record? {
      PruneNow(window, b, recorded, times, [op.ts], op.ts);
    } else {
      PruneNow(window, b, recorded, times, [], op.now);
      assert b + [] == b && recorded + [] == recorded;
    }
  }

  /** With a clock that never runs backwards for the pod, the bucket is the record of the pod pruned at the latest
      time mentioned. */
  lemma {:induction false} BucketIsPrunedRecord(window: int, h: seq<Op>, pod: string)
    requires Nondecreasing(Times(h, pod))
    ensures IsPrunedRecord(window, BucketOf(Replay(window, h), pod), Recorded(h, pod), Times(h, pod))
  {
    if |h| > 0 {
      var init, op := h[..|h|-1], h[|h|-1];
      if !op.Reset? {
        TimesPrefix(h, pod);
        BucketIsPrunedRecord(window, init, pod);
        if op.pod == pod {
          PrunedRecordStep(window, BucketOf(Replay(window, init), pod), Recorded(init, pod), Times(init, pod), op);
          assert Recorded(h, pod) == Recorded(init, pod) + (if op.Record? then [op.ts] else []);
        } else {
          assert Recorded(h, pod) == Recorded(init, pod) && Times(h, pod) == Times(init, pod);
        }
      }
    }
  }

  /** The time of a call is not before any earlier one for the pod since the last reset. */
  predicate NotBefore(h: seq<Op>, pod: string, now: int) {
    Nondecreasing(Times(h, pod)) && (Times(h, pod) != [] ==> Times(h, pod)[|Times(h, pod)|-1] <= now)
  }

  /** A query of a pod finds what was recorded inside the window that ends at its time. */
  ghost predicate QueryExact(window: int, h: seq<Op>, pod: string, now: int) {
    BucketOf(Replay(window, h + [Query(pod, now)]), pod) == Inside(Recorded(h, pod), now - window, now)
  }

  /** So does a call that records an event, which takes part on both sides. */
  ghost predicate RecordExact(window: int, h: seq<Op>, pod: string, ts: int) {
    BucketOf(Replay(window, h + [Record(pod, ts)]), pod) == Inside(Recorded(h, pod) + [ts], ts - window, ts)
  }

  /** A query at a time no earlier than the calls before it finds exactly the events recorded since the last reset
      that lie inside its window, whatever queries were made in between. */
  lemma QueryMatchesNaiveCount(window: int, h: seq<Op>, pod: string, now: int)
    requires NotBefore(h, pod, now)
    ensures QueryExact(window, h, pod, now)
  {
    BucketIsPrunedRecord(window, h, pod);
    RecordedWithinTimes(h, pod);
    QueryFinds(window, h, pod, now);
    InOrderQuery(window, BucketOf(Replay(window, h), pod), Recorded(h, pod), Times(h, pod), now);
  }

  lemma InOrderQuery(window: int, b: seq<int>, recorded: seq<int>, times: seq<int>, now: int)
    requires IsPrunedRecord(window, b, recorded, times) && Nondecreasing(recorded)
    requires times != [] ==> times[|times|-1] <= now
    requires forall e | e in recorded :: e <= now
    ensures Pruned(b, now - window) == Inside(recorded, now - window, now)
  {
    PruneNow(window, b, recorded, times, [], now);
    assert b + [] == b && recorded + [] == recorded;
    PruneExactly(recorded, now - window);
    InsideIsSince(recorded, now - window, now);
  }

  lemma InOrderRecord(window: int, b: seq<int>, recorded: seq<int>, times: seq<int>, ts: int)
    requires IsPrunedRecord(window, b, recorded, times) && Nondecreasing(recorded + [ts])
    requires times != [] ==> times[|times|-1] <= ts
    requires forall e | e in recorded :: e <= ts
    ensures Pruned(b + [ts], ts - window) == Inside(recorded + [ts], ts - window, ts)
  {
    PruneNow(window, b, recorded, times, [ts], ts);
    PruneExactly(recorded + [ts], ts - window);
    InsideIsSince(recorded + [ts], ts - window, ts);
  }

  /** And so does the call that records an event, counting the new one. */
  lemma RecordMatchesNaiveCount(window: int, h: seq<Op>, pod: string, ts: int)
    requires NotBefore(h, pod, ts)
    ensures RecordExact(window, h, pod, ts)
  {
    BucketIsPrunedRecord(window, h, pod);
    RecordedWithinTimes(h, pod);
    RecordFinds(window, h, pod, ts);
    if Times(h, pod) != [] {
    }
    InOrderRecord(window, BucketOf(Replay(window, h), pod), Recorded(h, pod), Times(h, pod), ts);
  }

  lemma RecordAnswer(window: int, h: seq<Op>, pod: string, ts: int)
    ensures NotBefore(h, pod, ts) ==>
              |BucketOf(Replay(window, h + [Record(pod, ts)]), pod)| ==
              |Inside(Recorded(h, pod) + [ts], ts - window, ts)|
  {
    if NotBefore(h, pod, ts) {
      RecordMatchesNaiveCount(window, h, pod, ts);
    }
  }

  /** A pod has a bucket exactly when something was recorded for it since the last reset. */
  lemma {:induction false} SeenIfRecorded(window: int, h: seq<Op>, pod: string)
    ensures pod in Replay(window, h) <==> Recorded(h, pod) != []
  {
    if |h| > 0 {
      SeenIfRecorded(window, h[..|h|-1], pod);
    }
  }

  // ---- Arbitrary timestamps ----

  lemma {:induction false} InsideConcat(a: seq<int>, b: seq<int>, cutoff: int, now: int)
    ensures Inside(a + b, cutoff, now) == Inside(a, cutoff, now) + Inside(b, cutoff, now)
  {
    if |b| == 0 {
      assert a + b == a;
    } else {
      var init := b[..|b|-1];
      assert (a + b)[..|a + b|-1] == a + init;
      InsideConcat(a, init, cutoff, now);
    }
  }

  lemma {:induction false} InsideMembers(events: seq<int>, cutoff: int, now: int, e: int)
    ensures e in Inside(events, cutoff, now) <==> e in events && IsInside(e, cutoff, now)
  {
    if |events| > 0 {
      var init := events[..|events|-1];
      InsideMembers(init, cutoff, now, e);
      assert events == init + [events[|events|-1]];
    }
  }

  lemma {:induction false} SinceMembers(events: seq<int>, cutoff: int, e: int)
    ensures e in Since(events, cutoff) <==> e in events && e >= cutoff
  {
    if |events| > 0 {
      var init := events[..|events|-1];
      SinceMembers(init, cutoff, e);
      assert events == init + [events[|events|-1]];
    }
  }

  /** No event from the cutoff on is later than `now`. */
  predicate NoneAhead(events: seq<int>, cutoff: int, now: int) { forall e | e in events && e >= cutoff :: e <= now }

  predicate NoneInside(events: seq<int>, cutoff: int, now: int) { forall e | e in events :: !IsInside(e, cutoff, now) }

  lemma {:induction false} InsideIsSince(events: seq<int>, cutoff: int, now: int)
    ensures |Inside(events, cutoff, now)| <= |Since(events, cutoff)|
    ensures NoneAhead(events, cutoff, now) ==> Inside(events, cutoff, now) == Since(events, cutoff)
  {
    if |events| > 0 {
      var init := events[..|events|-1];
      InsideIsSince(init, cutoff, now);
      assert events == init + [events[|events|-1]];
      forall e | e in init ensures e in events {
      }
      assert events[|events|-1] in events;
    }
  }

  lemma InsideEmpty(events: seq<int>, cutoff: int, now: int)
    ensures Inside(events, cutoff, now) == [] <==> NoneInside(events, cutoff, now)
  {
    var inside := Inside(events, cutoff, now);
    forall e ensures e in inside <==> e in events && IsInside(e, cutoff, now) {
      InsideMembers(events, cutoff, now, e);
    }
    if inside != [] {
      assert inside[0] in inside;
    }
  }

  lemma {:induction false} InsideFront(events: seq<int>, cutoff: int, now: int)
    requires |events| > 0
    ensures Inside(events, cutoff, now) ==
            (if IsInside(events[0], cutoff, now) then [events[0]] else []) + Inside(events[1..], cutoff, now)
  {
    var n := |events| - 1;
    if n > 0 {
      InsideFront(events[..n], cutoff, now);
      assert events[..n][1..] == events[1..][..n-1];
    }
  }

  lemma {:induction false} InsideOfPruned(events: seq<int>, cutoff: int, now: int)
    ensures Inside(Pruned(events, cutoff), cutoff, now) == Inside(events, cutoff, now)
  {
    if |events| > 0 && events[0] < cutoff {
      InsideOfPruned(events[1..], cutoff, now);
      InsideFront(events, cutoff, now);
    }
  }

  lemma {:induction false} SinceOfPruned(events: seq<int>, cutoff: int)
    ensures Since(Pruned(events, cutoff), cutoff) == Since(events, cutoff)
  {
    if |events| > 0 && events[0] < cutoff {
      SinceOfPruned(events[1..], cutoff);
      SinceFront(events, cutoff);
    }
  }

  /** What earlier calls pruned away of the pod's record. */
  function Dropped(window: int, h: seq<Op>, pod: string): (r: seq<int>)
    ensures Recorded(h, pod) == r + BucketOf(Replay(window, h), pod)
  {
    BucketIsSuffix(window, h, pod);
    Recorded(h, pod)[..|Recorded(h, pod)| - |BucketOf(Replay(window, h), pod)|]
  }

  /** No stale event hides behind a fresh one in the bucket, none of its fresh ones is later than `now`, and nothing
      that was dropped lies inside the window. */
  ghost predicate Intact(dropped: seq<int>, b: seq<int>, cutoff: int, now: int) {
    StaleFirst(b, cutoff) && NoneAhead(b, cutoff, now) && NoneInside(dropped, cutoff, now)
  }

  /** Whatever is kept lies inside the window exactly when no stale event hides and none is ahead. */
  lemma AllKeptInside(b: seq<int>, cutoff: int, now: int)
    ensures (forall e | e in Pruned(b, cutoff) :: IsInside(e, cutoff, now)) <==>
              StaleFirst(b, cutoff) && NoneAhead(b, cutoff, now)
  {
    var kept := Pruned(b, cutoff);
    PruneExactly(b, cutoff);
    SinceOfPruned(b, cutoff);
    FullSince(kept, cutoff);
    forall e ensures e in Since(b, cutoff) <==> e in b && e >= cutoff {
      SinceMembers(b, cutoff, e);
    }
    if forall e | e in kept :: IsInside(e, cutoff, now) {
      assert forall j | 0 <= j < |kept| :: kept[j] in kept;
    }
  }

  /** Pruning what is left of a record gives the window of the whole record exactly when the record is intact. */
  lemma PruneRest(dropped: seq<int>, b: seq<int>, cutoff: int, now: int)
    ensures Pruned(b, cutoff) == Inside(dropped + b, cutoff, now) <==> Intact(dropped, b, cutoff, now)
  {
    var kept := Pruned(b, cutoff);
    InsideConcat(dropped, b, cutoff, now);
    InsideEmpty(dropped, cutoff, now);
    AllKeptInside(b, cutoff, now);
    if kept == Inside(dropped + b, cutoff, now) {
      forall e | e in kept ensures IsInside(e, cutoff, now) {
        InsideMembers(dropped + b, cutoff, now, e);
      }
    }
    if StaleFirst(b, cutoff) && NoneAhead(b, cutoff, now) {
      PruneExactly(b, cutoff);
      InsideIsSince(b, cutoff, now);
    }
  }

  /** `PruneRest` for a record split into what is gone and what is left. */
  lemma PruneLeft(recorded: seq<int>, dropped: seq<int>, b: seq<int>, found: seq<int>, cutoff: int, now: int)
    requires recorded == dropped + b && found == Pruned(b, cutoff)
    ensures found == Inside(recorded, cutoff, now) <==> Intact(dropped, b, cutoff, now)
  {
    PruneRest(dropped, b, cutoff, now);
  }

  lemma PruneLeftWith(recorded: seq<int>, dropped: seq<int>, b: seq<int>, v: int, found: seq<int>, cutoff: int,
                      now: int)
    requires recorded == dropped + b && found == Pruned(b + [v], cutoff)
    ensures found == Inside(recorded + [v], cutoff, now) <==> Intact(dropped, b + [v], cutoff, now)
  {
    assert recorded + [v] == dropped + (b + [v]);
    PruneLeft(recorded + [v], dropped, b + [v], found, cutoff, now);
  }

  lemma QueryFinds(window: int, h: seq<Op>, pod: string, now: int)
    ensures BucketOf(Replay(window, h + [Query(pod, now)]), pod) ==
            Pruned(BucketOf(Replay(window, h), pod), now - window)
  {
    ReplayBucketAppend(window, h, Query(pod, now), pod);
  }

  lemma RecordFinds(window: int, h: seq<Op>, pod: string, ts: int)
    ensures BucketOf(Replay(window, h + [Record(pod, ts)]), pod) ==
            Pruned(BucketOf(Replay(window, h), pod) + [ts], ts - window)
  {
    ReplayBucketAppend(window, h, Record(pod, ts), pod);
  }

  lemma QueryExactlyFor(window: int, h: seq<Op>, pod: string, now: int, recorded: seq<int>, dropped: seq<int>,
                        b: seq<int>)
    requires recorded == Recorded(h, pod) && b == BucketOf(Replay(window, h), pod) && recorded == dropped + b
    ensures QueryExact(window, h, pod, now) <==> Intact(dropped, b, now - window, now)
  {
    QueryFinds(window, h, pod, now);
    PruneLeft(recorded, dropped, b, BucketOf(Replay(window, h + [Query(pod, now)]), pod), now - window, now);
  }

  lemma RecordExactlyFor(window: int, h: seq<Op>, pod: string, ts: int, recorded: seq<int>, dropped: seq<int>,
                         b: seq<int>)
    requires recorded == Recorded(h, pod) && b == BucketOf(Replay(window, h), pod) && recorded == dropped + b
    ensures RecordExact(window, h, pod, ts) <==> Intact(dropped, b + [ts], ts - window, ts)
  {
    RecordFinds(window, h, pod, ts);
    PruneLeftWith(recorded, dropped, b, ts, BucketOf(Replay(window, h + [Record(pod, ts)]), pod), ts - window, ts);
  }

  /** For arbitrary timestamps a query finds exactly the recorded events inside the window that ends at its time if and
      only if no stale event hides behind a fresh one in the bucket, no fresh one there is later than the query, and
      earlier calls dropped nothing that lies inside. */
  lemma QueryExactly(window: int, h: seq<Op>, pod: string, now: int)
    ensures QueryExact(window, h, pod, now) <==>
              Intact(Dropped(window, h, pod), BucketOf(Replay(window, h), pod), now - window, now)
  {
    QueryExactlyFor(window, h, pod, now, Recorded(h, pod), Dropped(window, h, pod), BucketOf(Replay(window, h), pod));
  }

  /** The same for a call that records an event. */
  lemma RecordExactly(window: int, h: seq<Op>, pod: string, ts: int)
    ensures RecordExact(window, h, pod, ts) <==>
              Intact(Dropped(window, h, pod), BucketOf(Replay(window, h), pod) + [ts], ts - window, ts)
  {
    RecordExactlyFor(window, h, pod, ts, Recorded(h, pod), Dropped(window, h, pod), BucketOf(Replay(window, h), pod));
  }

  lemma CountError(recorded: seq<int>, dropped: seq<int>, b: seq<int>, found: seq<int>, cutoff: int, now: int)
    requires recorded == dropped + b && found == Pruned(b, cutoff)
    ensures |found| + |Inside(dropped, cutoff, now)| ==
            |Inside(recorded, cutoff, now)| + (|found| - |Inside(found, cutoff, now)|)
  {
    InsideConcat(dropped, b, cutoff, now);
    InsideOfPruned(b, cutoff, now);
  }

  lemma CountErrorWith(recorded: seq<int>, dropped: seq<int>, b: seq<int>, v: int, found: seq<int>, cutoff: int,
                       now: int)
    requires recorded == dropped + b && found == Pruned(b + [v], cutoff)
    ensures |found| + |Inside(dropped, cutoff, now)| ==
            |Inside(recorded + [v], cutoff, now)| + (|found| - |Inside(found, cutoff, now)|)
  {
    assert recorded + [v] == dropped + (b + [v]);
    CountError(recorded + [v], dropped, b + [v], found, cutoff, now);
  }

  /** How far a count can be off, for arbitrary timestamps: it lacks the dropped events that lie inside the window, and
      it includes the kept ones that do not. */
  lemma QueryCountError(window: int, h: seq<Op>, pod: string, now: int)
    ensures var found := BucketOf(Replay(window, h + [Query(pod, now)]), pod);
            |found| + |Inside(Dropped(window, h, pod), now - window, now)| ==
            |Inside(Recorded(h, pod), now - window, now)| + (|found| - |Inside(found, now - window, now)|)
  {
    QueryFinds(window, h, pod, now);
    CountError(Recorded(h, pod), Dropped(window, h, pod), BucketOf(Replay(window, h), pod),
               BucketOf(Replay(window, h + [Query(pod, now)]), pod), now - window, now);
  }

  lemma RecordCountError(window: int, h: seq<Op>, pod: string, ts: int)
    ensures var found := BucketOf(Replay(window, h + [Record(pod, ts)]), pod);
            |found| + |Inside(Dropped(window, h, pod), ts - window, ts)| ==
            |Inside(Recorded(h, pod) + [ts], ts - window, ts)| + (|found| - |Inside(found, ts - window, ts)|)
  {
    RecordFinds(window, h, pod, ts);
    CountErrorWith(Recorded(h, pod), Dropped(window, h, pod), BucketOf(Replay(window, h), pod), ts,
                   BucketOf(Replay(window, h + [Record(pod, ts)]), pod), ts - window, ts);
  }

  // ---- All queries from some time on ----

  /** What makes every query from `start` on exact: everything dropped is stale by then, nothing kept is later, and what
      is not yet stale is in order. A negative window has nothing inside, so everything must be stale. */
  ghost predicate Settled(window: int, dropped: seq<int>, b: seq<int>, start: int) {
    if window < 0 then (forall e | e in b :: e < start - window)
    else
      && (forall e | e in dropped :: e < start - window)
      && (forall e | e in b :: e <= start)
      && StaleFirst(b, start - window) && Nondecreasing(Pruned(b, start - window))
  }

  ghost predicate IntactAt(window: int, dropped: seq<int>, b: seq<int>, now: int) {
    Intact(dropped, b, now - window, now)
  }

  lemma SettledStays(window: int, dropped: seq<int>, b: seq<int>, start: int, now: int)
    requires Settled(window, dropped, b, start) && start <= now
    ensures IntactAt(window, dropped, b, now)
  {
    var cutoff := now - window;
    forall i, j ensures !Hides(b, cutoff, i, j) {
      if Hides(b, cutoff, i, j) {
        InOrderBehind(window, dropped, b, start, i, j);
      }
    }
  }

  lemma InOrderBehind(window: int, dropped: seq<int>, b: seq<int>, start: int, i: nat, j: nat)
    requires Settled(window, dropped, b, start) && i < j < |b| && b[i] >= start - window
    ensures window >= 0 && b[i] <= b[j]
  {
    assert window >= 0 by { assert b[i] in b; }
    var kept := Pruned(b, start - window);
    var k := |b| - |kept|;
    assert i >= k && kept == b[k..] by {
      PrunedIsSuffix(b, start - window);
      LeadingStale(b, start - window, i);
    }
    assert kept[i - k] <= kept[j - k];
  }

  /** What pruning takes away is stale. */
  lemma {:induction false} LeadingStale(b: seq<int>, cutoff: int, i: nat)
    requires i < |b| && b[i] >= cutoff
    ensures i >= |b| - |Pruned(b, cutoff)|
  {
    if b[0] < cutoff {
      LeadingStale(b[1..], cutoff, i - 1);
    }
  }

  ghost predicate IntactFrom(window: int, dropped: seq<int>, b: seq<int>, start: int) {
    forall now | start <= now :: IntactAt(window, dropped, b, now)
  }

  lemma DroppedAreStale(window: int, dropped: seq<int>, b: seq<int>, start: int, e: int)
    requires window >= 0 && IntactFrom(window, dropped, b, start) && e in dropped
    ensures e < start - window
  {
    var now := if e > start then e else start;
    assert IntactAt(window, dropped, b, now);
    assert !IsInside(e, now - window, now);
  }

  lemma NoneIsLater(window: int, dropped: seq<int>, b: seq<int>, start: int, e: int)
    requires window >= 0 && IntactFrom(window, dropped, b, start) && e in b
    ensures e <= start
  {
    var now := if e - 1 > start then e - 1 else start;
    assert IntactAt(window, dropped, b, now);
  }

  lemma KeptInOrder(window: int, dropped: seq<int>, b: seq<int>, start: int)
    requires IntactFrom(window, dropped, b, start)
    ensures Nondecreasing(Pruned(b, start - window))
  {
    assert IntactAt(window, dropped, b, start);
    var kept := Pruned(b, start - window);
    PrunedIsSuffix(b, start - window);
    var k := |b| - |kept|;
    forall i, j | 0 <= i < j < |kept| ensures kept[i] <= kept[j] {
      StaleFirstKeeps(b, start - window, k + i);
      assert b[k + i] == kept[i] && b[k + j] == kept[j];
      var now := kept[i] + window;
      assert IntactAt(window, dropped, b, now) && !Hides(b, now - window, k + i, k + j);
    }
  }

  lemma IntactFromOn(window: int, dropped: seq<int>, b: seq<int>, start: int)
    requires IntactFrom(window, dropped, b, start)
    ensures Settled(window, dropped, b, start)
  {
    assert IntactAt(window, dropped, b, start);
    if window >= 0 {
      forall e | e in dropped ensures e < start - window {
        DroppedAreStale(window, dropped, b, start, e);
      }
      forall e | e in b ensures e <= start {
        NoneIsLater(window, dropped, b, start, e);
      }
      KeptInOrder(window, dropped, b, start);
    } else {
      assert NoneAhead(b, start - window, start);
    }
  }

  lemma StaleFirstKeeps(b: seq<int>, cutoff: int, i: nat)
    requires StaleFirst(b, cutoff) && |b| - |Pruned(b, cutoff)| <= i < |b|
    ensures b[i] >= cutoff
  {
    PrunedIsSuffix(b, cutoff);
    var k := |b| - |Pruned(b, cutoff)|;
    assert Pruned(b, cutoff)[0] == b[k];
    assert !Hides(b, cutoff, k, i);
  }

  /** Every query from `start` on is exact if and only if the record is settled by then. */
  lemma EveryQueryExact(window: int, h: seq<Op>, pod: string, start: int)
    ensures (forall now | start <= now :: QueryExact(window, h, pod, now)) <==>
              Settled(window, Dropped(window, h, pod), BucketOf(Replay(window, h), pod), start)
  {
    var dropped, b := Dropped(window, h, pod), BucketOf(Replay(window, h), pod);
    forall now ensures QueryExact(window, h, pod, now) <==> IntactAt(window, dropped, b, now) {
      QueryExactly(window, h, pod, now);
    }
    if forall now | start <= now :: QueryExact(window, h, pod, now) {
      forall now | start <= now ensures IntactAt(window, dropped, b, now) {
        assert QueryExact(window, h, pod, now);
      }
      IntactFromOn(window, dropped, b, start);
    }
    if Settled(window, dropped, b, start) {
      forall now | start <= now ensures QueryExact(window, h, pod, now) {
        SettledStays(window, dropped, b, start, now);
      }
    }
  }

  // ---- Inputs out of order ----

  /** An early query misses an event that a later one dropped, although record and bucket are in order. */
  lemma LateQueryHidesEvent(pod: string, h: seq<Op>)
    requires h == [Record(pod, 0), Query(pod, 100)]
    ensures Recorded(h, pod) == [0] && BucketOf(Replay(10, h), pod) == []
    ensures Inside([0], 5 - 10, 5) == [0] && BucketOf(Replay(10, h + [Query(pod, 5)]), pod) == []
  {
    var first := [Record(pod, 0)];
    assert h == first + [Query(pod, 100)];
    OneRecord(pod, 0, first);
    RecordedAppend(first, Query(pod, 100), pod);
    QueryFinds(10, first, pod, 100);
    assert Pruned([0], 90) == [];
    QueryFinds(10, h, pod, 5);
  }

  /** And it counts an event that is recorded for a later time, although nothing was dropped. */
  lemma EarlyQueryCountsLaterEvent(pod: string, h: seq<Op>)
    requires h == [Record(pod, 100)]
    ensures Recorded(h, pod) == [100] && Inside([100], 5 - 10, 5) == []
    ensures BucketOf(Replay(10, h + [Query(pod, 5)]), pod) == [100]
  {
    OneRecord(pod, 100, h);
    QueryFinds(10, h, pod, 5);
    assert Pruned([100], -5) == [100];
  }

  lemma OneRecord(pod: string, t: int, h: seq<Op>)
    requires h == [Record(pod, t)]
    ensures Recorded(h, pod) == [t] && BucketOf(Replay(10, h), pod) == [t]
  {
    assert h == [] + [Record(pod, t)];
    RecordedAppend([], Record(pod, t), pod);
    RecordFinds(10, [], pod, t);
    assert Pruned([t], t - 10) == [t];
  }

  // ---- Queries and other pods ----

  function WithoutQueries(h: seq<Op>): seq<Op> {
    if |h| == 0 then [] else WithoutQueries(h[..|h|-1]) + (if h[|h|-1].Query? then [] else [h[|h|-1]])
  }

  lemma RecordedAppend(h: seq<Op>, op: Op, pod: string)
    ensures Recorded(h + [op], pod) ==
            if op.Reset? then []
            else if op.Record? && op.pod == pod then Recorded(h, pod) + [op.ts]
            else Recorded(h, pod)
  {
    assert (h + [op])[..|h|] == h;
  }

  lemma TimesAppend(h: seq<Op>, op: Op, pod: string)
    ensures Times(h + [op], pod) ==
            if op.Reset? then []
            else if op.pod != pod then Times(h, pod)
            else Times(h, pod) + [if op.Record? then op.ts else op.now]
  {
    assert (h + [op])[..|h|] == h;
  }

  lemma WithoutQueriesLast(h: seq<Op>)
    requires |h| > 0
    ensures WithoutQueries(h) ==
            if h[|h|-1].Query? then WithoutQueries(h[..|h|-1]) else WithoutQueries(h[..|h|-1]) + [h[|h|-1]]
  {
  }

  lemma {:induction false} QueriesRecordNothing(h: seq<Op>, pod: string)
    ensures Recorded(WithoutQueries(h), pod) == Recorded(h, pod)
  {
    if |h| > 0 {
      var init, op := h[..|h|-1], h[|h|-1];
      QueriesRecordNothing(init, pod);
      assert h == init + [op];
      RecordedAppend(init, op, pod);
      WithoutQueriesLast(h);
      if !op.Query? {
        RecordedAppend(WithoutQueries(init), op, pod);
      }
    }
  }

  /** `a` is in order and nowhere beyond the end of `b`. */
  predicate EndsBy(a: seq<int>, b: seq<int>) {
    && Nondecreasing(a)
    && (a != [] ==> b != [])
    && (forall i | 0 <= i < |a| :: a[i] <= b[|b|-1])
  }

  lemma EndsByStep(a: seq<int>, b: seq<int>, t: int)
    requires EndsBy(a, b) && Nondecreasing(b + [t])
    ensures EndsBy(a, b + [t]) && EndsBy(a + [t], b + [t])
  {
    if b != [] {
      assert (b + [t])[|b|-1] <= (b + [t])[|b|];
    }
  }

  lemma {:induction false} TimesWithoutQueries(h: seq<Op>, pod: string)
    requires Nondecreasing(Times(h, pod))
    ensures EndsBy(Times(WithoutQueries(h), pod), Times(h, pod))
  {
    if |h| > 0 {
      var init, op := h[..|h|-1], h[|h|-1];
      assert h == init + [op];
      TimesAppend(init, op, pod);
      WithoutQueriesLast(h);
      TimesAppend(WithoutQueries(init), op, pod);
      if !op.Reset? {
        TimesPrefix(h, pod);
        TimesWithoutQueries(init, pod);
        if op.pod == pod {
          EndsByStep(Times(WithoutQueries(init), pod), Times(init, pod), if op.Record? then op.ts else op.now);
        }
      }
    }
  }

  /** Asking never changes a later answer, be it to a query or to a call that records an event. */
  lemma QueriesChangeNoAnswer(window: int, h: seq<Op>, pod: string, now: int)
    requires NotBefore(h, pod, now)
    ensures BucketOf(Replay(window, h + [Query(pod, now)]), pod) ==
            BucketOf(Replay(window, WithoutQueries(h) + [Query(pod, now)]), pod)
    ensures BucketOf(Replay(window, h + [Record(pod, now)]), pod) ==
            BucketOf(Replay(window, WithoutQueries(h) + [Record(pod, now)]), pod)
    ensures pod in Replay(window, h) <==> pod in Replay(window, WithoutQueries(h))
  {
    QueriesRecordNothing(h, pod);
    TimesWithoutQueries(h, pod);
    QueryMatchesNaiveCount(window, h, pod, now);
    QueryMatchesNaiveCount(window, WithoutQueries(h), pod, now);
    RecordMatchesNaiveCount(window, h, pod, now);
    RecordMatchesNaiveCount(window, WithoutQueries(h), pod, now);
    SeenIfRecorded(window, h, pod);
    SeenIfRecorded(window, WithoutQueries(h), pod);
  }

  /** The calls that concern one pod: its own and the resets. */
  function Own(h: seq<Op>, pod: string): seq<Op> {
    if |h| == 0 then []
    else Own(h[..|h|-1], pod) + (if h[|h|-1].Reset? || h[|h|-1].pod == pod then [h[|h|-1]] else [])
  }

  lemma ReplayBucketAppend(window: int, h: seq<Op>, op: Op, pod: string)
    ensures BucketOf(Replay(window, h + [op]), pod) == BucketAfter(window, BucketOf(Replay(window, h), pod), op, pod)
  {
    assert (h + [op])[..|h|] == h;
  }

  /** Pods do not interfere, whatever the timestamps. */
  lemma {:induction false} PodsDoNotInterfere(window: int, h: seq<Op>, pod: string)
    ensures BucketOf(Replay(window, Own(h, pod)), pod) == BucketOf(Replay(window, h), pod)
  {
    if |h| > 0 {
      var init, op := h[..|h|-1], h[|h|-1];
      PodsDoNotInterfere(window, init, pod);
      if op.Reset? || op.pod == pod {
        assert Own(h, pod) == Own(init, pod) + [op];
        ReplayBucketAppend(window, Own(init, pod), op, pod);
      } else {
        assert Own(h, pod) == Own(init, pod);
      }
    }
  }
}
