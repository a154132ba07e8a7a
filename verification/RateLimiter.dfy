/** The per-second rate limiter, judged over whole call histories. */
module RateLimiter {
  import opened Basics
  import opened Sums

  const SECOND: int := 1_000_000_000

  /** The wall-clock second of a time in nanoseconds, rounding towards the past. */
  function SecondOf(ns: int): int { ns / SECOND }

  /** A second starts at a whole number of seconds, also before the epoch. */
  lemma SecondMeans(ns: int, sec: int)
    ensures SecondOf(ns) == sec <==> sec * 1_000_000_000 <= ns < (sec + 1) * 1_000_000_000
  {
  }

  datatype State = State(windowSec: int, count: nat)

  /** The window the limiter counts in at a given second. */
  function Rolled(s: State, sec: int): State { if s.windowSec != sec then State(sec, 0) else s }

  function AfterCall(limit: nat, s: State, sec: int): State {
    var r := Rolled(s, sec);
    if r.count >= limit then r else State(sec, r.count + 1)
  }

  /** The state after calls at the given times, from a new limiter. */
  function Replay(limit: nat, times: seq<int>): State {
    if |times| == 0 then State(0, 0)
    else AfterCall(limit, Replay(limit, times[..|times|-1]), SecondOf(times[|times|-1]))
  }

  datatype Call = Call(time: int, admitted: bool)

  /** A history of calls with their answers. */
  function Answers(limit: nat, times: seq<int>): (r: seq<Call>)
    ensures |r| == |times|
  {
    if |times| == 0 then []
    else
      var t := times[|times|-1];
      Answers(limit, times[..|times|-1])
      + [Call(t, Rolled(Replay(limit, times[..|times|-1]), SecondOf(t)).count < limit)]
  }

  class Limiter {
    const limit: nat
    var windowSec: int
    var count: nat
    ghost var history: seq<int>

    ghost predicate Valid()
      reads this
    {
      limit >= 1 && State(windowSec, count) == Replay(limit, history)
    }

    constructor (limit: int)
      ensures Valid() && history == [] && this.limit == (if limit < 1 then 1 else limit)
    {
      this.limit := if limit < 1 then 1 else limit;
      windowSec := 0;
      count := 0;
      history := [];
    }

    method Allow(now: int) returns (admitted: bool)
      requires Valid()
      modifies this
      ensures Valid() && history == old(history) + [now]
      ensures Answers(limit, history) == Answers(limit, old(history)) + [Call(now, admitted)]
    {
      var sec := SecondOf(now);
      history := history + [now];
      assert history[..|history|-1] == old(history);
      if windowSec != sec {
        windowSec := sec;
        count := 0;
      }
      if count >= limit {
        return false;
      }
      count := count + 1;
      admitted := true;
    }
  }

  // ---- Blocks of calls ----

  /** How many calls at the end of a history fall in its last second without interruption. */
  function LastBlock(times: seq<int>): (n: nat)
    ensures n <= |times| && (|times| > 0 ==> n > 0)
  {
    if |times| == 0 then 0
    else if |times| == 1 || SecondOf(times[|times|-2]) != SecondOf(times[|times|-1]) then 1
    else LastBlock(times[..|times|-1]) + 1
  }

  /** Up to `limit` calls of each maximal block of calls in the same second. */
  function BlockTotal(limit: nat, times: seq<int>): nat
    decreases |times|
  {
    if |times| == 0 then 0
    else BlockTotal(limit, times[..|times| - LastBlock(times)]) + Min(limit, LastBlock(times))
  }

  /** The number of maximal blocks. */
  function Blocks(times: seq<int>): nat
    decreases |times|
  {
    if |times| == 0 then 0 else Blocks(times[..|times| - LastBlock(times)]) + 1
  }

  predicate IsAdmitted(c: Call) { c.admitted }

  /** The counter is the size of the current block, cut off at the limit. */
  lemma {:induction false} CounterIsBlock(limit: nat, times: seq<int>)
    requires limit >= 1
    ensures |times| > 0 ==> Replay(limit, times) == State(SecondOf(times[|times|-1]), Min(limit, LastBlock(times)))
  {
    if |times| > 0 {
      CounterIsBlock(limit, times[..|times|-1]);
    }
  }

  lemma BlockTotalStep(limit: nat, times: seq<int>)
    requires limit >= 1 && |times| > 0
    ensures var init := times[..|times|-1];
            BlockTotal(limit, times) == BlockTotal(limit, init) +
              (if LastBlock(times) == 1 || LastBlock(init) < limit then 1 else 0)
  {
    var init := times[..|times|-1];
    if LastBlock(times) > 1 {
      assert init[..|init| - LastBlock(init)] == times[..|times| - LastBlock(times)];
    }
  }

  /** For arbitrary call times, admissions are exactly up to `limit` per maximal same-second block of calls. */
  lemma {:induction false} AdmissionsPerBlock(limit: nat, times: seq<int>)
    requires limit >= 1
    ensures Count(Answers(limit, times), IsAdmitted) == BlockTotal(limit, times)
  {
    if |times| > 0 {
      var init := times[..|times|-1];
      AdmissionsPerBlock(limit, init);
      CounterIsBlock(limit, init);
      BlockTotalStep(limit, times);
      assert Answers(limit, times)[..|times|-1] == Answers(limit, init);
    }
  }

  /** Up to `limit` calls of each maximal block that falls in second `sec`. */
  function BlockTotalIn(limit: nat, times: seq<int>, sec: int): nat
    decreases |times|
  {
    if |times| == 0 then 0
    else
      BlockTotalIn(limit, times[..|times| - LastBlock(times)], sec)
      + (if SecondOf(times[|times|-1]) == sec then Min(limit, LastBlock(times)) else 0)
  }

  lemma BlockTotalInStep(limit: nat, times: seq<int>, sec: int)
    requires limit >= 1 && |times| > 0
    ensures var n := |times| - 1;
            BlockTotalIn(limit, times, sec) == BlockTotalIn(limit, times[..n], sec) +
              (if SecondOf(times[n]) == sec && LastBlock(times) <= limit then 1 else 0)
  {
    var init, k := times[..|times|-1], LastBlock(times);
    var rest := times[..|times| - k];
    if k > 1 {
      LongerBlock(times);
      assert init[..|init| - LastBlock(init)] == rest;
    } else {
      assert rest == init;
    }
  }

  lemma LongerBlock(times: seq<int>)
    requires |times| > 0 && LastBlock(times) > 1
    ensures var init := times[..|times|-1];
            && |init| > 0 && LastBlock(init) == LastBlock(times) - 1
            && SecondOf(init[|init|-1]) == SecondOf(times[|times|-1])
  {
  }

  /** For arbitrary call times a second admits up to `limit` of each of its blocks, and so more than `limit` in all
      exactly when those add up to more: the clock must have come back to it. */
  lemma {:induction false} AdmissionsInSecond(limit: nat, times: seq<int>, sec: int)
    requires limit >= 1
    ensures Count(Answers(limit, times), AdmittedIn(sec)) == BlockTotalIn(limit, times, sec)
  {
    if |times| > 0 {
      AdmissionsInSecond(limit, times[..|times|-1], sec);
      AnswersLast(limit, times);
      BlockTotalInStep(limit, times, sec);
    }
  }

  /** It can: one call, one in the next second, and one back in the first admit two where one is allowed. */
  lemma ClockGoesBack(times: seq<int>)
    requires times == [0, SECOND, 0]
    ensures Count(Answers(1, times), AdmittedIn(0)) == 2
  {
    AdmissionsInSecond(1, times, 0);
    var two, one := times[..2], times[..1];
    assert two[..1] == one && one[..0] == [];
    assert LastBlock(times) == 1 && LastBlock(two) == 1 && LastBlock(one) == 1;
    assert BlockTotalIn(1, one, 0) == 1;
    assert BlockTotalIn(1, two, 0) == 1;
  }

  /** Hence at most `limit` times the number of blocks. */
  lemma {:induction false} AdmissionsBound(limit: nat, times: seq<int>)
    ensures BlockTotal(limit, times) <= limit * Blocks(times)
    decreases |times|
  {
    if |times| > 0 {
      var rest := times[..|times| - LastBlock(times)];
      AdmissionsBound(limit, rest);
      assert limit * (Blocks(rest) + 1) == limit * Blocks(rest) + limit;
    }
  }

  // ---- A clock that does not run backwards ----

  function InSecond(sec: int): int -> bool { (t: int) => SecondOf(t) == sec }

  function AdmittedIn(sec: int): Call -> bool { (c: Call) => c.admitted && SecondOf(c.time) == sec }

  /** All calls of the latest second form the last block. */
  lemma {:induction false} LastBlockIsSecond(times: seq<int>)
    requires |times| > 0 && Nondecreasing(times)
    ensures LastBlock(times) == Count(times, InSecond(SecondOf(times[|times|-1])))
  {
    var n := |times| - 1;
    var sec := SecondOf(times[n]);
    if n > 0 && SecondOf(times[n-1]) == sec {
      LastBlockIsSecond(times[..n]);
    } else {
      forall i | 0 <= i < n ensures !InSecond(sec)(times[..n][i]) {
      }
      CountNone(times[..n], InSecond(sec));
    }
  }

  lemma AnswersLast(limit: nat, times: seq<int>)
    requires limit >= 1 && |times| > 0
    ensures var n := |times| - 1;
            && Answers(limit, times)[..n] == Answers(limit, times[..n])
            && Answers(limit, times)[n].time == times[n]
            && (Answers(limit, times)[n].admitted <==> LastBlock(times) <= limit)
  {
    CounterIsBlock(limit, times[..|times|-1]);
  }

  /** With nondecreasing call times, every second admits exactly `min(limit, calls in that second)`. */
  lemma {:induction false} AdmissionsPerSecond(limit: nat, times: seq<int>, sec: int)
    requires limit >= 1 && Nondecreasing(times)
    ensures Count(Answers(limit, times), AdmittedIn(sec)) == Min(limit, Count(times, InSecond(sec)))
  {
    if |times| > 0 {
      var n := |times| - 1;
      AdmissionsPerSecond(limit, times[..n], sec);
      AnswersLast(limit, times);
      if SecondOf(times[n]) == sec {
        LastBlockIsSecond(times);
      }
    }
  }

  function AdmittedWithin(from: int): Call -> bool {
    (c: Call) => c.admitted && from <= c.time < from + 1_000_000_000
  }

  lemma {:induction false} SplitSeconds(calls: seq<Call>, from: int)
    ensures Count(calls, AdmittedWithin(from)) <=
            Count(calls, AdmittedIn(SecondOf(from))) + Count(calls, AdmittedIn(SecondOf(from) + 1))
  {
    if |calls| > 0 {
      SplitSeconds(calls[..|calls|-1], from);
    }
  }

  /** And no window of one second, wherever it starts, sees more than twice the limit. */
  lemma AdmissionsPerSlidingSecond(limit: nat, times: seq<int>, from: int)
    requires limit >= 1 && Nondecreasing(times)
    ensures Count(Answers(limit, times), AdmittedWithin(from)) <= 2 * limit
  {
    SplitSeconds(Answers(limit, times), from);
    AdmissionsPerSecond(limit, times, SecondOf(from));
    AdmissionsPerSecond(limit, times, SecondOf(from) + 1);
  }
}
