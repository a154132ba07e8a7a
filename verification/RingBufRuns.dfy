/** What a run of the ring-buffer consumer owes to the calls that led to it: which readers `Start` starts, and when a
    reader with an event in hand has to wait. */
module RingBufRuns {
  import opened EventCodec
  import opened RingBufConsumer

  // ---- The readers that are started ----

  /** How many readers were added before the first step of `Start`. */
  function AddedBeforeStart(steps: seq<Step>): nat {
    if |steps| == 0 || steps[0].StartStep? then 0
    else (if steps[0].AddReader? then 1 else 0) + AddedBeforeStart(steps[1..])
  }

  lemma StartKeepsReaders(s: State)
    requires !s.start.Idle?
    ensures !ApplyStart(s).start.Idle? && |ApplyStart(s).readers| == |s.readers|
  {
    match s.start
    case Spawning(k) => assert k < |s.readers| ==> |SetPc(s, k, Checking).readers| == |s.readers|;
    case Closing(k) =>
    case _ =>
  }

  lemma StepKeepsReaders(s: State, step: Step)
    requires Enabled(s, step) && !s.start.Idle?
    ensures !Apply(s, step).start.Idle? && |Apply(s, step).readers| == |s.readers|
  {
    if step.StartStep? {
      StartKeepsReaders(s);
    }
  }

  lemma {:induction false} RunKeepsReaders(s: State, steps: seq<Step>)
    requires ValidRun(s, steps) && !s.start.Idle?
    ensures !Exec(s, steps).start.Idle? && |Exec(s, steps).readers| == |s.readers|
    decreases |steps|
  {
    if |steps| > 0 {
      StepKeepsReaders(s, steps[0]);
      RunKeepsReaders(Apply(s, steps[0]), steps[1..]);
    }
  }

  lemma BeforeStart(s: State, step: Step)
    requires Enabled(s, step) && s.start.Idle? && s.readers == []
    ensures var t := Apply(s, step);
            if step.StartStep? then !t.start.Idle? && |t.readers| == s.registered
            else t.start.Idle? && t.readers == [] && t.registered == s.registered + (if step.AddReader? then 1 else 0)
  {
  }

  lemma {:induction false} ReadersOfRun(s: State, steps: seq<Step>)
    requires ValidRun(s, steps) && s.start.Idle? && s.readers == []
    ensures var t := Exec(s, steps);
            if StartStep in steps then !t.start.Idle? && |t.readers| == s.registered + AddedBeforeStart(steps)
            else t.start.Idle? && t.readers == []
    decreases |steps|
  {
    if |steps| > 0 {
      var first, rest := steps[0], steps[1..];
      assert steps == [first] + rest;
      BeforeStart(s, first);
      if first.StartStep? {
        RunKeepsReaders(Apply(s, first), rest);
      } else {
        ReadersOfRun(Apply(s, first), rest);
      }
    }
  }

  /** `Start` takes over exactly the readers added before it; once its spawning loop is done, every one of them runs or
      has run. */
  lemma StartTakesAllReaders(bufSize: int, steps: seq<Step>)
    requires ValidRun(NewConsumer(bufSize), steps)
    ensures var t := Exec(NewConsumer(bufSize), steps);
            && |t.readers| == (if StartStep in steps then AddedBeforeStart(steps) else 0)
            && (!t.start.Idle? && !t.start.Spawning? ==>
                  forall i | 0 <= i < |t.readers| :: !t.readers[i].pc.NotStarted?)
  {
    var t := Exec(NewConsumer(bufSize), steps);
    ReadersOfRun(NewConsumer(bufSize), steps);
    InitInv(bufSize);
    RunKeepsInv(NewConsumer(bufSize), steps);
    forall i: nat | i < |t.readers| && !t.start.Idle? && !t.start.Spawning? ensures !t.readers[i].pc.NotStarted? {
      assert ReaderInv(t, i);
    }
  }

  // ---- When a send has to wait ----

  /** Sends minus receives. */
  function Outstanding(steps: seq<Step>): int {
    if |steps| == 0 then 0
    else Change(steps[0]) + Outstanding(steps[1..])
  }

  function Change(step: Step): int { if step.SendStep? then 1 else if step.Receive? then -1 else 0 }

  lemma StepChange(s: State, step: Step)
    requires Inv(s) && Enabled(s, step)
    ensures Apply(s, step).capacity == s.capacity
    ensures |Apply(s, step).buffer| == |s.buffer| + Change(step)
  {
    if step.SendStep? {
      SenderFindsChannelOpen(s, step.i);
    }
  }

  lemma {:induction false} RunChange(s: State, steps: seq<Step>)
    requires Inv(s) && ValidRun(s, steps)
    ensures Exec(s, steps).capacity == s.capacity
    ensures |Exec(s, steps).buffer| == |s.buffer| + Outstanding(steps)
    decreases |steps|
  {
    if |steps| > 0 {
      StepKeepsInv(s, steps[0]);
      StepChange(s, steps[0]);
      RunChange(Apply(s, steps[0]), steps[1..]);
    }
  }

  /** A reader with an event in hand can send it, in whatever run, exactly while fewer events wait than the consumer was
      made for: the given number if positive, else 256. */
  lemma SendWaitsExactlyWhenFull(bufSize: int, steps: seq<Step>, i: nat, e: BpfEvent)
    requires ValidRun(NewConsumer(bufSize), steps) && At(Exec(NewConsumer(bufSize), steps), i, Sending(e))
    ensures Enabled(Exec(NewConsumer(bufSize), steps), SendStep(i)) <==>
              Outstanding(steps) < (if bufSize >= 1 then bufSize else 256)
  {
    InitInv(bufSize);
    RunKeepsInv(NewConsumer(bufSize), steps);
    RunChange(NewConsumer(bufSize), steps);
    SenderFindsChannelOpen(Exec(NewConsumer(bufSize), steps), i);
  }
}
