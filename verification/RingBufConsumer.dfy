/** The ring-buffer consumer as a concurrent protocol: `Start`, one goroutine per reader, the cancellation that ends
    them, and whoever receives from the events channel, interleaved step by step. */
module RingBufConsumer {
  import opened Sums
  import opened EventCodec

  /** Where a reader goroutine stands. `Returned` has left the read loop, `Finished` has also told the WaitGroup. */
  datatype ReaderPc = NotStarted | Checking | Reading | Sending(event: BpfEvent) | Returned | Finished

  /** One registered reader with its history: what it decoded and what it gave up on. */
  datatype Reader = Reader(pc: ReaderPc, closed: bool, decoded: seq<BpfEvent>, discarded: seq<BpfEvent>)

  /** Where `Start` stands. */
  datatype StartPc =
    | Idle
    | Spawning(next: nat)
    | Waiting
    | Closing(next: nat)
    | Joining
    | ClosingEvents
    | ClosingDone
    | Stopped

  datatype Item = Item(reader: nat, event: BpfEvent)

  /** `buffer` is the content of the bounded events channel, `delivered` what was received from it so far. */
  datatype State = State(
    registered: nat,
    start: StartPc,
    readers: seq<Reader>,
    wg: int,
    cancelled: bool,
    capacity: nat,
    buffer: seq<Item>,
    delivered: seq<Item>,
    eventsClosed: bool,
    doneClosed: bool,
    panicked: bool)

  /** What the kernel side makes of one `Read`. */
  datatype ReadOutcome = Record(data: seq<Byte>) | ReadError

  datatype Step =
    | AddReader
    | Cancel
    | Receive
    | StartStep
    | CheckStep(i: nat)
    | ReadStep(i: nat, outcome: ReadOutcome)
    | SendStep(i: nat)
    | AbandonStep(i: nat)
    | DoneStep(i: nat)

  /** A new consumer; a capacity below one is replaced by the default. */
  function NewConsumer(bufSize: int): State {
    State(0, Idle, [], 0, false, if bufSize < 1 then 256 else bufSize, [], [], false, false, false)
  }

  // ---- Steps ----

  predicate At(s: State, i: nat, pc: ReaderPc) { i < |s.readers| && s.readers[i].pc == pc }

  /** When a step can happen. A send on a closed channel does not block: it panics. */
  predicate Enabled(s: State, step: Step) {
    !s.panicked &&
    match step
    case AddReader => true
    case Cancel => true
    case Receive => |s.buffer| > 0
    case StartStep =>
      (match s.start
       case Waiting => s.cancelled
       case Joining => s.wg == 0
       case Stopped => false
       case _ => true)
    case CheckStep(i) => At(s, i, Checking)
    case ReadStep(i, _) => At(s, i, Reading)
    case SendStep(i) => i < |s.readers| && s.readers[i].pc.Sending? && (|s.buffer| < s.capacity || s.eventsClosed)
    case AbandonStep(i) => i < |s.readers| && s.readers[i].pc.Sending? && s.cancelled
    case DoneStep(i) => At(s, i, Returned)
  }

  function SetPc(s: State, i: nat, pc: ReaderPc): State
    requires i < |s.readers|
  {
    s.(readers := s.readers[i := s.readers[i].(pc := pc)])
  }

  function ApplyStart(s: State): State {
    match s.start
    case Idle => s.(start := Spawning(0), readers := seq(s.registered, i => Reader(NotStarted, false, [], [])))
    case Spawning(k) =>
      if k < |s.readers| then SetPc(s, k, Checking).(start := Spawning(k + 1), wg := s.wg + 1)
      else s.(start := Waiting)
    case Waiting => s.(start := Closing(0))
    case Closing(k) =>
      if k < |s.readers| then
        s.(start := Closing(k + 1), readers := s.readers[k := s.readers[k].(closed := true)])
      else s.(start := Joining)
    case Joining => s.(start := ClosingEvents)
    case ClosingEvents =>
      if s.eventsClosed then s.(panicked := true) else s.(start := ClosingDone, eventsClosed := true)
    case ClosingDone =>
      if s.doneClosed then s.(panicked := true) else s.(start := Stopped, doneClosed := true)
    case Stopped => s
  }

  /** `Read` returned: an error ends the loop only under cancellation, a malformed record is skipped. */
  function ApplyRead(s: State, i: nat, outcome: ReadOutcome): State
    requires i < |s.readers|
  {
    match outcome
    case ReadError => SetPc(s, i, if s.cancelled then Returned else Checking)
    case Record(data) =>
      match Decode(data)
      case Decoded(e) =>
        s.(readers := s.readers[i := s.readers[i].(pc := Sending(e), decoded := s.readers[i].decoded + [e])])
      case _ => SetPc(s, i, Checking)
  }

  function Apply(s: State, step: Step): State
    requires Enabled(s, step)
  {
    match step
    case AddReader => s.(registered := s.registered + 1)
    case Cancel => s.(cancelled := true)
    case Receive => s.(buffer := s.buffer[1..], delivered := s.delivered + [s.buffer[0]])
    case StartStep => ApplyStart(s)
    case CheckStep(i) => SetPc(s, i, if s.cancelled then Returned else Reading)
    case ReadStep(i, outcome) => ApplyRead(s, i, outcome)
    case SendStep(i) =>
      if s.eventsClosed then s.(panicked := true)
      else SetPc(s, i, Checking).(buffer := s.buffer + [Item(i, s.readers[i].pc.event)])
    case AbandonStep(i) =>
      var r := s.readers[i];
      s.(readers := s.readers[i := r.(pc := Returned, discarded := r.discarded + [r.pc.event])])
    case DoneStep(i) =>
      if s.wg <= 0 then s.(panicked := true) else SetPc(s, i, Finished).(wg := s.wg - 1)
  }

  // ---- The invariant ----

  predicate Live(r: Reader) { !r.pc.NotStarted? && !r.pc.Finished? }

  predicate Exited(r: Reader) { r.pc.Returned? || r.pc.Finished? }

  /** Everything that ever entered the channel, in order. */
  function Sent(s: State): seq<Item> { s.delivered + s.buffer }

  /** What reader `i` contributed. */
  function SentBy(items: seq<Item>, i: nat): seq<BpfEvent> {
    if |items| == 0 then []
    else
      SentBy(items[..|items|-1], i) + (if items[|items|-1].reader == i then [items[|items|-1].event] else [])
  }

  function InHand(r: Reader): seq<BpfEvent> { if r.pc.Sending? then [r.pc.event] else [] }

  /** How far the spawning loop of `Start` has come. */
  function Spawned(s: State): nat {
    match s.start
    case Idle => 0
    case Spawning(k) => k
    case _ => |s.readers|
  }

  predicate Shutdown(s: State) {
    s.start.ClosingEvents? || s.start.ClosingDone? || s.start.Stopped?
  }

  ghost predicate ReaderInv(s: State, i: nat)
    requires i < |s.readers|
  {
    var r := s.readers[i];
    && (r.pc.NotStarted? <==> i >= Spawned(s))
    && (Exited(r) ==> s.cancelled)
    && SentBy(Sent(s), i) + InHand(r) + r.discarded == r.decoded
    && (r.discarded != [] ==> |r.discarded| == 1 && Exited(r))
    && (Shutdown(s) ==> r.pc.Finished?)
    && (r.closed ==> s.start.Closing? || s.start.Joining? || Shutdown(s))
    && (s.start.Joining? || Shutdown(s) || (s.start.Closing? && i < s.start.next) ==> r.closed)
  }

  ghost predicate Inv(s: State) {
    && !s.panicked
    && 1 <= s.capacity && |s.buffer| <= s.capacity
    && (s.start.Idle? ==> s.readers == [] && Sent(s) == [])
    && (s.start.Spawning? ==> s.start.next <= |s.readers|)
    && (s.start.Closing? ==> s.start.next <= |s.readers|)
    && (s.start.Closing? || s.start.Joining? || Shutdown(s) ==> s.cancelled)
    && s.wg == Count(s.readers, Live)
    && (s.eventsClosed <==> s.start.ClosingDone? || s.start.Stopped?)
    && (s.doneClosed <==> s.start.Stopped?)
    && (forall i | 0 <= i < |s.readers| :: ReaderInv(s, i))
    && (forall k | 0 <= k < |Sent(s)| :: Sent(s)[k].reader < |s.readers|)
  }

  lemma InitInv(bufSize: int)
    ensures Inv(NewConsumer(bufSize))
  {
  }

  lemma SentByAppend(items: seq<Item>, item: Item, i: nat)
    ensures SentBy(items + [item], i) == SentBy(items, i) + (if item.reader == i then [item.event] else [])
  {
    assert (items + [item])[..|items|] == items;
  }

  /** A step that replaces reader `i` and sends nothing. */
  lemma ReaderMoves(s: State, i: nat, r: Reader, wg: int)
    requires Inv(s) && i < |s.readers|
    requires wg == s.wg - (if Live(s.readers[i]) then 1 else 0) + (if Live(r) then 1 else 0)
    requires ReaderInv(s.(readers := s.readers[i := r], wg := wg), i)
    ensures Inv(s.(readers := s.readers[i := r], wg := wg))
  {
    var s' := s.(readers := s.readers[i := r], wg := wg);
    CountUpdate(s.readers, i, r, Live);
    assert Sent(s') == Sent(s);
    forall j: nat | j < |s'.readers| ensures ReaderInv(s', j) {
      assert ReaderInv(s, j);
    }
  }

  lemma ReceiveKeepsInv(s: State)
    requires Inv(s) && |s.buffer| > 0 && !s.panicked
    ensures Inv(Apply(s, Receive))
  {
    var s' := Apply(s, Receive);
    assert Sent(s') == Sent(s);
    forall j: nat | j < |s'.readers| ensures ReaderInv(s', j) {
      assert ReaderInv(s, j);
    }
  }

  /** A reader that has something to send finds the channel open. */
  lemma SenderFindsChannelOpen(s: State, i: nat)
    requires Inv(s) && i < |s.readers| && Live(s.readers[i])
    ensures !Shutdown(s) && !s.eventsClosed && !s.doneClosed
  {
    assert ReaderInv(s, i);
  }

  lemma SendKeepsReader(s: State, i: nat, j: nat)
    requires Inv(s) && Enabled(s, SendStep(i)) && !s.eventsClosed && j < |s.readers|
    requires Sent(Apply(s, SendStep(i))) == Sent(s) + [Item(i, s.readers[i].pc.event)]
    ensures ReaderInv(Apply(s, SendStep(i)), j)
  {
    assert ReaderInv(s, j);
    SentByAppend(Sent(s), Item(i, s.readers[i].pc.event), j);
  }

  lemma SendKeepsInv(s: State, i: nat)
    requires Inv(s) && Enabled(s, SendStep(i))
    ensures Inv(Apply(s, SendStep(i)))
  {
    SenderFindsChannelOpen(s, i);
    var s' := Apply(s, SendStep(i));
    CountUpdate(s.readers, i, s'.readers[i], Live);
    assert Sent(s') == Sent(s) + [Item(i, s.readers[i].pc.event)];
    forall j: nat | j < |s'.readers| ensures ReaderInv(s', j) {
      SendKeepsReader(s, i, j);
    }
  }

  lemma SnapshotKeepsInv(s: State)
    requires Inv(s) && s.start.Idle?
    ensures Inv(ApplyStart(s))
  {
    var s' := ApplyStart(s);
    CountNone(s'.readers, Live);
    assert Count(s.readers, Live) == 0;
    assert Sent(s') == Sent(s);
  }

  lemma SpawnKeepsInv(s: State)
    requires Inv(s) && s.start.Spawning?
    ensures Inv(ApplyStart(s))
  {
    var k, s' := s.start.next, ApplyStart(s);
    assert Sent(s') == Sent(s);
    if k < |s.readers| {
      assert ReaderInv(s, k);
      CountUpdate(s.readers, k, s'.readers[k], Live);
    }
    forall j: nat | j < |s'.readers| ensures ReaderInv(s', j) {
      assert ReaderInv(s, j);
    }
  }

  lemma CloseKeepsInv(s: State)
    requires Inv(s) && s.start.Closing?
    ensures Inv(ApplyStart(s))
  {
    var k, s' := s.start.next, ApplyStart(s);
    assert Sent(s') == Sent(s);
    if k < |s.readers| {
      CountUpdate(s.readers, k, s'.readers[k], Live);
    }
    forall j: nat | j < |s'.readers| ensures ReaderInv(s', j) {
      assert ReaderInv(s, j);
    }
  }

  lemma ShutdownKeepsInv(s: State)
    requires Inv(s) && Enabled(s, StartStep)
    requires s.start.Waiting? || s.start.Joining? || s.start.ClosingEvents? || s.start.ClosingDone?
    ensures Inv(ApplyStart(s))
  {
    var s' := ApplyStart(s);
    assert Sent(s') == Sent(s);
    forall j: nat | j < |s'.readers| ensures ReaderInv(s', j) {
      assert ReaderInv(s, j);
      if s.start.Joining? && Live(s.readers[j]) {
        CountPositive(s.readers, j, Live);
      }
    }
  }

  lemma CheckKeepsInv(s: State, i: nat)
    requires Inv(s) && Enabled(s, CheckStep(i))
    ensures Inv(Apply(s, CheckStep(i)))
  {
    PcMoveKeepsInv(s, i, if s.cancelled then Returned else Reading);
  }

  lemma ReadKeepsInv(s: State, i: nat, outcome: ReadOutcome)
    requires Inv(s) && Enabled(s, ReadStep(i, outcome))
    ensures Inv(Apply(s, ReadStep(i, outcome)))
  {
    if outcome.Record? && Decode(outcome.data).Decoded? {
      DecodedKeepsInv(s, i, Decode(outcome.data).event);
    } else {
      PcMoveKeepsInv(s, i, if outcome.ReadError? && s.cancelled then Returned else Checking);
    }
  }

  /** A reader that has nothing in hand goes on to another place without an event. */
  lemma PcMoveKeepsInv(s: State, i: nat, pc: ReaderPc)
    requires Inv(s) && i < |s.readers| && (At(s, i, Reading) || At(s, i, Checking))
    requires pc == Reading || pc == Checking || (pc == Returned && s.cancelled)
    ensures Inv(SetPc(s, i, pc))
  {
    assert ReaderInv(s, i);
    assert Sent(SetPc(s, i, pc)) == Sent(s);
    ReaderMoves(s, i, s.readers[i].(pc := pc), s.wg);
  }

  lemma DecodedKeepsInv(s: State, i: nat, e: BpfEvent)
    requires Inv(s) && i < |s.readers| && At(s, i, Reading)
    ensures var r := s.readers[i].(pc := Sending(e), decoded := s.readers[i].decoded + [e]);
            Inv(s.(readers := s.readers[i := r]))
  {
    assert ReaderInv(s, i);
    var r := s.readers[i].(pc := Sending(e), decoded := s.readers[i].decoded + [e]);
    assert Sent(s.(readers := s.readers[i := r])) == Sent(s);
    ReaderMoves(s, i, r, s.wg);
  }

  lemma AbandonKeepsInv(s: State, i: nat)
    requires Inv(s) && Enabled(s, AbandonStep(i))
    ensures Inv(Apply(s, AbandonStep(i)))
  {
    assert ReaderInv(s, i);
    var s' := Apply(s, AbandonStep(i));
    assert Sent(s') == Sent(s);
    ReaderMoves(s, i, s'.readers[i], s.wg);
  }

  lemma DoneKeepsInv(s: State, i: nat)
    requires Inv(s) && Enabled(s, DoneStep(i))
    ensures Inv(Apply(s, DoneStep(i)))
  {
    assert ReaderInv(s, i);
    CountPositive(s.readers, i, Live);
    var s' := Apply(s, DoneStep(i));
    assert Sent(s') == Sent(s);
    ReaderMoves(s, i, s'.readers[i], s'.wg);
  }

  lemma EnvironmentKeepsInv(s: State, step: Step)
    requires Inv(s) && Enabled(s, step)
    requires step.AddReader? || step.Cancel?
    ensures Inv(Apply(s, step))
  {
    var s' := Apply(s, step);
    assert Sent(s') == Sent(s);
    forall j: nat | j < |s'.readers| ensures ReaderInv(s', j) {
      assert ReaderInv(s, j);
    }
  }

  lemma StepKeepsInv(s: State, step: Step)
    requires Inv(s) && Enabled(s, step)
    ensures Inv(Apply(s, step))
  {
    match step
    case AddReader => EnvironmentKeepsInv(s, step);
    case Cancel => EnvironmentKeepsInv(s, step);
    case Receive => ReceiveKeepsInv(s);
    case SendStep(i) => SendKeepsInv(s, i);
    case StartStep =>
      if s.start.Idle? {
        SnapshotKeepsInv(s);
      } else if s.start.Spawning? {
        SpawnKeepsInv(s);
      } else if s.start.Closing? {
        CloseKeepsInv(s);
      } else {
        ShutdownKeepsInv(s);
      }
    case CheckStep(i) => CheckKeepsInv(s, i);
    case ReadStep(i, outcome) => ReadKeepsInv(s, i, outcome);
    case AbandonStep(i) => AbandonKeepsInv(s, i);
    case DoneStep(i) => DoneKeepsInv(s, i);
  }

  // ---- Every interleaving ----

  predicate ValidRun(s: State, steps: seq<Step>)
    decreases |steps|
  {
    |steps| == 0 || (Enabled(s, steps[0]) && ValidRun(Apply(s, steps[0]), steps[1..]))
  }

  function Exec(s: State, steps: seq<Step>): State
    requires ValidRun(s, steps)
    decreases |steps|
  {
    if |steps| == 0 then s else Exec(Apply(s, steps[0]), steps[1..])
  }

  lemma {:induction false} RunKeepsInv(s: State, steps: seq<Step>)
    requires Inv(s) && ValidRun(s, steps)
    ensures Inv(Exec(s, steps))
    decreases |steps|
  {
    if |steps| > 0 {
      StepKeepsInv(s, steps[0]);
      RunKeepsInv(Apply(s, steps[0]), steps[1..]);
    }
  }

  /** In every interleaving of one `Start` call: nothing is ever sent on or closed twice, the channel respects its
      capacity, and both closes come after every reader has exited. */
  lemma NoPanicAndOrderlyClose(bufSize: int, steps: seq<Step>)
    requires ValidRun(NewConsumer(bufSize), steps)
    ensures var s := Exec(NewConsumer(bufSize), steps);
            && !s.panicked
            && |s.buffer| <= s.capacity
            && (s.doneClosed ==> s.eventsClosed)
            && (s.eventsClosed ==> s.wg == 0 && forall i | 0 <= i < |s.readers| :: s.readers[i].pc.Finished?)
            && (forall i | 0 <= i < |s.readers| :: Exited(s.readers[i]) ==> s.cancelled)
  {
    InitInv(bufSize);
    RunKeepsInv(NewConsumer(bufSize), steps);
    var s := Exec(NewConsumer(bufSize), steps);
    forall i: nat | i < |s.readers|
      ensures Exited(s.readers[i]) ==> s.cancelled
      ensures s.eventsClosed ==> s.readers[i].pc.Finished?
    {
      assert ReaderInv(s, i);
    }
    if s.eventsClosed {
      CountNone(s.readers, Live);
    }
  }

  /** The event that a step lets reader `i` decode, if any. */
  function StepDecoded(step: Step, i: nat): seq<BpfEvent> {
    if step.ReadStep? && step.i == i && step.outcome.Record? && Decode(step.outcome.data).Decoded?
    then [Decode(step.outcome.data).event] else []
  }

  /** The events that the `Read` calls of reader `i` yielded during a run, in order, malformed records left out. */
  function DecodedIn(steps: seq<Step>, i: nat): seq<BpfEvent> {
    if |steps| == 0 then [] else StepDecoded(steps[0], i) + DecodedIn(steps[1..], i)
  }

  function History(s: State, i: nat): seq<BpfEvent> {
    if i < |s.readers| then s.readers[i].decoded else []
  }

  lemma StartHistory(s: State, i: nat)
    requires Inv(s) && Enabled(s, StartStep)
    ensures History(ApplyStart(s), i) == History(s, i)
  {
  }

  lemma OtherHistory(s: State, step: Step, i: nat)
    requires Enabled(s, step) && !step.StartStep? && !step.ReadStep?
    ensures History(Apply(s, step), i) == History(s, i)
  {
  }

  lemma StepHistory(s: State, step: Step, i: nat)
    requires Inv(s) && Enabled(s, step)
    ensures History(Apply(s, step), i) == History(s, i) + StepDecoded(step, i)
  {
    if step.StartStep? {
      StartHistory(s, i);
    } else if !step.ReadStep? {
      OtherHistory(s, step, i);
    }
  }

  lemma {:induction false} RunHistory(s: State, steps: seq<Step>, i: nat)
    requires Inv(s) && ValidRun(s, steps)
    ensures History(Exec(s, steps), i) == History(s, i) + DecodedIn(steps, i)
    decreases |steps|
  {
    if |steps| > 0 {
      StepKeepsInv(s, steps[0]);
      StepHistory(s, steps[0], i);
      RunHistory(Apply(s, steps[0]), steps[1..], i);
      Regroup(History(s, i), StepDecoded(steps[0], i), DecodedIn(steps[1..], i));
    }
  }

  lemma Regroup<T>(a: seq<T>, b: seq<T>, c: seq<T>)
    ensures (a + b) + c == a + (b + c)
  {
  }

  /** What a reader decoded reaches the channel in that order. The only exceptions are the event it is about to
      send, and at most one last event it gave up on, which takes a cancellation. */
  lemma EventsArriveInOrder(bufSize: int, steps: seq<Step>, i: nat)
    requires ValidRun(NewConsumer(bufSize), steps)
    requires i < |Exec(NewConsumer(bufSize), steps).readers|
    ensures var s := Exec(NewConsumer(bufSize), steps);
            var r := s.readers[i];
            && SentBy(s.delivered + s.buffer, i) + InHand(r) + r.discarded == DecodedIn(steps, i)
            && |InHand(r) + r.discarded| <= 1
            && (r.discarded != [] ==> s.cancelled && Exited(r))
  {
    InitInv(bufSize);
    RunKeepsInv(NewConsumer(bufSize), steps);
    RunHistory(NewConsumer(bufSize), steps, i);
    WhereDecodedWent(Exec(NewConsumer(bufSize), steps), i);
  }

  lemma WhereDecodedWent(s: State, i: nat)
    requires Inv(s) && i < |s.readers|
    ensures var r := s.readers[i];
            && SentBy(s.delivered + s.buffer, i) + InHand(r) + r.discarded == r.decoded
            && |InHand(r) + r.discarded| <= 1
            && (r.discarded != [] ==> s.cancelled && Exited(r))
  {
    assert ReaderInv(s, i);
  }

  // ---- Which runs lose an event ----

  predicate Lost(s: State, i: nat) { i < |s.readers| && s.readers[i].discarded != [] }

  lemma StartLosesNothing(s: State, i: nat)
    requires Inv(s) && Enabled(s, StartStep)
    ensures Lost(ApplyStart(s), i) <==> Lost(s, i)
  {
  }

  lemma OtherStepLosesNothing(s: State, step: Step, i: nat)
    requires Enabled(s, step) && !step.StartStep? && !step.AbandonStep?
    ensures Lost(Apply(s, step), i) <==> Lost(s, i)
  {
  }

  lemma {:induction false} RunLoses(s: State, steps: seq<Step>, i: nat)
    requires Inv(s) && ValidRun(s, steps)
    ensures Lost(Exec(s, steps), i) <==> Lost(s, i) || AbandonStep(i) in steps
    decreases |steps|
  {
    if |steps| > 0 {
      var first, rest := steps[0], steps[1..];
      assert steps == [first] + rest;
      if first.StartStep? {
        StartLosesNothing(s, i);
      } else if !first.AbandonStep? {
        OtherStepLosesNothing(s, first, i);
      }
      StepKeepsInv(s, first);
      RunLoses(Apply(s, first), rest, i);
    }
  }

  /** What a reader decoded falls short on the channel, but for the event it still holds, exactly if the run took its
      cancellation branch with an event in hand. */
  lemma LossExactly(bufSize: int, steps: seq<Step>, i: nat)
    requires ValidRun(NewConsumer(bufSize), steps)
    requires i < |Exec(NewConsumer(bufSize), steps).readers|
    ensures var s := Exec(NewConsumer(bufSize), steps);
            SentBy(s.delivered + s.buffer, i) + InHand(s.readers[i]) != DecodedIn(steps, i) <==> AbandonStep(i) in steps
  {
    InitInv(bufSize);
    RunLoses(NewConsumer(bufSize), steps, i);
    EventsArriveInOrder(bufSize, steps, i);
  }

  lemma {:induction false} RunAppend(s: State, steps: seq<Step>, step: Step)
    requires ValidRun(s, steps) && Enabled(Exec(s, steps), step)
    ensures ValidRun(s, steps + [step]) && Exec(s, steps + [step]) == Apply(Exec(s, steps), step)
    decreases |steps|
  {
    if |steps| == 0 {
      assert steps + [step] == [step] && [step][1..] == [];
    } else {
      RunAppend(Apply(s, steps[0]), steps[1..], step);
      assert (steps + [step])[1..] == steps[1..] + [step];
    }
  }

  /** Reader `i` has just decoded `e`; nothing was lost so far. */
  predicate Holding(s: State, i: nat, e: BpfEvent) {
    !s.panicked && i < |s.readers| && s.readers[i].pc == Sending(e) && s.readers[i].discarded == []
  }

  predicate Gone(s: State, i: nat, e: BpfEvent) { i < |s.readers| && s.readers[i].discarded == [e] }

  /** Any event in hand can be lost, room in the channel or not: cancellation opens the branch that gives it up. */
  lemma EventInHandCanBeLost(s: State, steps: seq<Step>, i: nat, e: BpfEvent)
    requires ValidRun(s, steps) && Holding(Exec(s, steps), i, e)
    ensures ValidRun(s, steps + [Cancel] + [AbandonStep(i)])
    ensures Gone(Exec(s, steps + [Cancel] + [AbandonStep(i)]), i, e)
  {
    RunAppend(s, steps, Cancel);
    RunAppend(s, steps + [Cancel], AbandonStep(i));
  }

  /** One registered reader, spawned and about to check for cancellation. */
  const SPAWN_ONE: seq<Step> := [AddReader] + [StartStep] + [StartStep]

  lemma SpawnsOne(bufSize: int)
    ensures ValidRun(NewConsumer(bufSize), SPAWN_ONE)
    ensures var s := Exec(NewConsumer(bufSize), SPAWN_ONE);
            !s.panicked && !s.cancelled && s.readers == [Reader(Checking, false, [], [])]
  {
    var s := NewConsumer(bufSize);
    assert ValidRun(s, []) && Exec(s, []) == s;
    RunAppend(s, [], AddReader);
    assert [] + [AddReader] == [AddReader];
    RunAppend(s, [AddReader], StartStep);
    assert Apply(Apply(s, AddReader), StartStep).readers == [Reader(NotStarted, false, [], [])];
    RunAppend(s, [AddReader] + [StartStep], StartStep);
  }

  /** From there to an event in hand. */
  function ReadOne(data: seq<Byte>): seq<Step> { SPAWN_ONE + [CheckStep(0)] + [ReadStep(0, Record(data))] }

  lemma ReadsOne(bufSize: int, data: seq<Byte>, e: BpfEvent)
    requires Decode(data) == Decoded(e)
    ensures ValidRun(NewConsumer(bufSize), ReadOne(data))
    ensures Holding(Exec(NewConsumer(bufSize), ReadOne(data)), 0, e)
  {
    var s := NewConsumer(bufSize);
    SpawnsOne(bufSize);
    RunAppend(s, SPAWN_ONE, CheckStep(0));
    RunAppend(s, SPAWN_ONE + [CheckStep(0)], ReadStep(0, Record(data)));
  }

  /** And such runs exist, for every capacity and every event a record can hold. */
  lemma SomeRunLosesAnEvent(bufSize: int, data: seq<Byte>, e: BpfEvent)
    requires Decode(data) == Decoded(e)
    ensures var steps := ReadOne(data) + [Cancel] + [AbandonStep(0)];
            ValidRun(NewConsumer(bufSize), steps) && Gone(Exec(NewConsumer(bufSize), steps), 0, e)
  {
    ReadsOne(bufSize, data, e);
    EventInHandCanBeLost(NewConsumer(bufSize), ReadOne(data), 0, e);
  }

  // ---- Shutdown terminates ----

  /** The steps taken by the program itself rather than by its surroundings. */
  predicate IsProgramStep(step: Step) { !step.AddReader? && !step.Cancel? && !step.Receive? }

  /** How many more steps a reader can take once the context is cancelled. */
  function ReaderRank(r: Reader): nat {
    match r.pc
    case NotStarted => 5
    case Reading => 4
    case Sending(_) => 3
    case Checking => 2
    case Returned => 1
    case Finished => 0
  }

  function ReaderRanks(readers: seq<Reader>): nat {
    if |readers| == 0 then 0 else ReaderRanks(readers[..|readers|-1]) + ReaderRank(readers[|readers|-1])
  }

  function StartRank(s: State): int {
    var n := |s.readers|;
    match s.start
    case Idle => 0
    case Spawning(k) => 2 * n - k + 6
    case Waiting => n + 5
    case Closing(k) => n - k + 4
    case Joining => 3
    case ClosingEvents => 2
    case ClosingDone => 1
    case Stopped => 0
  }

  function Measure(s: State): int { StartRank(s) + ReaderRanks(s.readers) }

  lemma {:induction false} RanksUpdate(readers: seq<Reader>, i: nat, r: Reader)
    requires i < |readers|
    ensures ReaderRanks(readers[i := r]) == ReaderRanks(readers) - ReaderRank(readers[i]) + ReaderRank(r)
  {
    var n := |readers| - 1;
    if i == n {
      assert readers[i := r][..n] == readers[..n];
    } else {
      assert readers[i := r][..n] == readers[..n][i := r];
      RanksUpdate(readers[..n], i, r);
    }
  }

  lemma {:induction false} RanksBound(readers: seq<Reader>)
    ensures ReaderRanks(readers) <= 5 * |readers|
  {
    if |readers| > 0 {
      RanksBound(readers[..|readers|-1]);
    }
  }

  lemma StartStepCountsDown(s: State)
    requires Inv(s) && Enabled(s, StartStep) && !s.start.Idle?
    ensures Measure(ApplyStart(s)) < Measure(s)
  {
    var s' := ApplyStart(s);
    if s.start.Spawning? && s.start.next < |s.readers| {
      var k := s.start.next;
      assert ReaderInv(s, k);
      RanksUpdate(s.readers, k, s'.readers[k]);
    } else if s.start.Closing? && s.start.next < |s.readers| {
      var k := s.start.next;
      RanksUpdate(s.readers, k, s'.readers[k]);
    }
  }

  lemma ReaderStepCountsDown(s: State, step: Step)
    requires Inv(s) && Enabled(s, step) && s.cancelled
    requires step.CheckStep? || step.ReadStep? || step.SendStep? || step.AbandonStep? || step.DoneStep?
    ensures Apply(s, step).start == s.start && |Apply(s, step).readers| == |s.readers|
    ensures ReaderRanks(Apply(s, step).readers) < ReaderRanks(s.readers)
  {
    var i := step.i;
    if step.SendStep? {
      SenderFindsChannelOpen(s, i);
    } else if step.DoneStep? {
      CountPositive(s.readers, i, Live);
    }
    OneReaderMoves(s, step);
    RanksUpdate(s.readers, i, Apply(s, step).readers[i]);
  }

  lemma OneReaderMoves(s: State, step: Step)
    requires Enabled(s, step) && s.cancelled
    requires step.CheckStep? || step.ReadStep? || step.SendStep? || step.AbandonStep? || step.DoneStep?
    requires (step.SendStep? ==> !s.eventsClosed) && (step.DoneStep? ==> s.wg > 0)
    ensures var i, s' := step.i, Apply(s, step);
            && |s'.readers| == |s.readers| && s'.readers == s.readers[i := s'.readers[i]]
            && ReaderRank(s'.readers[i]) < ReaderRank(s.readers[i])
  {
  }

  /** Once cancelled, every program step counts down and the surroundings cannot wind the count back up. */
  lemma MeasureDecreases(s: State, step: Step)
    requires Inv(s) && Enabled(s, step) && s.cancelled && !s.start.Idle?
    ensures Apply(s, step).cancelled && !Apply(s, step).start.Idle?
    ensures Measure(Apply(s, step)) <= Measure(s) - (if IsProgramStep(step) then 1 else 0)
  {
    if step.StartStep? {
      StartStepCountsDown(s);
    } else if IsProgramStep(step) {
      ReaderStepCountsDown(s, step);
    }
  }

  function ProgramSteps(steps: seq<Step>): nat {
    if |steps| == 0 then 0 else (if IsProgramStep(steps[0]) then 1 else 0) + ProgramSteps(steps[1..])
  }

  lemma MeasureBounds(s: State)
    requires Inv(s)
    ensures 0 <= Measure(s) <= 7 * |s.readers| + 6
  {
    RanksBound(s.readers);
  }

  /** After cancellation the program takes at most `7n + 6` more steps, however its surroundings behave. */
  lemma {:induction false} ShutdownIsBounded(s: State, steps: seq<Step>)
    requires Inv(s) && ValidRun(s, steps) && s.cancelled && !s.start.Idle?
    ensures ProgramSteps(steps) + Measure(Exec(s, steps)) <= Measure(s)
    ensures ProgramSteps(steps) <= 7 * |s.readers| + 6
    ensures Exec(s, steps).cancelled && !Exec(s, steps).start.Idle?
    decreases |steps|
  {
    MeasureBounds(s);
    if |steps| > 0 {
      var s' := Apply(s, steps[0]);
      MeasureDecreases(s, steps[0]);
      StepKeepsInv(s, steps[0]);
      ShutdownIsBounded(s', steps[1..]);
      RunKeepsInv(s', steps[1..]);
      MeasureBounds(Exec(s', steps[1..]));
    }
  }

  /** A program step that needs nothing from outside: a `Read` is only sure to return once its reader is closed. */
  predicate Unblocked(s: State, step: Step) {
    && IsProgramStep(step)
    && Enabled(s, step)
    && (step.ReadStep? ==> step.outcome.ReadError? && step.i < |s.readers| && s.readers[step.i].closed)
  }

  /** After cancellation nothing waits forever: until `Start` has returned, some step needs nothing from outside. */
  lemma ShutdownNeverStuck(s: State) returns (step: Step)
    requires Inv(s) && s.cancelled && !s.start.Idle? && !s.start.Stopped?
    ensures Unblocked(s, step)
  {
    if s.start.Joining? && s.wg != 0 {
      var i := CountWitness(s.readers, Live);
      assert ReaderInv(s, i);
      match s.readers[i].pc
      case Checking => step := CheckStep(i);
      case Reading => step := ReadStep(i, ReadError);
      case Sending(_) => step := AbandonStep(i);
      case Returned => step := DoneStep(i);
    } else {
      step := StartStep;
    }
  }

  /** So a cancelled run that cannot go on by itself is one where `Start` returned, every reader finished, and both
      channels are closed. */
  lemma ShutdownCompletes(s: State, steps: seq<Step>)
    requires Inv(s) && ValidRun(s, steps) && s.cancelled && !s.start.Idle?
    requires forall step :: !Unblocked(Exec(s, steps), step)
    ensures var t := Exec(s, steps);
            && t.start.Stopped? && t.eventsClosed && t.doneClosed && t.wg == 0
            && forall i | 0 <= i < |t.readers| :: t.readers[i].pc.Finished?
  {
    ShutdownIsBounded(s, steps);
    RunKeepsInv(s, steps);
    var t := Exec(s, steps);
    if !t.start.Stopped? {
      var step := ShutdownNeverStuck(t);
      assert false;
    }
    forall i: nat | i < |t.readers| ensures t.readers[i].pc.Finished? {
      assert ReaderInv(t, i);
    }
    CountNone(t.readers, Live);
  }
}
