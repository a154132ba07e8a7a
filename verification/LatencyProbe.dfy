/** The start/end latency probes. Seven kernel programs share one shape: remember a start time per key in a bounded
    map, and on the matching end event compute the delay and submit a record if the ring buffer has room. They differ
    in constants, in how an event is filled in, and in whether the map entry is deleted before or after the ring
    buffer is asked for space. */
module LatencyProbe {
  import opened Sums
  import opened EventCodec

  datatype Key = Task(pidTgid: U64) | Pid(pid: U32) | Block(dev: U32, sector: U64)

  /** What a start handler stores; the connection fields are zero for the probes that only store a time. */
  datatype StartCtx = StartCtx(startNs: U64, dstPort: U16, dstIp: U32, srcPort: U16)

  datatype Order = DeleteFirst | ReserveFirst

  datatype Program =
    RunqueueDelay | SyscallLatency | DiskIoLatency | MemReclaim | DnsLatency | ConnectLatency | TlsHandshake

  function SignalType(p: Program): U32 {
    match p
    case DnsLatency => 1
    case RunqueueDelay => 3
    case ConnectLatency => 4
    case TlsHandshake => 5
    case MemReclaim => 7
    case DiskIoLatency => 8
    case SyscallLatency => 9
  }

  function MaxEntries(p: Program): (n: nat)
    ensures n >= 1
  {
    if p.RunqueueDelay? || p.SyscallLatency? || p.DiskIoLatency? then 16384 else 8192
  }

  /** The shortest delay a program reports, in nanoseconds; zero where it has no filter. */
  function Threshold(p: Program): nat {
    match p
    case RunqueueDelay => 100000
    case SyscallLatency => 1000000
    case DiskIoLatency => 500000
    case MemReclaim => 10000
    case _ => 0
  }

  function OrderOf(p: Program): Order {
    if p.DnsLatency? || p.ConnectLatency? || p.TlsHandshake? then ReserveFirst else DeleteFirst
  }

  /** Only DNS looks at the destination port before recording a start. */
  predicate Tracked(p: Program, ctx: StartCtx) { p.DnsLatency? ==> ctx.dstPort == 53 }

  function Sub64(a: U64, b: U64): U64 { if a >= b then a - b else a - b + TWO_TO_THE_64 }

  /** One firing of a handler. For an end event `now` is the time the delay is computed from, `stamp` the time read
      again for the record, `current` the running task, `ret` the traced function's result, and `room` whether the
      ring buffer can take a record. */
  datatype Event =
    | Start(key: Key, ctx: StartCtx)
    | End(key: Key, now: U64, stamp: U64, current: U64, ret: I32, room: bool)

  datatype Outcome =
    | Untracked
    | Refused
    | Recorded
    | Overwritten
    | NoStart
    | Filtered
    | Dropped
    | Emitted(event: BpfEvent)

  function Errno(p: Program, ret: I32): I32 {
    match p
    case ConnectLatency => if ret == -0x8000_0000 then ret else if ret < 0 then -ret else 0
    case TlsHandshake => if ret <= 0 then 1 else 0
    case _ => 0
  }

  /** The record of an end event. */
  function RecordOf(p: Program, key: Key, ctx: StartCtx, e: Event): BpfEvent
    requires e.End?
  {
    var conn := p.DnsLatency? || p.ConnectLatency?;
    BpfEvent(
      if p.RunqueueDelay? && key.Pid? then key.pid else e.current / 0x1_0000_0000,
      e.current % 0x1_0000_0000,
      if p.RunqueueDelay? then e.now else e.stamp,
      SignalType(p),
      Sub64(e.now, ctx.startNs),
      if conn then ctx.srcPort else 0,
      if p.TlsHandshake? then 443 else if conn then ctx.dstPort else 0,
      if conn then ctx.dstIp else 0,
      Errno(p, e.ret))
  }

  type Inflight = map<Key, StartCtx>

  /** What one event does: the specification both orderings meet. */
  function OutcomeOf(p: Program, m: Inflight, e: Event): Outcome {
    match e
    case Start(key, ctx) =>
      if !Tracked(p, ctx) then Untracked
      else if key in m then Overwritten
      else if |m| >= MaxEntries(p) then Refused
      else Recorded
    case End(key, now, _, _, _, room) =>
      if key !in m then NoStart
      else if Sub64(now, m[key].startNs) < Threshold(p) then Filtered
      else if !room then Dropped
      else Emitted(RecordOf(p, key, m[key], e))
  }

  function InflightAfter(p: Program, m: Inflight, e: Event): Inflight {
    match e
    case Start(key, ctx) =>
      if OutcomeOf(p, m, e).Recorded? || OutcomeOf(p, m, e).Overwritten? then m[key := ctx] else m
    case End(key, _, _, _, _, _) => m - {key}
  }

  /** The in-flight map after a whole history. */
  function Replay(p: Program, h: seq<Event>): Inflight {
    if |h| == 0 then map[] else InflightAfter(p, Replay(p, h[..|h|-1]), h[|h|-1])
  }

  function Outcomes(p: Program, h: seq<Event>): (r: seq<Outcome>)
    ensures |r| == |h|
  {
    if |h| == 0 then []
    else Outcomes(p, h[..|h|-1]) + [OutcomeOf(p, Replay(p, h[..|h|-1]), h[|h|-1])]
  }

  /** The records submitted over a history, oldest first. */
  function Emissions(p: Program, h: seq<Event>): seq<BpfEvent> {
    if |h| == 0 then []
    else
      var o := OutcomeOf(p, Replay(p, h[..|h|-1]), h[|h|-1]);
      Emissions(p, h[..|h|-1]) + (if o.Emitted? then [o.event] else [])
  }

  function EncodeAll(events: seq<BpfEvent>): (r: seq<seq<Byte>>)
    ensures |r| == |events| && forall i | 0 <= i < |events| :: r[i] == Encode(events[i])
  {
    seq(|events|, i requires 0 <= i < |events| => Encode(events[i]))
  }

  lemma ReplayAppend(p: Program, h: seq<Event>, e: Event)
    ensures Replay(p, h + [e]) == InflightAfter(p, Replay(p, h), e)
    ensures Outcomes(p, h + [e]) == Outcomes(p, h) + [OutcomeOf(p, Replay(p, h), e)]
    ensures var o := OutcomeOf(p, Replay(p, h), e);
            Emissions(p, h + [e]) == Emissions(p, h) + (if o.Emitted? then [o.event] else [])
  {
    assert (h + [e])[..|h|] == h;
  }

  /** One loaded probe: its hash map and the bytes it has submitted to the ring buffer. */
  class Probe {
    const program: Program
    var inflight: Inflight
    var ring: seq<seq<Byte>>
    ghost var history: seq<Event>

    ghost predicate Valid()
      reads this
    {
      && inflight == Replay(program, history)
      && ring == EncodeAll(Emissions(program, history))
    }

    constructor (program: Program)
      ensures Valid() && this.program == program && history == []
    {
      this.program := program;
      inflight := map[];
      ring := [];
      history := [];
    }

    /** `bpf_map_update_elem` with BPF_ANY: it fails when a new key meets a full map. */
    method UpdateElem(key: Key, ctx: StartCtx)
      modifies this`inflight
      ensures inflight == if key in old(inflight) || |old(inflight)| < MaxEntries(program)
                          then old(inflight)[key := ctx] else old(inflight)
    {
      if key in inflight || |inflight| < MaxEntries(program) {
        inflight := inflight[key := ctx];
      }
    }

    method DeleteElem(key: Key)
      modifies this`inflight
      ensures inflight == old(inflight) - {key}
    {
      inflight := inflight - {key};
    }

    method OnStart(key: Key, ctx: StartCtx)
      requires Valid()
      modifies this
      ensures Valid() && history == old(history) + [Start(key, ctx)]
    {
      history := history + [Start(key, ctx)];
      ReplayAppend(program, old(history), Start(key, ctx));
      if program.DnsLatency? && ctx.dstPort != 53 {
        return;
      }
      UpdateElem(key, ctx);
    }

    /** Fill in a reserved record and submit it. */
    method Submit(event: BpfEvent)
      modifies this`ring
      ensures ring == old(ring) + [Encode(event)]
    {
      ring := ring + [Encode(event)];
    }

    /** Delete the entry, filter, then ask for space. */
    method EndDeleteFirst(key: Key, e: Event)
      requires e.End? && e.key == key && key in inflight
      modifies this`inflight, this`ring
      ensures inflight == old(inflight) - {key}
      ensures ring == old(ring) + Submitted(OutcomeOf(program, old(inflight), e))
    {
      var ctx := inflight[key];
      var delta := Sub64(e.now, ctx.startNs);
      DeleteElem(key);
      if delta < Threshold(program) {
        return;
      }
      if !e.room {
        return;
      }
      Submit(RecordOf(program, key, ctx, e));
    }

    /** Ask for space first and delete the entry on both ways out. */
    method EndReserveFirst(key: Key, e: Event)
      requires OrderOf(program) == ReserveFirst
      requires e.End? && e.key == key && key in inflight
      modifies this`inflight, this`ring
      ensures inflight == old(inflight) - {key}
      ensures ring == old(ring) + Submitted(OutcomeOf(program, old(inflight), e))
    {
      var ctx := inflight[key];
      if !e.room {
        DeleteElem(key);
        return;
      }
      Submit(RecordOf(program, key, ctx, e));
      DeleteElem(key);
    }

    /** The end handler in the program's own ordering. */
    method HandleEnd(key: Key, e: Event)
      requires e.End? && e.key == key
      modifies this`inflight, this`ring
      ensures inflight == old(inflight) - {key}
      ensures ring == old(ring) + Submitted(OutcomeOf(program, old(inflight), e))
    {
      if key !in inflight {
        assert inflight - {key} == inflight;
        return;
      }
      match OrderOf(program)
      case DeleteFirst => EndDeleteFirst(key, e);
      case ReserveFirst => EndReserveFirst(key, e);
    }

    method OnEnd(key: Key, now: U64, stamp: U64, current: U64, ret: I32, room: bool)
      requires Valid()
      modifies this
      ensures Valid() && history == old(history) + [End(key, now, stamp, current, ret, room)]
    {
      var e := End(key, now, stamp, current, ret, room);
      ReplayAppend(program, history, e);
      EncodeAppend(Emissions(program, history), OutcomeOf(program, inflight, e));
      HandleEnd(key, e);
      history := history + [e];
    }
  }

  /** The bytes an outcome adds to the ring buffer. */
  function Submitted(o: Outcome): seq<seq<Byte>> { if o.Emitted? then [Encode(o.event)] else [] }

  lemma EncodeAppend(events: seq<BpfEvent>, o: Outcome)
    ensures EncodeAll(events + (if o.Emitted? then [o.event] else [])) == EncodeAll(events) + Submitted(o)
  {
  }

  // ---- Where an emitted value comes from ----

  /** An event that sets or clears the entry of `key`. */
  predicate Touches(p: Program, h: seq<Event>, j: nat, key: Key)
    requires j < |h|
  {
    h[j].key == key && (h[j].End? || Outcomes(p, h)[j].Recorded? || Outcomes(p, h)[j].Overwritten?)
  }

  /** Event `i` is the start that `key` is waiting on before event `n`: stored, and not touched since. */
  ghost predicate LatestStart(p: Program, h: seq<Event>, n: nat, key: Key, i: nat)
    requires n <= |h|
  {
    && i < n && h[i].Start? && Touches(p, h, i, key)
    && forall j: nat | i < j < n :: !Touches(p, h, j, key)
  }

  lemma {:induction false} OutcomesPrefix(p: Program, h: seq<Event>, n: nat)
    requires n <= |h|
    ensures Outcomes(p, h)[..n] == Outcomes(p, h[..n])
  {
    if n == |h| {
      assert h[..n] == h;
    } else {
      var m := |h| - 1;
      OutcomesPrefix(p, h[..m], n);
      PrefixOfPrefix(h, m, n);
      PrefixOfPrefix(Outcomes(p, h), m, n);
    }
  }

  lemma PrefixOfPrefix<T>(s: seq<T>, m: nat, n: nat)
    requires n <= m <= |s|
    ensures s[..m][..n] == s[..n]
  {
  }

  lemma {:induction false} OutcomeAt(p: Program, h: seq<Event>, n: nat)
    requires n < |h|
    ensures Outcomes(p, h)[n] == OutcomeOf(p, Replay(p, h[..n]), h[n])
  {
    OutcomesPrefix(p, h, n + 1);
    assert h[..n+1][..n] == h[..n];
    assert Outcomes(p, h)[n] == Outcomes(p, h)[..n+1][n];
  }

  lemma {:induction false} PrefixTouches(p: Program, h: seq<Event>, n: nat, j: nat, key: Key)
    requires j < n <= |h|
    ensures Touches(p, h, j, key) == Touches(p, h[..n], j, key)
  {
    OutcomeAt(p, h, j);
    OutcomeAt(p, h[..n], j);
    assert h[..n][..j] == h[..j];
  }

  lemma {:induction false} LatestStartStays(p: Program, h: seq<Event>, key: Key, i: nat)
    requires |h| > 0 && LatestStart(p, h[..|h|-1], |h| - 1, key, i) && !Touches(p, h, |h| - 1, key)
    ensures LatestStart(p, h, |h|, key, i)
  {
    var n := |h| - 1;
    forall j: nat | i <= j < n ensures Touches(p, h, j, key) == Touches(p, h[..n], j, key) {
      PrefixTouches(p, h, n, j, key);
    }
  }

  /** A pending entry is the latest start of its key. */
  lemma {:induction false} PendingIsLatestStart(p: Program, h: seq<Event>, key: Key) returns (i: nat)
    requires key in Replay(p, h)
    ensures LatestStart(p, h, |h|, key, i) && h[i] == Start(key, Replay(p, h)[key])
  {
    var n := |h| - 1;
    var init, e := h[..n], h[n];
    OutcomeAt(p, h, n);
    if Touches(p, h, n, key) {
      i := n;
    } else {
      assert Replay(p, h) == InflightAfter(p, Replay(p, init), e);
      assert key in Replay(p, init) && Replay(p, init)[key] == Replay(p, h)[key];
      i := PendingIsLatestStart(p, init, key);
      LatestStartStays(p, h, key, i);
      assert h[i] == init[i];
    }
  }

  ghost function TimeOf(e: Event): U64 { if e.Start? then e.ctx.startNs else e.now }

  ghost predicate ClockMonotone(h: seq<Event>) {
    forall i, j | 0 <= i <= j < |h| :: TimeOf(h[i]) <= TimeOf(h[j])
  }

  /** Whatever a program emits is the end time minus the latest start of the same key, modulo 2^64 and exactly if
      the clock never went back, and is never below the program's threshold. */
  lemma {:induction false} EmittedValue(p: Program, h: seq<Event>, n: nat) returns (i: nat)
    requires n < |h| && Outcomes(p, h)[n].Emitted?
    ensures h[n].End? && LatestStart(p, h, n, h[n].key, i)
    ensures var v := Outcomes(p, h)[n].event.valueNs;
            && v == Sub64(h[n].now, h[i].ctx.startNs)
            && v >= Threshold(p)
            && (ClockMonotone(h) ==> v == h[n].now - h[i].ctx.startNs)
  {
    OutcomeAt(p, h, n);
    var key := h[n].key;
    i := PendingIsLatestStart(p, h[..n], key);
    forall j: nat | j < n ensures Touches(p, h, j, key) == Touches(p, h[..n], j, key) {
      PrefixTouches(p, h, n, j, key);
    }
    assert h[i] == h[..n][i];
    assert ClockMonotone(h) ==> TimeOf(h[i]) <= TimeOf(h[n]);
  }

  lemma EmittedIsEnd(p: Program, h: seq<Event>, n: nat)
    requires n < |h| && Outcomes(p, h)[n].Emitted?
    ensures h[n].End?
  {
    OutcomeAt(p, h, n);
  }

  /** The end of a key ends its wait: after it, an earlier start is no longer the latest one. */
  lemma EndSupersedes(p: Program, h: seq<Event>, n: nat, n': nat, i: nat)
    requires n < n' < |h| && h[n].End?
    requires LatestStart(p, h, n, h[n].key, i)
    ensures !LatestStart(p, h, n', h[n].key, i)
  {
    assert Touches(p, h, n, h[n].key);
  }

  /** No start is reported twice. */
  lemma EmittedOncePerStart(p: Program, h: seq<Event>, n: nat, n': nat, i: nat)
    requires n < |h| && n' < |h| && Outcomes(p, h)[n].Emitted? && Outcomes(p, h)[n'].Emitted?
    requires LatestStart(p, h, n, h[n].key, i) && LatestStart(p, h, n', h[n'].key, i)
    ensures n == n'
  {
    EmittedIsEnd(p, h, n);
    EmittedIsEnd(p, h, n');
    assert h[n].key == h[i].key && h[n'].key == h[i].key;
    if n < n' {
      EndSupersedes(p, h, n, n', i);
    } else if n' < n {
      EndSupersedes(p, h, n', n, i);
    }
  }

  // ---- Accounting ----

  predicate IsTrackedStart(o: Outcome) { IsRefused(o) || IsOverwritten(o) || IsRecorded(o) }

  predicate IsConsumed(o: Outcome) { IsEmitted(o) || IsFiltered(o) || IsDropped(o) }

  predicate IsRefused(o: Outcome) { o.Refused? }

  predicate IsRecorded(o: Outcome) { o.Recorded? }

  predicate IsOverwritten(o: Outcome) { o.Overwritten? }

  predicate IsFiltered(o: Outcome) { o.Filtered? }

  predicate IsDropped(o: Outcome) { o.Dropped? }

  predicate IsEmitted(o: Outcome) { o.Emitted? }

  lemma {:induction false} OutcomeKinds(os: seq<Outcome>)
    ensures Count(os, IsTrackedStart) == Count(os, IsRefused) + Count(os, IsOverwritten) + Count(os, IsRecorded)
    ensures Count(os, IsConsumed) == Count(os, IsEmitted) + Count(os, IsFiltered) + Count(os, IsDropped)
  {
    if |os| > 0 {
      OutcomeKinds(os[..|os|-1]);
    }
  }

  lemma InflightSize(p: Program, m: Inflight, e: Event)
    ensures |InflightAfter(p, m, e)| ==
            |m| + (if OutcomeOf(p, m, e).Recorded? then 1 else 0) - (if IsConsumed(OutcomeOf(p, m, e)) then 1 else 0)
  {
    if e.End? {
      RemovalSize(m, e.key);
    } else {
      UpdateSize(m, e.key, e.ctx);
    }
  }

  lemma RemovalSize(m: Inflight, key: Key)
    ensures |m - {key}| == |m| - (if key in m then 1 else 0)
  {
    if key in m {
      assert (m - {key}).Keys == m.Keys - {key};
    } else {
      assert m - {key} == m;
    }
  }

  lemma UpdateSize(m: Inflight, key: Key, ctx: StartCtx)
    ensures |m[key := ctx]| == |m| + (if key in m then 0 else 1)
  {
    assert m[key := ctx].Keys == m.Keys + {key};
  }

  /** Entries come from recorded starts and leave through end events. */
  lemma {:induction false} EntriesBalance(p: Program, h: seq<Event>)
    ensures Count(Outcomes(p, h), IsRecorded) == |Replay(p, h)| + Count(Outcomes(p, h), IsConsumed)
  {
    if |h| > 0 {
      EntriesBalance(p, h[..|h|-1]);
      InflightSize(p, Replay(p, h[..|h|-1]), h[|h|-1]);
    }
  }

  lemma {:induction false} EmissionsCounted(p: Program, h: seq<Event>)
    ensures |Emissions(p, h)| == Count(Outcomes(p, h), IsEmitted)
  {
    if |h| > 0 {
      EmissionsCounted(p, h[..|h|-1]);
    }
  }

  /** Over every history: a tracked start was refused by a full map, overwritten by a later one, is still pending, or
      was consumed by an end event; a consumed one was emitted, filtered, or dropped for lack of ring space; and the
      ring buffer received exactly the emitted ones. */
  lemma Accounting(p: Program, h: seq<Event>)
    ensures var os := Outcomes(p, h);
            var consumed := |Emissions(p, h)| + Count(os, IsFiltered) + Count(os, IsDropped);
            Count(os, IsTrackedStart) ==
              Count(os, IsRefused) + Count(os, IsOverwritten) + |Replay(p, h)| + consumed
  {
    OutcomeKinds(Outcomes(p, h));
    EntriesBalance(p, h);
    EmissionsCounted(p, h);
  }

  /** The map never outgrows its declared size, and no path leaves a key behind after its end event. */
  lemma {:induction false} MapStaysBounded(p: Program, h: seq<Event>)
    ensures |Replay(p, h)| <= MaxEntries(p)
    ensures |h| > 0 && h[|h|-1].End? ==> h[|h|-1].key !in Replay(p, h)
  {
    if |h| > 0 {
      MapStaysBounded(p, h[..|h|-1]);
      InflightSize(p, Replay(p, h[..|h|-1]), h[|h|-1]);
    }
  }

  // ---- From the kernel to the consumer ----

  lemma {:induction false} EmissionsShape(p: Program, h: seq<Event>)
    ensures forall k | 0 <= k < |Emissions(p, h)| ::
              Emissions(p, h)[k].signalType == SignalType(p) && Emissions(p, h)[k].valueNs >= Threshold(p)
  {
    if |h| > 0 {
      EmissionsShape(p, h[..|h|-1]);
    }
  }

  /** Every record a probe submits is decoded by the consumer to the event that was emitted, in the same order, with
      the probe's signal type and a value no smaller than its threshold. */
  lemma RingDecodes(p: Program, h: seq<Event>, k: nat)
    requires k < |Emissions(p, h)|
    ensures Decode(EncodeAll(Emissions(p, h))[k]) == Decoded(Emissions(p, h)[k])
    ensures Emissions(p, h)[k].signalType == SignalType(p) && Emissions(p, h)[k].valueNs >= Threshold(p)
  {
    EmissionsShape(p, h);
    DecodeEncode(Emissions(p, h)[k], []);
    assert Encode(Emissions(p, h)[k]) + [] == Encode(Emissions(p, h)[k]);
  }
}
