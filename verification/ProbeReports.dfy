/** What becomes of every start and end event of a latency probe, in terms of the events before it alone. */
module ProbeReports {
  import opened EventCodec
  import opened LatencyProbe

  // ---- The map holds the latest start of every key ----

  predicate Pending(m: Inflight, key: Key, start: Event) { key in m && start == Start(key, m[key]) }

  lemma LastEventStores(p: Program, h: seq<Event>, n: nat, key: Key)
    requires |h| == n + 1 && h[n].Start? && Touches(p, h, n, key)
    ensures Pending(Replay(p, h), key, h[n])
  {
    OutcomeAt(p, h, n);
  }

  lemma LastEventKeeps(p: Program, h: seq<Event>, n: nat, key: Key, start: Event)
    requires |h| == n + 1 && !Touches(p, h, n, key) && Pending(Replay(p, h[..n]), key, start)
    ensures Pending(Replay(p, h), key, start)
  {
    OutcomeAt(p, h, n);
  }

  /** What a step without a touch leaves latest was latest before it. */
  lemma LatestStartBefore(p: Program, h: seq<Event>, n: nat, key: Key, i: nat)
    requires n <= |h|
    ensures LatestStart(p, h, n, key, i) <==> LatestStart(p, h[..n], n, key, i)
  {
    forall j: nat | j < n ensures Touches(p, h, j, key) == Touches(p, h[..n], j, key) {
      PrefixTouches(p, h, n, j, key);
    }
  }

  lemma {:induction false} LatestStartIsPending(p: Program, h: seq<Event>, key: Key, i: nat)
    requires LatestStart(p, h, |h|, key, i)
    ensures Pending(Replay(p, h), key, h[i])
  {
    var n := |h| - 1;
    if i == n {
      LastEventStores(p, h, n, key);
    } else {
      assert !Touches(p, h, n, key) && LatestStart(p, h, n, key, i);
      LatestStartBefore(p, h, n, key, i);
      LatestStartIsPending(p, h[..n], key, i);
      assert h[..n][i] == h[i];
      LastEventKeeps(p, h, n, key, h[i]);
    }
  }

  /** Some start of `key` is waiting for its end before event `n`. */
  ghost predicate Awaited(p: Program, h: seq<Event>, n: nat, key: Key)
    requires n <= |h|
  {
    exists i :: LatestStart(p, h, n, key, i)
  }

  lemma AwaitedIsPending(p: Program, h: seq<Event>, n: nat, key: Key)
    requires n <= |h|
    ensures Awaited(p, h, n, key) <==> key in Replay(p, h[..n])
  {
    if i: nat :| LatestStart(p, h, n, key, i) {
      LatestStartBefore(p, h, n, key, i);
      LatestStartIsPending(p, h[..n], key, i);
    }
    if key in Replay(p, h[..n]) {
      var i := PendingIsLatestStart(p, h[..n], key);
      LatestStartBefore(p, h, n, key, i);
    }
  }

  // ---- End events ----

  /** The filter of each program, in nanoseconds. */
  predicate Reportable(p: Program, elapsed: nat) {
    match p
    case SyscallLatency => elapsed >= 1_000_000
    case DiskIoLatency => elapsed >= 500_000
    case RunqueueDelay => elapsed >= 100_000
    case MemReclaim => elapsed >= 10_000
    case _ => true
  }

  lemma OutcomeOfEnd(p: Program, h: seq<Event>, n: nat, i: nat)
    requires n < |h| && h[n].End? && LatestStart(p, h, n, h[n].key, i)
    ensures var elapsed := Sub64(h[n].now, h[i].ctx.startNs);
            Outcomes(p, h)[n] ==
              if elapsed < Threshold(p) then Filtered
              else if !h[n].room then Dropped
              else Emitted(RecordOf(p, h[n].key, h[i].ctx, h[n]))
  {
    OutcomeAt(p, h, n);
    LatestStartBefore(p, h, n, h[n].key, i);
    LatestStartIsPending(p, h[..n], h[n].key, i);
  }

  /** An end event after a start of its key is reported exactly if the time between them is long enough and the ring
      buffer has room; what is long enough but finds no room is dropped, and an end nobody waits for does nothing. */
  lemma ReportedExactly(p: Program, h: seq<Event>, n: nat, i: nat)
    requires n < |h| && h[n].End? && LatestStart(p, h, n, h[n].key, i)
    ensures var reportable := Reportable(p, Sub64(h[n].now, h[i].ctx.startNs));
            && (Outcomes(p, h)[n].Emitted? <==> reportable && h[n].room)
            && (Outcomes(p, h)[n].Dropped? <==> reportable && !h[n].room)
            && (Outcomes(p, h)[n].Filtered? <==> !reportable)
  {
    OutcomeOfEnd(p, h, n, i);
  }

  lemma UnmatchedEndDoesNothing(p: Program, h: seq<Event>, n: nat)
    requires n < |h| && h[n].End?
    ensures Outcomes(p, h)[n].NoStart? <==> !Awaited(p, h, n, h[n].key)
  {
    OutcomeAt(p, h, n);
    AwaitedIsPending(p, h, n, h[n].key);
  }

  /** A report carries the program's signal, the delay, and where the start knew it the connection. */
  lemma ReportCarries(p: Program, h: seq<Event>, n: nat, i: nat)
    requires n < |h| && Outcomes(p, h)[n].Emitted? && LatestStart(p, h, n, h[n].key, i)
    ensures var r, start, end := Outcomes(p, h)[n].event, h[i].ctx, h[n];
            && end.End?
            && r.valueNs == (if end.now >= start.startNs then end.now - start.startNs
                             else end.now + 0x1_0000_0000_0000_0000 - start.startNs)
            && r.signalType == (match p
                                case DnsLatency => 1
                                case RunqueueDelay => 3
                                case ConnectLatency => 4
                                case TlsHandshake => 5
                                case MemReclaim => 7
                                case DiskIoLatency => 8
                                case SyscallLatency => 9)
            && (p == DnsLatency || p == ConnectLatency ==>
                  r.connSrcPort == start.srcPort && r.connDstPort == start.dstPort && r.connDstIp == start.dstIp)
            && (p != DnsLatency && p != ConnectLatency ==> r.connSrcPort == 0 && r.connDstIp == 0)
            && (p != DnsLatency && p != ConnectLatency ==> r.connDstPort == if p == TlsHandshake then 443 else 0)
            && (p == DnsLatency ==> r.connDstPort == 53)
  {
    EmittedIsEnd(p, h, n);
    OutcomeOfEnd(p, h, n, i);
    OutcomeAt(p, h, i);
  }

  /** It names the running task, except that a run-queue delay keyed by a process is that process's own; a failed
      connect reports its error number, a TLS handshake whether it failed. */
  lemma ReportNames(p: Program, h: seq<Event>, n: nat)
    requires n < |h| && Outcomes(p, h)[n].Emitted?
    ensures var r, end := Outcomes(p, h)[n].event, h[n];
            && end.End?
            && r.tid == end.current % 0x1_0000_0000
            && (if p == RunqueueDelay && end.key.Pid? then r.pid == end.key.pid
                else r.pid * 0x1_0000_0000 + r.tid == end.current)
            && r.timestampNs == (if p == RunqueueDelay then end.now else end.stamp)
            && (p == ConnectLatency && -0x8000_0000 < end.ret < 0 ==> r.errno + end.ret == 0)
            && (p == ConnectLatency && end.ret >= 0 ==> r.errno == 0)
            && (p == TlsHandshake ==> r.errno == if end.ret <= 0 then 1 else 0)
            && (p != ConnectLatency && p != TlsHandshake ==> r.errno == 0)
  {
    OutcomeAt(p, h, n);
  }

  // ---- Start events ----

  /** A start is refused exactly if it is tracked, nothing waits under its key, and as many starts wait as the map can
      hold. Only DNS tracks by port. */
  lemma RefusedExactly(p: Program, h: seq<Event>, n: nat)
    requires n < |h| && h[n].Start?
    ensures var tracked := p != DnsLatency || h[n].ctx.dstPort == 53;
            var size := if p == RunqueueDelay || p == SyscallLatency || p == DiskIoLatency then 16384 else 8192;
            && (Outcomes(p, h)[n].Untracked? <==> !tracked)
            && (Outcomes(p, h)[n].Refused? <==>
                  tracked && !Awaited(p, h, n, h[n].key) && |Replay(p, h[..n])| == size)
            && (Outcomes(p, h)[n].Overwritten? <==> tracked && Awaited(p, h, n, h[n].key))
  {
    OutcomeAt(p, h, n);
    AwaitedIsPending(p, h, n, h[n].key);
    MapStaysBounded(p, h[..n]);
  }
}
