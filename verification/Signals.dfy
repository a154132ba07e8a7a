/** Signal names, the attributes they map to, and the tables of the capability modes. */
module Signals {

  datatype Signal =
    | DnsLatencyMs
    | TcpRetransmits
    | RunqueueDelayMs
    | ConnectLatencyMs
    | ConnectErrors
    | TlsHandshakeMs
    | TlsHandshakeFails
    | CpuStealPct
    | CfsThrottledMs
    | MemReclaimLatencyMs
    | DiskIoLatencyMs
    | SyscallLatencyMs
    | OtherSignal(name: string)

  datatype Mode = CoreFull | BccDegraded | OtherMode(name: string)

  const CORE_SIGNALS: seq<Signal> := [
    DnsLatencyMs, TcpRetransmits, RunqueueDelayMs, ConnectLatencyMs, ConnectErrors, TlsHandshakeMs,
    TlsHandshakeFails, CpuStealPct, CfsThrottledMs, MemReclaimLatencyMs, DiskIoLatencyMs, SyscallLatencyMs]

  const BCC_SIGNALS: seq<Signal> := [DnsLatencyMs, TcpRetransmits]

  const DISABLE_ORDER: seq<Signal> := [
    TlsHandshakeMs, SyscallLatencyMs, RunqueueDelayMs, DiskIoLatencyMs, ConnectLatencyMs, MemReclaimLatencyMs,
    CpuStealPct, DnsLatencyMs, TcpRetransmits, CfsThrottledMs, ConnectErrors, TlsHandshakeFails]

  function SupportedSignals(mode: Mode): seq<Signal> {
    if mode.BccDegraded? then BCC_SIGNALS else CORE_SIGNALS
  }
}
