/** The packed 40-byte ring-buffer record: how the kernel side lays it out and how the consumer reads it back. */
module EventCodec {

  type Byte = b: int | 0 <= b < 256
  type U16 = v: int | 0 <= v < 0x1_0000
  type U32 = v: int | 0 <= v < 0x1_0000_0000
  type U64 = v: int | 0 <= v < 0x1_0000_0000_0000_0000
  type I32 = v: int | -0x8000_0000 <= v < 0x8000_0000

  const TWO_TO_THE_64: int := 0x1_0000_0000_0000_0000

  const EVENT_SIZE: nat := 40

  datatype BpfEvent = BpfEvent(
    pid: U32,
    tid: U32,
    timestampNs: U64,
    signalType: U32,
    valueNs: U64,
    connSrcPort: U16,
    connDstPort: U16,
    connDstIp: U32,
    errno: I32)

  datatype DecodeResult = Decoded(event: BpfEvent) | EndOfInput | UnexpectedEnd

  // ---- Little-endian numbers ----

  function Pow256(n: nat): (r: nat)
    ensures r > 0
  {
    if n == 0 then 1 else 256 * Pow256(n - 1)
  }

  /** The `n` low bytes of `v`, least significant first. */
  function ToLE(v: nat, n: nat): (r: seq<Byte>)
    ensures |r| == n
  {
    if n == 0 then [] else [v % 256] + ToLE(v / 256, n - 1)
  }

  function FromLE(bytes: seq<Byte>): (v: nat)
    ensures v < Pow256(|bytes|)
  {
    if |bytes| == 0 then 0 else bytes[0] + 256 * FromLE(bytes[1..])
  }

  lemma {:induction false} FromLEToLE(v: nat, n: nat)
    requires v < Pow256(n)
    ensures FromLE(ToLE(v, n)) == v
  {
    if n > 0 {
      FromLEToLE(v / 256, n - 1);
      assert ToLE(v, n)[1..] == ToLE(v / 256, n - 1);
    }
  }

  lemma {:induction false} ToLEFromLE(bytes: seq<Byte>)
    ensures ToLE(FromLE(bytes), |bytes|) == bytes
  {
    if |bytes| > 0 {
      ToLEFromLE(bytes[1..]);
      assert FromLE(bytes) % 256 == bytes[0] && FromLE(bytes) / 256 == FromLE(bytes[1..]);
      assert bytes == [bytes[0]] + bytes[1..];
    }
  }

  /** The last byte weighs most. */
  lemma {:induction false} LastByteWeighsMost(bytes: seq<Byte>, b: Byte)
    ensures FromLE(bytes + [b]) == FromLE(bytes) + b * Pow256(|bytes|)
  {
    if |bytes| > 0 {
      LastByteWeighsMost(bytes[1..], b);
      assert (bytes + [b])[1..] == bytes[1..] + [b];
      Carry(b, Pow256(|bytes| - 1));
    } else {
      assert (bytes + [b])[1..] == [];
    }
  }

  lemma Carry(b: nat, w: nat)
    ensures 256 * (b * w) == b * (256 * w)
  {
  }

  lemma Widths()
    ensures Pow256(2) == 0x1_0000 && Pow256(4) == 0x1_0000_0000 && Pow256(8) == TWO_TO_THE_64
  {
    assert Pow256(1) == 256 && Pow256(2) == 0x1_0000 && Pow256(3) == 0x100_0000 && Pow256(4) == 0x1_0000_0000;
    assert Pow256(5) == 0x100_0000_0000 && Pow256(6) == 0x1_0000_0000_0000 && Pow256(7) == 0x100_0000_0000_0000;
  }

  // ---- Two's complement ----

  function ToU32(v: I32): U32 { if v < 0 then v + 0x1_0000_0000 else v }

  function ToI32(v: U32): I32 { if v >= 0x8000_0000 then v - 0x1_0000_0000 else v }

  /** A signed number and its bits differ by nothing or by 2^32, and the conversions undo each other. */
  lemma SignedBits(u: U32, v: I32)
    ensures ToI32(u) == u || ToI32(u) == u - 4_294_967_296
    ensures ToU32(ToI32(u)) == u && ToI32(ToU32(v)) == v
  {
  }

  // ---- The record ----

  function ReadU16(data: seq<Byte>, at: nat): U16
    requires at + 2 <= |data|
  {
    Widths();
    FromLE(data[at..at+2])
  }

  function ReadU32(data: seq<Byte>, at: nat): U32
    requires at + 4 <= |data|
  {
    Widths();
    FromLE(data[at..at+4])
  }

  function ReadU64(data: seq<Byte>, at: nat): U64
    requires at + 8 <= |data|
  {
    Widths();
    FromLE(data[at..at+8])
  }

  /** The record as it lies in the ring buffer: the fields in declaration order without padding. */
  function Encode(e: BpfEvent): (r: seq<Byte>)
    ensures |r| == EVENT_SIZE
  {
    ToLE(e.pid, 4) + ToLE(e.tid, 4) + ToLE(e.timestampNs, 8) + ToLE(e.signalType, 4) + ToLE(e.valueNs, 8)
    + ToLE(e.connSrcPort, 2) + ToLE(e.connDstPort, 2) + ToLE(e.connDstIp, 4) + ToLE(ToU32(e.errno), 4)
  }

  /** A fixed-size read: it fails on an input that is too short and ignores whatever follows the record. */
  function Decode(data: seq<Byte>): DecodeResult {
    if |data| == 0 then EndOfInput
    else if |data| < EVENT_SIZE then UnexpectedEnd
    else
      Decoded(BpfEvent(
        ReadU32(data, 0),
        ReadU32(data, 4),
        ReadU64(data, 8),
        ReadU32(data, 16),
        ReadU64(data, 20),
        ReadU16(data, 28),
        ReadU16(data, 30),
        ReadU32(data, 32),
        ToI32(ReadU32(data, 36))))
  }

  /** Where each field of a written record lies. */
  lemma EncodedFields(e: BpfEvent, rest: seq<Byte>, data: seq<Byte>)
    requires data == Encode(e) + rest
    ensures data[0..4] == ToLE(e.pid, 4) && data[4..8] == ToLE(e.tid, 4) && data[8..16] == ToLE(e.timestampNs, 8)
    ensures data[16..20] == ToLE(e.signalType, 4) && data[20..28] == ToLE(e.valueNs, 8)
    ensures data[28..30] == ToLE(e.connSrcPort, 2) && data[30..32] == ToLE(e.connDstPort, 2)
    ensures data[32..36] == ToLE(e.connDstIp, 4) && data[36..40] == ToLE(ToU32(e.errno), 4)
  {
  }

  /** Reading back what was written, whatever follows the record. */
  lemma DecodeEncode(e: BpfEvent, rest: seq<Byte>)
    ensures Decode(Encode(e) + rest) == Decoded(e)
  {
    Widths();
    EncodedFields(e, rest, Encode(e) + rest);
    FromLEToLE(e.pid, 4);
    FromLEToLE(e.tid, 4);
    FromLEToLE(e.timestampNs, 8);
    FromLEToLE(e.signalType, 4);
    FromLEToLE(e.valueNs, 8);
    FromLEToLE(e.connSrcPort, 2);
    FromLEToLE(e.connDstPort, 2);
    FromLEToLE(e.connDstIp, 4);
    FromLEToLE(ToU32(e.errno), 4);
  }

  lemma RecordParts(data: seq<Byte>)
    requires |data| >= EVENT_SIZE
    ensures data[..EVENT_SIZE] == data[0..4] + data[4..8] + data[8..16] + data[16..20] + data[20..28] + data[28..30]
                                  + data[30..32] + data[32..36] + data[36..40]
  {
  }

  lemma RewriteU16(data: seq<Byte>, at: nat)
    requires at + 2 <= |data|
    ensures ToLE(ReadU16(data, at), 2) == data[at..at+2]
  {
    ToLEFromLE(data[at..at+2]);
  }

  lemma RewriteU32(data: seq<Byte>, at: nat)
    requires at + 4 <= |data|
    ensures ToLE(ReadU32(data, at), 4) == data[at..at+4]
  {
    ToLEFromLE(data[at..at+4]);
  }

  lemma RewriteU64(data: seq<Byte>, at: nat)
    requires at + 8 <= |data|
    ensures ToLE(ReadU64(data, at), 8) == data[at..at+8]
  {
    ToLEFromLE(data[at..at+8]);
  }

  lemma RewrittenLeading(data: seq<Byte>, e: BpfEvent)
    requires |data| >= EVENT_SIZE && Decode(data) == Decoded(e)
    ensures ToLE(e.pid, 4) == data[0..4] && ToLE(e.tid, 4) == data[4..8]
    ensures ToLE(e.timestampNs, 8) == data[8..16] && ToLE(e.signalType, 4) == data[16..20]
  {
    RewriteU32(data, 0);
    RewriteU32(data, 4);
    RewriteU64(data, 8);
    RewriteU32(data, 16);
  }

  lemma RewrittenTrailing(data: seq<Byte>, e: BpfEvent)
    requires |data| >= EVENT_SIZE && Decode(data) == Decoded(e)
    ensures ToLE(e.valueNs, 8) == data[20..28] && ToLE(e.connSrcPort, 2) == data[28..30]
    ensures ToLE(e.connDstPort, 2) == data[30..32] && ToLE(e.connDstIp, 4) == data[32..36]
    ensures ToLE(ToU32(e.errno), 4) == data[36..40]
  {
    RewriteU64(data, 20);
    RewriteU16(data, 28);
    RewriteU16(data, 30);
    RewriteU32(data, 32);
    RewrittenErrno(data, e);
  }

  lemma RewrittenErrno(data: seq<Byte>, e: BpfEvent)
    requires |data| >= EVENT_SIZE && Decode(data) == Decoded(e)
    ensures ToLE(ToU32(e.errno), 4) == data[36..40]
  {
    RewriteU32(data, 36);
    assert ToU32(e.errno) == ReadU32(data, 36);
  }

  /** Writing back what was read gives the first forty bytes. */
  lemma EncodeDecode(data: seq<Byte>)
    requires |data| >= EVENT_SIZE
    ensures Decode(data).Decoded? && Encode(Decode(data).event) == data[..EVENT_SIZE]
  {
    var e := Decode(data).event;
    RewrittenLeading(data, e);
    RewrittenTrailing(data, e);
    var a, b, c, d := data[0..4], data[4..8], data[8..16], data[16..20];
    var v, w, x, y, z := data[20..28], data[28..30], data[30..32], data[32..36], data[36..40];
    RecordParts(data);
  }

  /** Decoding depends on the first forty bytes only, and fails on exactly the shorter inputs. */
  lemma DecodePrefix(data: seq<Byte>, data': seq<Byte>)
    ensures Decode(data).Decoded? <==> |data| >= EVENT_SIZE
    ensures |data| >= EVENT_SIZE && |data'| >= EVENT_SIZE ==>
            (Decode(data) == Decode(data') <==> data[..EVENT_SIZE] == data'[..EVENT_SIZE])
  {
    if |data| >= EVENT_SIZE && |data'| >= EVENT_SIZE {
      EncodeDecode(data);
      EncodeDecode(data');
      if data[..EVENT_SIZE] == data'[..EVENT_SIZE] {
        var e := Decode(data).event;
        assert data == Encode(e) + data[EVENT_SIZE..] && data' == Encode(e) + data'[EVENT_SIZE..];
        DecodeEncode(e, data[EVENT_SIZE..]);
        DecodeEncode(e, data'[EVENT_SIZE..]);
      }
    }
  }
}
