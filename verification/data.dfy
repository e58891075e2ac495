/** `spektri/src/dsp/data.rs`: the `DataFormat` code table, the 24-byte
    record metadata, and the 24-byte ZeroMQ topics for signal and spectrum
    data. */
module Data {
  import opened Bytes
  import opened Arith
  import opened Results

  // ---------------------------------------------------------------------------
  // Data formats

  datatype DataFormat =
    | S8 | S16le | S16be | F32le | F32be | U8
    | Cs8 | Cs16le | Cs16be | Cf32le | Cf32be | Cu8

  /** The discriminant of each `DataFormat` variant. */
  function Code(f: DataFormat): byte {
    match f
    case S8 => 0x04
    case S16le => 0x08
    case S16be => 0x09
    case F32le => 0x1C
    case F32be => 0x1D
    case U8 => 0x24
    case Cs8 => 0x44
    case Cs16le => 0x48
    case Cs16be => 0x49
    case Cf32le => 0x5C
    case Cf32be => 0x5D
    case Cu8 => 0x64
  }

  datatype Numeric = Signed | Float | Unsigned

  /** What a format is, as the comment on each variant says: real or
      complex, the kind of number, bits per number, byte order. */
  datatype Layout = Layout(complex: bool, numeric: Numeric, bits: nat, bigEndian: bool)

  function LayoutOf(f: DataFormat): Layout {
    match f
    case S8 => Layout(false, Signed, 8, false)
    case S16le => Layout(false, Signed, 16, false)
    case S16be => Layout(false, Signed, 16, true)
    case F32le => Layout(false, Float, 32, false)
    case F32be => Layout(false, Float, 32, true)
    case U8 => Layout(false, Unsigned, 8, false)
    case Cs8 => Layout(true, Signed, 8, false)
    case Cs16le => Layout(true, Signed, 16, false)
    case Cs16be => Layout(true, Signed, 16, true)
    case Cf32le => Layout(true, Float, 32, false)
    case Cf32be => Layout(true, Float, 32, true)
    case Cu8 => Layout(true, Unsigned, 8, false)
  }

  /** The 3-bit field for the number of bits: 2..7 for 8, 12, 16, 24, 32, 64. */
  function BitsField(bits: nat): (w: nat)
    requires bits in {8, 12, 16, 24, 32, 64}
    ensures 2 <= w <= 7
  {
    if bits == 8 then 2 else if bits == 12 then 3 else if bits == 16 then 4
    else if bits == 24 then 5 else if bits == 32 then 6 else 7
  }

  function BitsOfField(w: nat): nat {
    [0, 0, 8, 12, 16, 24, 32, 64][w % 8]
  }

  function NumericField(n: Numeric): nat {
    match n
    case Signed => 0
    case Float => 1
    case Unsigned => 2
  }

  /** The documented bitfield: bits 7-6 real (0) or complex (1), bits 5-4
      signed (0), float (1) or unsigned (2), bits 3-1 the width field, bit 0
      big endian. */
  function Pack(l: Layout): byte
    requires l.bits in {8, 12, 16, 24, 32, 64}
  {
    (if l.complex then 1 else 0) * 64 + NumericField(l.numeric) * 16
      + BitsField(l.bits) * 2 + (if l.bigEndian then 1 else 0)
  }

  /** Reading the fields back out of a code. */
  function Unpack(code: byte): Option<Layout> {
    var kind, num, w, e := code / 64, (code / 16) % 4, (code / 2) % 8, code % 2;
    if kind > 1 || num == 3 || w < 2 then None
    else Some(Layout(kind == 1, [Signed, Float, Unsigned][num], BitsOfField(w), e == 1))
  }

  datatype Option<T> = None | Some(value: T)

  /** The bitfield is a faithful encoding: unpacking a packed layout gives
      it back, for every layout the fields can express. */
  lemma UnpackPack(l: Layout)
    requires l.bits in {8, 12, 16, 24, 32, 64}
    ensures Unpack(Pack(l)) == Some(l)
  {
    var c := if l.complex then 1 else 0;
    var n, w, e := NumericField(l.numeric), BitsField(l.bits), if l.bigEndian then 1 else 0;
    var x := Pack(l);
    assert x == c * 64 + n * 16 + w * 2 + e;
    DivModUnique(x, 64, c, n * 16 + w * 2 + e);
    DivModUnique(x, 16, c * 4 + n, w * 2 + e);
    DivModUnique(c * 4 + n, 4, c, n);
    DivModUnique(x, 2, c * 32 + n * 8 + w, e);
    DivModUnique(c * 32 + n * 8 + w, 8, c * 4 + n, w);
    assert BitsOfField(w) == l.bits;
    assert [Signed, Float, Unsigned][n] == l.numeric;
  }

  /** Every code in the table is the documented bitfield of the format's
      description, and decoding the code gives the description back. */
  lemma CodesFollowBitfield(f: DataFormat)
    ensures LayoutOf(f).bits in {8, 12, 16, 24, 32, 64}
    ensures Code(f) == Pack(LayoutOf(f))
    ensures Unpack(Code(f)) == Some(LayoutOf(f))
  {
    UnpackPack(LayoutOf(f));
  }

  /** No two formats share a code. */
  lemma CodesDistinct(f: DataFormat, g: DataFormat)
    ensures Code(f) == Code(g) <==> f == g
  {
    CodesFollowBitfield(f);
    CodesFollowBitfield(g);
    if Code(f) == Code(g) {
      assert LayoutOf(f) == LayoutOf(g);
    }
  }

  /** The complex format made of two numbers of a real format. */
  function ComplexOf(f: DataFormat): DataFormat
    requires !LayoutOf(f).complex
  {
    match f
    case S8 => Cs8
    case S16le => Cs16le
    case S16be => Cs16be
    case F32le => Cf32le
    case F32be => Cf32be
    case U8 => Cu8
  }

  /** Each complex code is its real counterpart's code with bit 6 set. */
  lemma ComplexCodeOffset(f: DataFormat)
    requires !LayoutOf(f).complex
    ensures Code(ComplexOf(f)) == Code(f) + 0x40
    ensures LayoutOf(ComplexOf(f)) == LayoutOf(f).(complex := true)
  {
  }

  /** The message-type byte of a topic. */
  datatype MessageType = Status | Waveform | Spectrum

  function MessageCode(t: MessageType): byte {
    match t
    case Status => 0x20
    case Waveform => 0x40
    case Spectrum => 0x60
  }

  const ProtocolVersion: byte := 2

  // ---------------------------------------------------------------------------
  // Writing little-endian fields, as `byte`'s `write_with(offset, v, LE)` does

  /** `write_with` fails when fewer than `n` bytes remain after `offset`. */
  datatype WriteError = Incomplete

  /** Write `v` as `n` little-endian bytes at `offset`: on success the bytes
      are replaced and `offset` advances by `n`; on failure nothing changes. */
  function WriteLe(buf: seq<byte>, offset: nat, v: nat, n: nat): (r: (seq<byte>, nat, Result<(), WriteError>))
    requires v < Pow256(n)
    ensures |r.0| == |buf|
    ensures r.2.Ok? <==> offset + n <= |buf|
    ensures r.2.Ok? ==> r.1 == offset + n && r.0[offset..offset + n] == LeBytes(v, n)
    ensures r.2.Ok? ==> r.0[..offset] == buf[..offset] && r.0[offset + n..] == buf[offset + n..]
    ensures r.2.Err? ==> r.0 == buf && r.1 == offset
  {
    if offset + n <= |buf| then
      var b := buf[..offset] + LeBytes(v, n) + buf[offset + n..];
      assert b[offset..offset + n] == LeBytes(v, n);
      assert b[..offset] == buf[..offset];
      assert b[offset + n..] == buf[offset + n..];
      (b, offset + n, Ok(()))
    else (buf, offset, Err(Incomplete))
  }

  // ---------------------------------------------------------------------------
  // Metadata

  const NanosPerSecond: nat := 1_000_000_000

  /** A `SystemTime` as whole seconds and nanoseconds after the UNIX epoch;
      `secs < 0` is a time before the epoch. */
  datatype SystemTime = SystemTime(secs: int, nanos: nat)

  /** `Metadata { seq: u64, systemtime }`; the seconds of the time fit `as_secs()`'s `u64`. */
  datatype Metadata = Metadata(seqNo: nat, systemtime: SystemTime)

  predicate ValidTime(t: SystemTime) {
    t.nanos < NanosPerSecond && t.secs < U64Limit
  }

  /** `duration_since(UNIX_EPOCH)` as `(as_secs, subsec_nanos)`, or `(0, 0)`
      when the time is before the epoch. */
  function SinceEpoch(t: SystemTime): (d: (nat, nat))
    requires ValidTime(t)
    ensures d.0 < U64Limit && d.1 < U32Limit
  {
    if t.secs >= 0 then (t.secs, t.nanos) else (0, 0)
  }

  /** The 24 bytes of a record header: the sequence number (u64), seconds (u64),
      nanoseconds (u32) and a reserved zero (u32), all little-endian. */
  function MetadataBytes(md: Metadata, seqNo: nat): (b: seq<byte>)
    requires seqNo < U64Limit && ValidTime(md.systemtime)
    ensures |b| == 24
  {
    Pow256Values();
    var (secs, nanos) := SinceEpoch(md.systemtime);
    LeBytes(seqNo, 8) + LeBytes(secs, 8) + LeBytes(nanos, 4) + LeBytes(0, 4)
  }

  /** `serialize_metadata(buf, offset, metadata, seq)`: four writes, each
      returning early with the error when it does not fit; earlier writes
      stay in the buffer. */
  function SerializeMetadata(buf: seq<byte>, offset: nat, md: Metadata, seqNo: nat): (r: (seq<byte>, nat, Result<(), WriteError>))
    requires seqNo < U64Limit && ValidTime(md.systemtime)
    ensures |r.0| == |buf|
  {
    Pow256Values();
    var (secs, nanos) := SinceEpoch(md.systemtime);
    var w1 := WriteLe(buf, offset, seqNo, 8);
    if w1.2.Err? then w1
    else
      var w2 := WriteLe(w1.0, w1.1, secs, 8);
      if w2.2.Err? then w2
      else
        var w3 := WriteLe(w2.0, w2.1, nanos, 4);
        if w3.2.Err? then w3
        else WriteLe(w3.0, w3.1, 0, 4)
  }

  /** Two consecutive writes lay their fields side by side. */
  lemma WritesAdjacent(buf: seq<byte>, offset: nat, u: seq<byte>, v: seq<byte>, b1: seq<byte>, b2: seq<byte>)
    requires offset + |u| + |v| <= |buf| && |b1| == |buf| && |b2| == |buf|
    requires b1[..offset] == buf[..offset] && b1[offset..offset + |u|] == u && b1[offset + |u|..] == buf[offset + |u|..]
    requires b2[..offset + |u|] == b1[..offset + |u|] && b2[offset + |u|..offset + |u| + |v|] == v
    requires b2[offset + |u| + |v|..] == b1[offset + |u| + |v|..]
    ensures b2[..offset] == buf[..offset]
    ensures b2[offset..offset + |u| + |v|] == u + v
    ensures b2[offset + |u| + |v|..] == buf[offset + |u| + |v|..]
  {
    assert b2[..offset] == b2[..offset + |u|][..offset];
    assert b2[offset..offset + |u| + |v|] == b2[offset..offset + |u|] + b2[offset + |u|..offset + |u| + |v|];
    assert b2[offset..offset + |u|] == b1[..offset + |u|][offset..];
    assert b2[offset + |u| + |v|..] == b1[offset + |u|..][|v|..];
  }

  /** `serialize_metadata` succeeds exactly when 24 bytes remain after
      `offset`; it then writes the header there, advances `offset` by 24 and
      leaves every other byte alone. */
  lemma {:induction false} SerializeMetadataWrites(buf: seq<byte>, offset: nat, md: Metadata, seqNo: nat)
    requires seqNo < U64Limit && ValidTime(md.systemtime)
    ensures var r := SerializeMetadata(buf, offset, md, seqNo);
      && (r.2.Ok? <==> offset + 24 <= |buf|)
      && (r.2.Ok? ==> r.1 == offset + 24
                      && r.0[offset..offset + 24] == MetadataBytes(md, seqNo)
                      && r.0[..offset] == buf[..offset]
                      && r.0[offset + 24..] == buf[offset + 24..])
      && (r.2.Err? ==> forall k :: 0 <= k < offset && k < |buf| ==> r.0[k] == buf[k])
  {
    Pow256Values();
    var (secs, nanos) := SinceEpoch(md.systemtime);
    var w1 := WriteLe(buf, offset, seqNo, 8);
    var w2 := WriteLe(w1.0, w1.1, secs, 8);
    var w3 := WriteLe(w2.0, w2.1, nanos, 4);
    var w4 := WriteLe(w3.0, w3.1, 0, 4);
    var s8, t8, n4, z4 := LeBytes(seqNo, 8), LeBytes(secs, 8), LeBytes(nanos, 4), LeBytes(0, 4);
    if offset + 24 <= |buf| {
      WritesAdjacent(buf, offset, s8, t8, w1.0, w2.0);
      WritesAdjacent(buf, offset, s8 + t8, n4, w2.0, w3.0);
      WritesAdjacent(buf, offset, s8 + t8 + n4, z4, w3.0, w4.0);
    } else if offset + 8 > |buf| {
    } else if offset + 16 > |buf| {
      assert w2.0[..offset] == w1.0[..offset + 8][..offset];
    } else if offset + 20 > |buf| {
      assert w2.0[..offset] == w1.0[..offset + 8][..offset];
      assert w3.0[..offset] == w2.0[..offset + 16][..offset];
    } else {
      assert w2.0[..offset] == w1.0[..offset + 8][..offset];
      assert w3.0[..offset] == w2.0[..offset + 16][..offset];
      assert w4.0[..offset] == w3.0[..offset + 20][..offset];
    }
  }

  /** Reading the header back: `seqNo`, the seconds and nanoseconds since the
      epoch, and zero, at byte offsets 0, 8, 16 and 20. */
  lemma MetadataFields(md: Metadata, seqNo: nat)
    requires seqNo < U64Limit && ValidTime(md.systemtime)
    ensures var b := MetadataBytes(md, seqNo);
      && LeValue(b[0..8]) == seqNo
      && LeValue(b[8..16]) == SinceEpoch(md.systemtime).0
      && LeValue(b[16..20]) == SinceEpoch(md.systemtime).1
      && LeValue(b[20..24]) == 0
  {
    Pow256Values();
    var (secs, nanos) := SinceEpoch(md.systemtime);
    var b := MetadataBytes(md, seqNo);
    var s8, t8, n4, z4 := LeBytes(seqNo, 8), LeBytes(secs, 8), LeBytes(nanos, 4), LeBytes(0, 4);
    assert b == s8 + t8 + n4 + z4;
    assert b[0..8] == LeBytes(seqNo, 8);
    assert b[8..16] == LeBytes(secs, 8);
    assert b[16..20] == LeBytes(nanos, 4);
    assert b[20..24] == LeBytes(0, 4);
    LeRoundTrip(seqNo, 8);
    LeRoundTrip(secs, 8);
    LeRoundTrip(nanos, 4);
    LeRoundTrip(0, 4);
  }

  /** A time before the epoch is written as zero seconds and zero
      nanoseconds; a time after it as its own seconds and nanoseconds. */
  lemma PreEpochIsZero(t: SystemTime)
    requires ValidTime(t)
    ensures SinceEpoch(t) == (0, 0) <==> t.secs < 0 || (t.secs == 0 && t.nanos == 0)
    ensures t.secs >= 0 ==> SinceEpoch(t) == (t.secs, t.nanos)
  {
  }

  // ---------------------------------------------------------------------------
  // Topics

  /** An `f64` as its IEEE 754 bit pattern; only the pattern is ever
      written. */
  type F64 = x: nat | x < 0x1_0000_0000_0000_0000

  datatype SignalInfo = SignalInfo(fs: F64, fc: F64)
  datatype SpectrumInfo = SpectrumInfo(fd: F64, f0: F64)

  /** A 24-byte topic: version, message type and format, five zero bytes,
      then two doubles written with `write_with(.., LE).unwrap()`. */
  function Topic(kind: MessageType, format: DataFormat, x: F64, y: F64): (t: seq<byte>)
    ensures |t| == 24
  {
    Pow256Values();
    var buf: seq<byte> := [ProtocolVersion, MessageCode(kind), Code(format)] + seq(21, _ => 0);
    var w1 := WriteLe(buf, 8, x, 8);
    var w2 := WriteLe(w1.0, w1.1, y, 8);
    w2.0
  }

  /** `serialize_signal_topic`: complex 32-bit float samples. */
  function SerializeSignalTopic(info: SignalInfo): (t: seq<byte>)
    ensures |t| == 24
  {
    Topic(Waveform, Cf32le, info.fs, info.fc)
  }

  /** `serialize_spectrum_topic`: unsigned 8-bit spectrum records. */
  function SerializeSpectrumTopic(info: SpectrumInfo): (t: seq<byte>)
    ensures |t| == 24
  {
    Topic(Spectrum, U8, info.fd, info.f0)
  }

  /** Both writes fit, so the `unwrap`s never panic, and the topic is the
      eight header bytes followed by the two doubles. */
  lemma TopicLayout(kind: MessageType, format: DataFormat, x: F64, y: F64)
    ensures Pow256(8) == U64Limit
    ensures var buf: seq<byte> := [ProtocolVersion, MessageCode(kind), Code(format)] + seq(21, _ => 0);
      && WriteLe(buf, 8, x, 8).2.Ok?
      && WriteLe(WriteLe(buf, 8, x, 8).0, 16, y, 8).2.Ok?
    ensures Topic(kind, format, x, y)
         == [ProtocolVersion, MessageCode(kind), Code(format), 0, 0, 0, 0, 0] + LeBytes(x, 8) + LeBytes(y, 8)
  {
    Pow256Values();
    var buf: seq<byte> := [ProtocolVersion, MessageCode(kind), Code(format)] + seq(21, _ => 0);
    var w1 := WriteLe(buf, 8, x, 8);
    var w2 := WriteLe(w1.0, w1.1, y, 8);
    var t := Topic(kind, format, x, y);
    var want := [ProtocolVersion, MessageCode(kind), Code(format), 0, 0, 0, 0, 0] + LeBytes(x, 8) + LeBytes(y, 8);
    assert t[..8] == w1.0[..8] == buf[..8] == want[..8];
    assert t[8..16] == w1.0[..16][8..] == LeBytes(x, 8) == want[8..16];
    assert t[16..] == LeBytes(y, 8) == want[16..];
    assert t == t[..8] + t[8..16] + t[16..];
    assert want == want[..8] + want[8..16] + want[16..];
  }

  /** The signal topic: `[2, 0x40, 0x5C, 0, 0, 0, 0, 0]`, then `fs` and `fc`
      as little-endian doubles, which read back as the values written. */
  lemma SignalTopicLayout(info: SignalInfo)
    ensures Pow256(8) == U64Limit
    ensures var t := SerializeSignalTopic(info);
      && t[..8] == [2, 0x40, 0x5C, 0, 0, 0, 0, 0]
      && t[8..16] == LeBytes(info.fs, 8) && LeValue(t[8..16]) == info.fs
      && t[16..24] == LeBytes(info.fc, 8) && LeValue(t[16..24]) == info.fc
  {
    TopicLayout(Waveform, Cf32le, info.fs, info.fc);
    LeRoundTrip(info.fs, 8);
    LeRoundTrip(info.fc, 8);
  }

  /** The spectrum topic: `[2, 0x60, 0x24, 0, 0, 0, 0, 0]`, then `fd` and
      `f0` as little-endian doubles. */
  lemma SpectrumTopicLayout(info: SpectrumInfo)
    ensures Pow256(8) == U64Limit
    ensures var t := SerializeSpectrumTopic(info);
      && t[..8] == [2, 0x60, 0x24, 0, 0, 0, 0, 0]
      && t[8..16] == LeBytes(info.fd, 8) && LeValue(t[8..16]) == info.fd
      && t[16..24] == LeBytes(info.f0, 8) && LeValue(t[16..24]) == info.f0
  {
    TopicLayout(Spectrum, U8, info.fd, info.f0);
    LeRoundTrip(info.fd, 8);
    LeRoundTrip(info.f0, 8);
  }
}
