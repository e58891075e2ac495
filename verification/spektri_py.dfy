/** The receiving side in `tools/spektri.py`: the subscription topics it
    builds and where it finds the samples in a message. */
module SpektriPy {
  import opened Bytes
  import Data

  /** `struct.pack("<d", x)`: the 8 bytes of the double's bit pattern,
      least significant first. */
  function PackDouble(x: Data.F64): (b: seq<byte>)
    ensures |b| == 8
  {
    Pow256Values();
    LeBytes(x, 8)
  }

  /** `signal_topic(fs, fc)`. */
  function SignalTopic(fs: Data.F64, fc: Data.F64): (t: seq<byte>)
    ensures |t| == 24
  {
    [2, 0x40, 0x5C, 0, 0, 0, 0, 0] + PackDouble(fs) + PackDouble(fc)
  }

  /** `spectrum_topic()`: only the header, so it matches any rates. */
  const SpectrumTopic: seq<byte> := [2, 0x60, 0x24, 0, 0, 0, 0, 0]

  /** A ZeroMQ subscription matches every topic it is a prefix of. */
  predicate Matches(subscription: seq<byte>, topic: seq<byte>) {
    subscription <= topic
  }

  /** The Python signal topic is the Rust one, byte for byte, so a receiver
      subscribed with the same `fs` and `fc` gets exactly that stream. */
  lemma SignalTopicAgrees(fs: Data.F64, fc: Data.F64)
    ensures SignalTopic(fs, fc) == Data.SerializeSignalTopic(Data.SignalInfo(fs, fc))
    ensures Matches(SignalTopic(fs, fc), Data.SerializeSignalTopic(Data.SignalInfo(fs, fc)))
  {
    Data.TopicLayout(Data.Waveform, Data.Cf32le, fs, fc);
  }

  /** A signal subscription matches a published signal topic only for the
      same two doubles. */
  lemma SignalTopicSelects(fs: Data.F64, fc: Data.F64, info: Data.SignalInfo)
    ensures Matches(SignalTopic(fs, fc), Data.SerializeSignalTopic(info)) <==> info == Data.SignalInfo(fs, fc)
  {
    SignalTopicAgrees(fs, fc);
    SignalTopicAgrees(info.fs, info.fc);
    if Matches(SignalTopic(fs, fc), Data.SerializeSignalTopic(info)) {
      var a, b := SignalTopic(fs, fc), SignalTopic(info.fs, info.fc);
      assert a == b;
      assert a[8..16] == PackDouble(fs) && b[8..16] == PackDouble(info.fs);
      assert a[16..24] == PackDouble(fc) && b[16..24] == PackDouble(info.fc);
      Pow256Values();
      LeRoundTrip(fs, 8);
      LeRoundTrip(info.fs, 8);
      LeRoundTrip(fc, 8);
      LeRoundTrip(info.fc, 8);
    }
  }

  /** The spectrum subscription matches every spectrum topic the Rust side
      publishes, whatever its rates, and no signal topic. */
  lemma SpectrumTopicMatches(info: Data.SpectrumInfo, signal: Data.SignalInfo)
    ensures Matches(SpectrumTopic, Data.SerializeSpectrumTopic(info))
    ensures !Matches(SpectrumTopic, Data.SerializeSignalTopic(signal))
  {
    Data.SpectrumTopicLayout(info);
    Data.SignalTopicLayout(signal);
    var t := Data.SerializeSignalTopic(signal);
    assert t[1] == t[..8][1] == 0x40;
  }

  /** `msg[24:]`: Python slicing gives the empty string for a shorter
      message. */
  function Payload(msg: seq<byte>): (p: seq<byte>)
    ensures |msg| >= 24 ==> |p| == |msg| - 24
    ensures |msg| < 24 ==> p == []
  {
    if |msg| >= 24 then msg[24..] else []
  }

  /** The receiver skips exactly the metadata: in a record whose header was
      written at offset 0, the payload is everything after the 24 header
      bytes, untouched by the header write. */
  lemma PayloadAfterMetadata(buf: seq<byte>, md: Data.Metadata, seqNo: nat)
    requires seqNo < U64Limit && Data.ValidTime(md.systemtime)
    requires |buf| >= 24
    ensures var r := Data.SerializeMetadata(buf, 0, md, seqNo);
      && r.2.Ok?
      && r.0 == Data.MetadataBytes(md, seqNo) + Payload(r.0)
      && Payload(r.0) == buf[24..]
  {
    Data.SerializeMetadataWrites(buf, 0, md, seqNo);
    var r := Data.SerializeMetadata(buf, 0, md, seqNo);
    assert r.0 == r.0[0..24] + r.0[24..];
  }
}
