/** `serialize_metadata` of `spektri/src/dsp/output.rs`, the second copy of
    the metadata writer. It is modelled here as a walk over the list of
    fields it writes, and proved to agree with the `Data` copy on every
    input. */
module Output {
  import opened Bytes
  import opened Results
  import Data

  /** One `write_with(offset, value, LE)` of a `width`-byte integer. */
  datatype Field = Field(value: nat, width: nat)

  predicate Fits(fs: seq<Field>) {
    forall k :: 0 <= k < |fs| ==> fs[k].value < Pow256(fs[k].width)
  }

  /** The fields in order, each write returning early on its error. */
  function WriteAll(buf: seq<byte>, offset: nat, fs: seq<Field>): (r: (seq<byte>, nat, Result<(), Data.WriteError>))
    requires Fits(fs)
    ensures |r.0| == |buf|
    decreases |fs|
  {
    if |fs| == 0 then (buf, offset, Ok(()))
    else
      var w := Data.WriteLe(buf, offset, fs[0].value, fs[0].width);
      if w.2.Err? then w else WriteAll(w.0, w.1, fs[1..])
  }

  function TotalWidth(fs: seq<Field>): nat
    decreases |fs|
  {
    if |fs| == 0 then 0 else fs[0].width + TotalWidth(fs[1..])
  }

  /** The bytes of all fields, back to back. */
  function Encoded(fs: seq<Field>): (b: seq<byte>)
    requires Fits(fs)
    ensures |b| == TotalWidth(fs)
    decreases |fs|
  {
    if |fs| == 0 then [] else LeBytes(fs[0].value, fs[0].width) + Encoded(fs[1..])
  }

  /** When all fields fit after `offset`, writing them succeeds, lays their
      bytes out back to back and touches nothing else. */
  lemma {:induction false} WriteAllFits(buf: seq<byte>, offset: nat, fs: seq<Field>)
    requires Fits(fs) && offset + TotalWidth(fs) <= |buf|
    ensures var r := WriteAll(buf, offset, fs);
      && r.2.Ok?
      && r.1 == offset + TotalWidth(fs)
      && r.0[offset..offset + TotalWidth(fs)] == Encoded(fs)
      && r.0[..offset] == buf[..offset]
      && r.0[offset + TotalWidth(fs)..] == buf[offset + TotalWidth(fs)..]
    decreases |fs|
  {
    if |fs| > 0 {
      var f, rest := fs[0], fs[1..];
      assert TotalWidth(fs) == f.width + TotalWidth(rest);
      assert Encoded(fs) == LeBytes(f.value, f.width) + Encoded(rest);
      var w := Data.WriteLe(buf, offset, f.value, f.width);
      WriteAllFits(w.0, w.1, rest);
      var r := WriteAll(w.0, w.1, rest);
      assert WriteAll(buf, offset, fs) == r;
      Data.WritesAdjacent(buf, offset, LeBytes(f.value, f.width), Encoded(rest), w.0, r.0);
    }
  }

  /** When a non-empty list of fields does not fit, writing it fails, and
      the bytes before `offset` are as they were. */
  lemma {:induction false} WriteAllFails(buf: seq<byte>, offset: nat, fs: seq<Field>)
    requires Fits(fs) && |fs| > 0 && offset + TotalWidth(fs) > |buf|
    ensures var r := WriteAll(buf, offset, fs);
      && r.2.Err?
      && forall k :: 0 <= k < offset && k < |buf| ==> r.0[k] == buf[k]
    decreases |fs|
  {
    var f, rest := fs[0], fs[1..];
    var w := Data.WriteLe(buf, offset, f.value, f.width);
    if w.2.Ok? {
      WriteAllFails(w.0, w.1, rest);
      assert WriteAll(buf, offset, fs) == WriteAll(w.0, w.1, rest);
      forall k | 0 <= k < offset && k < |buf|
        ensures w.0[k] == buf[k]
      {
        assert w.0[..offset][k] == buf[..offset][k];
      }
    }
  }

  /** The four fields `serialize_metadata` writes. */
  function MetadataFields(md: Data.Metadata, seqNo: nat): (fs: seq<Field>)
    requires seqNo < U64Limit && Data.ValidTime(md.systemtime)
    ensures Fits(fs) && TotalWidth(fs) == 24
  {
    Pow256Values();
    var (secs, nanos) := Data.SinceEpoch(md.systemtime);
    var f4 := [Field(0, 4)];
    var f3 := [Field(nanos, 4)] + f4;
    var f2 := [Field(secs, 8)] + f3;
    var fs := [Field(seqNo, 8)] + f2;
    Cons(Field(0, 4), []);
    assert f4 == [Field(0, 4)] + [];
    Cons(Field(nanos, 4), f4);
    Cons(Field(secs, 8), f3);
    Cons(Field(seqNo, 8), f2);
    fs
  }

  /** Unfolding the list functions one field at a time. */
  lemma Cons(f: Field, fs: seq<Field>)
    ensures ([f] + fs)[1..] == fs && ([f] + fs)[0] == f
    ensures TotalWidth([f] + fs) == f.width + TotalWidth(fs)
    ensures Fits([f] + fs) <==> f.value < Pow256(f.width) && Fits(fs)
  {
    assert ([f] + fs)[1..] == fs;
    if f.value < Pow256(f.width) && Fits(fs) {
      assert forall k :: 1 <= k < |fs| + 1 ==> ([f] + fs)[k] == fs[k - 1];
    }
  }

  /** `serialize_metadata(buf, offset, metadata, seq)`. */
  function SerializeMetadata(buf: seq<byte>, offset: nat, md: Data.Metadata, seqNo: nat): (r: (seq<byte>, nat, Result<(), Data.WriteError>))
    requires seqNo < U64Limit && Data.ValidTime(md.systemtime)
    ensures |r.0| == |buf|
  {
    WriteAll(buf, offset, MetadataFields(md, seqNo))
  }

  /** Unfolding `Encoded` and `WriteAll` at the first field. */
  lemma ConsWrite(buf: seq<byte>, offset: nat, f: Field, fs: seq<Field>)
    requires f.value < Pow256(f.width) && Fits(fs)
    ensures Fits([f] + fs)
    ensures Encoded([f] + fs) == LeBytes(f.value, f.width) + Encoded(fs)
    ensures var w := Data.WriteLe(buf, offset, f.value, f.width);
      WriteAll(buf, offset, [f] + fs) == if w.2.Err? then w else WriteAll(w.0, w.1, fs)
  {
    Cons(f, fs);
  }

  /** The four fields as a list built field by field. */
  lemma MetadataFieldsList(md: Data.Metadata, seqNo: nat)
    requires seqNo < U64Limit && Data.ValidTime(md.systemtime)
    ensures Pow256(8) == U64Limit && Pow256(4) == U32Limit
    ensures var (secs, nanos) := Data.SinceEpoch(md.systemtime);
      MetadataFields(md, seqNo)
        == [Field(seqNo, 8)] + ([Field(secs, 8)] + ([Field(nanos, 4)] + ([Field(0, 4)] + [])))
  {
    Pow256Values();
  }

  /** The fields encode to the header the `Data` copy describes. */
  lemma FieldsAreHeader(md: Data.Metadata, seqNo: nat)
    requires seqNo < U64Limit && Data.ValidTime(md.systemtime)
    ensures Encoded(MetadataFields(md, seqNo)) == Data.MetadataBytes(md, seqNo)
  {
    MetadataFieldsList(md, seqNo);
    var (secs, nanos) := Data.SinceEpoch(md.systemtime);
    var t4 := [Field(0, 4)] + [];
    var t3 := [Field(nanos, 4)] + t4;
    var t2 := [Field(secs, 8)] + t3;
    var t1 := [Field(seqNo, 8)] + t2;
    var l1, l2, l3, l4 := LeBytes(seqNo, 8), LeBytes(secs, 8), LeBytes(nanos, 4), LeBytes(0, 4);
    EncodedCons(Field(0, 4), []);
    EncodedCons(Field(nanos, 4), t4);
    EncodedCons(Field(secs, 8), t3);
    EncodedCons(Field(seqNo, 8), t2);
    assert Encoded(t1) == l1 + (l2 + (l3 + (l4 + [])));
    assert l1 + (l2 + (l3 + (l4 + []))) == l1 + l2 + l3 + l4;
  }

  /** Unfolding `Encoded` at the first field. */
  lemma EncodedCons(f: Field, fs: seq<Field>)
    requires f.value < Pow256(f.width) && Fits(fs)
    ensures Fits([f] + fs)
    ensures Encoded([f] + fs) == LeBytes(f.value, f.width) + Encoded(fs)
  {
    Cons(f, fs);
  }

  /** The copy in `output.rs` behaves exactly like the one in `data.rs`: the
      same buffer, offset and outcome for every input. */
  lemma SameAsData(buf: seq<byte>, offset: nat, md: Data.Metadata, seqNo: nat)
    requires seqNo < U64Limit && Data.ValidTime(md.systemtime)
    ensures SerializeMetadata(buf, offset, md, seqNo) == Data.SerializeMetadata(buf, offset, md, seqNo)
  {
    MetadataFieldsList(md, seqNo);
    var (secs, nanos) := Data.SinceEpoch(md.systemtime);
    var f1, f2, f3, f4 := Field(seqNo, 8), Field(secs, 8), Field(nanos, 4), Field(0, 4);
    var w1 := Data.WriteLe(buf, offset, seqNo, 8);
    var w2 := Data.WriteLe(w1.0, w1.1, secs, 8);
    var w3 := Data.WriteLe(w2.0, w2.1, nanos, 4);
    ConsWrite(buf, offset, f1, [f2] + ([f3] + ([f4] + [])));
    ConsWrite(w1.0, w1.1, f2, [f3] + ([f4] + []));
    ConsWrite(w2.0, w2.1, f3, [f4] + []);
    ConsWrite(w3.0, w3.1, f4, []);
  }

  /** Success exactly when 24 bytes remain after `offset`; then the header
      fields in order, `offset + 24`, and every other byte as it was. */
  lemma SerializeMetadataWrites(buf: seq<byte>, offset: nat, md: Data.Metadata, seqNo: nat)
    requires seqNo < U64Limit && Data.ValidTime(md.systemtime)
    ensures var r := SerializeMetadata(buf, offset, md, seqNo);
      && (r.2.Ok? <==> offset + 24 <= |buf|)
      && (r.2.Ok? ==> r.1 == offset + 24
                      && r.0[offset..offset + 24] == Data.MetadataBytes(md, seqNo)
                      && r.0[..offset] == buf[..offset]
                      && r.0[offset + 24..] == buf[offset + 24..])
  {
    var fs := MetadataFields(md, seqNo);
    if offset + 24 <= |buf| {
      WriteAllFits(buf, offset, fs);
      FieldsAreHeader(md, seqNo);
    } else {
      WriteAllFails(buf, offset, fs);
    }
  }
}
