/** `spektri/src/inputformats.rs`: the raw sample formats read from standard
    input, their sizes and scaling, and the conversion of raw bytes into
    real or complex samples. A 32-bit float is decoded from its bit pattern
    by a function passed in; its rounding is not modelled. */
module InputFormats {
  import opened Arith
  import opened Bytes
  import opened ComplexNumbers

  datatype InputFormat =
    | U8 | S8 | S16le | S16be | F32le | F32be
    | Cu8 | Cs8 | Cs16le | Cs16be | Cf32le | Cf32be

  /** `bytes_per_input_sample`. */
  function BytesPerInputSample(f: InputFormat): (n: nat)
    ensures n in {1, 2, 4, 8}
    ensures IsComplex(f) ==> n >= 2 && n % 2 == 0
  {
    match f
    case U8 => 1
    case S8 => 1
    case S16le => 2
    case S16be => 2
    case F32le => 4
    case F32be => 4
    case Cu8 => 2
    case Cs8 => 2
    case Cs16le => 4
    case Cs16be => 4
    case Cf32le => 8
    case Cf32be => 8
  }

  /** `is_input_format_complex`: half of the twelve formats are complex,
      one for each real format. */
  predicate IsComplex(f: InputFormat): (b: bool)
    ensures b <==> !(f.U8? || f.S8? || f.S16le? || f.S16be? || f.F32le? || f.F32be?)
  {
    f.Cu8? || f.Cs8? || f.Cs16le? || f.Cs16be? || f.Cf32le? || f.Cf32be?
  }

  const I8Max: nat := 127
  const I16Max: nat := 32767

  /** `input_format_scaling`: brings integer samples to about `[-1, 1]`. */
  function Scaling(f: InputFormat): (k: real)
    ensures 0.0 < k <= 1.0
  {
    match f
    case U8 | S8 | Cu8 | Cs8 => 1.0 / I8Max as real
    case S16le | S16be | Cs16le | Cs16be => 1.0 / I16Max as real
    case F32le | F32be | Cf32le | Cf32be => 1.0
  }

  /** The complex format whose two parts are numbers of a real format. */
  function ComplexOf(f: InputFormat): (c: InputFormat)
    requires !IsComplex(f)
  {
    match f
    case U8 => Cu8
    case S8 => Cs8
    case S16le => Cs16le
    case S16be => Cs16be
    case F32le => Cf32le
    case F32be => Cf32be
  }

  /** The real format of each part of a complex sample. */
  function PartFormat(f: InputFormat): (r: InputFormat)
    requires IsComplex(f)
  {
    match f
    case Cu8 => U8
    case Cs8 => S8
    case Cs16le => S16le
    case Cs16be => S16be
    case Cf32le => F32le
    case Cf32be => F32be
  }

  /** The formats pair up: each complex format is the complex format of its
      part format, it takes twice the bytes of a real sample of that format
      and it has the same scaling; and the complex formats are exactly the
      ones reached from a real format this way. */
  lemma FormatsPairUp(f: InputFormat)
    ensures IsComplex(f) ==> !IsComplex(PartFormat(f)) && ComplexOf(PartFormat(f)) == f
    ensures IsComplex(f) ==> BytesPerInputSample(f) == 2 * BytesPerInputSample(PartFormat(f))
    ensures IsComplex(f) ==> Scaling(f) == Scaling(PartFormat(f))
    ensures !IsComplex(f) ==> IsComplex(ComplexOf(f)) && PartFormat(ComplexOf(f)) == f
    ensures IsComplex(f) <==> exists r :: !IsComplex(r) && ComplexOf(r) == f
  {
    if IsComplex(f) {
      assert !IsComplex(PartFormat(f)) && ComplexOf(PartFormat(f)) == f;
    }
  }

  /** Bytes of one number: a real sample, or one part of a complex one. */
  function NumberBytes(f: InputFormat): (w: nat)
    ensures w in {1, 2, 4}
  {
    if IsComplex(f) then BytesPerInputSample(f) / 2 else BytesPerInputSample(f)
  }

  /** The scaling depends only on the width of a number and whether it is a
      float: `1/i8::MAX` for 8-bit, `1/i16::MAX` for 16-bit integers, 1 for
      floats. */
  lemma ScalingByWidth(f: InputFormat)
    ensures Scaling(f) == (if NumberBytes(f) == 1 then 1.0 / 127.0
                           else if NumberBytes(f) == 2 then 1.0 / 32767.0
                           else 1.0)
  {
  }

  // ---------------------------------------------------------------------------
  // Decoding numbers

  /** Two's complement: `n` bytes' unsigned value read as signed. */
  function Signed(v: nat, n: nat): (s: int)
    requires v < Pow256(n) && n >= 1
    ensures Pow256(n) / 2 + s >= 0 && s < Pow256(n) / 2
  {
    PowHalf(n);
    if v < Pow256(n) / 2 then v else v - Pow256(n)
  }

  function Reverse(b: seq<byte>): (r: seq<byte>)
    ensures |r| == |b|
    decreases |b|
  {
    if |b| == 0 then [] else Reverse(b[1..]) + [b[0]]
  }

  /** The value of big-endian bytes. */
  function BeValue(b: seq<byte>): nat {
    LeValue(Reverse(b))
  }

  /** One `read_with` of a number of the real format `f` from exactly its
      bytes: `u8 - 127.4`, `i8`, `i16` in either byte order, or an `f32` bit
      pattern in either byte order. */
  function DecodeNumber(f: InputFormat, b: seq<byte>, f32Of: nat -> real): real
    requires !IsComplex(f) && |b| == BytesPerInputSample(f)
  {
    LeValueBound(b);
    LeValueBound(Reverse(b));
    match f
    case U8 => b[0] as real - 127.4
    case S8 => Signed(b[0], 1) as real
    case S16le => Signed(LeValue(b), 2) as real
    case S16be => Signed(BeValue(b), 2) as real
    case F32le => f32Of(LeValue(b))
    case F32be => f32Of(BeValue(b))
  }

  lemma LeValueTwo(b: seq<byte>)
    requires |b| == 2
    ensures LeValue(b) == b[0] as nat + 256 * b[1] as nat
  {
    assert LeValue(b[1..][1..]) == 0;
    assert LeValue(b[1..]) == b[1];
  }

  lemma ReverseTwo(b: seq<byte>)
    requires |b| == 2
    ensures Reverse(b) == [b[1], b[0]]
  {
    assert Reverse(b[1..]) == Reverse(b[1..][1..]) + [b[1]];
  }

  /** The big-endian formats read the byte-swapped value: `S16be` on `b` is
      `S16le` on `b` reversed, and likewise for the floats. */
  lemma BigEndianIsSwapped(b: seq<byte>, f32Of: nat -> real)
    requires |b| == 2
    ensures DecodeNumber(S16be, b, f32Of) == DecodeNumber(S16le, [b[1], b[0]], f32Of)
    ensures DecodeNumber(S16le, b, f32Of) == (Signed(b[0] as nat + 256 * b[1] as nat, 2) as real)
    ensures DecodeNumber(S16be, b, f32Of) == (Signed(256 * b[0] as nat + b[1] as nat, 2) as real)
  {
    Pow256Values();
    ReverseTwo(b);
    assert [b[1], b[0]][1..] == [b[0]];
    assert b[1..][1..] == [];
    LeValueTwo(b);
    LeValueTwo([b[1], b[0]]);
  }

  /** The 16-bit two's-complement bytes of `v`, least significant first. */
  function EncodeS16Le(v: int): (b: seq<byte>)
    requires -32768 <= v < 32768
    ensures |b| == 2
  {
    Pow256Values();
    LeBytes(if v >= 0 then v else v + 0x1_0000, 2)
  }

  /** Every 16-bit value survives encoding and decoding in both byte orders:
      the decoders lose nothing of a 16-bit integer. */
  lemma S16RoundTrip(v: int, f32Of: nat -> real)
    requires -32768 <= v < 32768
    ensures DecodeNumber(S16le, EncodeS16Le(v), f32Of) == v as real
    ensures DecodeNumber(S16be, Reverse(EncodeS16Le(v)), f32Of) == v as real
  {
    Pow256Values();
    var b := EncodeS16Le(v);
    LeRoundTrip(if v >= 0 then v else v + 0x1_0000, 2);
    ReverseTwo(b);
    ReverseTwo([b[1], b[0]]);
    assert Reverse(Reverse(b)) == b;
  }

  /** The integer decoders cover their types' ranges: `i8` in
      `[-128, 127]`, `i16` in `[-32768, 32767]`, and the unsigned bytes in
      `[-127.4, 127.6]` after the offset. */
  lemma DecodedRange(f: InputFormat, b: seq<byte>, f32Of: nat -> real)
    requires !IsComplex(f) && |b| == BytesPerInputSample(f)
    ensures f == U8 ==> -127.4 <= DecodeNumber(f, b, f32Of) <= 127.6
    ensures f == S8 ==> -128.0 <= DecodeNumber(f, b, f32Of) <= 127.0
    ensures f == S16le || f == S16be ==> -32768.0 <= DecodeNumber(f, b, f32Of) <= 32767.0
  {
    Pow256Values();
    assert Pow256(1) == 256;
  }

  // ---------------------------------------------------------------------------
  // Converting buffers

  /** The bytes of number `k` of `n` numbers `w` bytes wide. */
  function Slot(src: seq<byte>, k: nat, n: nat, w: nat): (b: seq<byte>)
    requires k < n && n * w <= |src|
    ensures |b| == w
  {
    MulLe(k + 1, n, w);
    src[k * w..(k + 1) * w]
  }

  /** What `convert_to_f32` stores at `dst[k]`. */
  predicate RealSamples(dst: seq<real>, src: seq<byte>, f: InputFormat, f32Of: nat -> real)
    requires !IsComplex(f) && |dst| * BytesPerInputSample(f) <= |src|
  {
    forall k :: 0 <= k < |dst| ==>
      dst[k] == DecodeNumber(f, Slot(src, k, |dst|, BytesPerInputSample(f)), f32Of)
  }

  /** What `convert_to_cf32` stores at `dst[k]`: the real part from the
      first number of the sample, the imaginary part from the second. */
  predicate ComplexSamples(dst: seq<Complex>, src: seq<byte>, f: InputFormat, f32Of: nat -> real)
    requires IsComplex(f) && |dst| * BytesPerInputSample(f) <= |src|
  {
    var r := PartFormat(f);
    var w := NumberBytes(f);
    FormatsPairUp(f);
    assert 2 * |dst| * w <= |src|;
    forall k :: 0 <= k < |dst| ==> dst[k] == ComplexAt(src, k, |dst|, f, f32Of)
  }

  /** Complex sample `k` of `n`: numbers `2k` and `2k + 1` of the part
      format. */
  function ComplexAt(src: seq<byte>, k: nat, n: nat, f: InputFormat, f32Of: nat -> real): Complex
    requires IsComplex(f) && k < n && n * BytesPerInputSample(f) <= |src|
  {
    var r := PartFormat(f);
    var w := NumberBytes(f);
    FormatsPairUp(f);
    assert 2 * n * w <= |src|;
    Complex(DecodeNumber(r, Slot(src, 2 * k, 2 * n, w), f32Of),
            DecodeNumber(r, Slot(src, 2 * k + 1, 2 * n, w), f32Of))
  }

  /** `convert_to_f32(src, dst, fmt)` for a `dst` of `n` samples: reads
      consecutive numbers from offset 0. A complex format, or a `src` too
      short for `n` samples, panics in the source. */
  method ConvertToF32(src: seq<byte>, n: nat, f: InputFormat, f32Of: nat -> real) returns (dst: seq<real>)
    requires !IsComplex(f) && n * BytesPerInputSample(f) <= |src|
    ensures |dst| == n
    ensures RealSamples(dst, src, f, f32Of)
  {
    var w := BytesPerInputSample(f);
    var offset: nat := 0;
    dst := [];
    while |dst| < n
      invariant |dst| <= n && offset == |dst| * w
      invariant forall k :: 0 <= k < |dst| ==> dst[k] == DecodeNumber(f, Slot(src, k, n, w), f32Of)
    {
      MulLe(|dst| + 1, n, w);
      var v := DecodeNumber(f, src[offset..offset + w], f32Of);
      assert src[offset..offset + w] == Slot(src, |dst|, n, w);
      dst := dst + [v];
      offset := offset + w;
    }
  }

  /** Complex sample `k` sits at byte offset `2kw`, real part first. */
  lemma ComplexAtOffset(src: seq<byte>, k: nat, n: nat, f: InputFormat, f32Of: nat -> real)
    requires IsComplex(f) && k < n && n * BytesPerInputSample(f) <= |src|
    ensures !IsComplex(PartFormat(f)) && BytesPerInputSample(PartFormat(f)) == NumberBytes(f)
    ensures 2 * k * NumberBytes(f) + 2 * NumberBytes(f) <= |src|
    ensures var w, o := NumberBytes(f), 2 * k * NumberBytes(f);
      ComplexAt(src, k, n, f, f32Of)
        == Complex(DecodeNumber(PartFormat(f), src[o..o + w], f32Of),
                   DecodeNumber(PartFormat(f), src[o + w..o + 2 * w], f32Of))
  {
    FormatsPairUp(f);
    var w := NumberBytes(f);
    MulLe(2 * k + 2, 2 * n, w);
  }

  /** `convert_to_cf32(src, dst, fmt)` for a `dst` of `n` samples. A real
      format, or a `src` too short for `n` samples, panics in the source. */
  method ConvertToCf32(src: seq<byte>, n: nat, f: InputFormat, f32Of: nat -> real) returns (dst: seq<Complex>)
    requires IsComplex(f) && n * BytesPerInputSample(f) <= |src|
    ensures |dst| == n
    ensures ComplexSamples(dst, src, f, f32Of)
  {
    FormatsPairUp(f);
    var r := PartFormat(f);
    var w := NumberBytes(f);
    var offset: nat := 0;
    dst := [];
    while |dst| < n
      invariant |dst| <= n && offset == 2 * |dst| * w
      invariant forall k :: 0 <= k < |dst| ==> dst[k] == ComplexAt(src, k, n, f, f32Of)
    {
      ComplexAtOffset(src, |dst|, n, f, f32Of);
      var re := DecodeNumber(r, src[offset..offset + w], f32Of);
      var im := DecodeNumber(r, src[offset + w..offset + 2 * w], f32Of);
      dst := dst + [Complex(re, im)];
      offset := offset + 2 * w;
    }
  }

  /** The complex conversion is the real conversion of twice as many numbers
      of the part format, paired up: `dst[k]` is numbers `2k` and `2k + 1`. */
  lemma ComplexIsInterleaved(cdst: seq<Complex>, rdst: seq<real>, src: seq<byte>, f: InputFormat, f32Of: nat -> real)
    requires IsComplex(f) && |cdst| * BytesPerInputSample(f) <= |src|
    requires !IsComplex(PartFormat(f)) && |rdst| == 2 * |cdst|
    requires |rdst| * BytesPerInputSample(PartFormat(f)) <= |src|
    requires RealSamples(rdst, src, PartFormat(f), f32Of)
    ensures ComplexSamples(cdst, src, f, f32Of)
        <==> forall k :: 0 <= k < |cdst| ==> cdst[k] == Complex(rdst[2 * k], rdst[2 * k + 1])
  {
    FormatsPairUp(f);
    var w := NumberBytes(f);
    assert w == BytesPerInputSample(PartFormat(f));
    forall k | 0 <= k < |cdst|
      ensures rdst[2 * k] == DecodeNumber(PartFormat(f), Slot(src, 2 * k, |rdst|, w), f32Of)
      ensures rdst[2 * k + 1] == DecodeNumber(PartFormat(f), Slot(src, 2 * k + 1, |rdst|, w), f32Of)
    {
    }
  }
}
