/** pack, unpack and the fused decode-and-accumulate loop of
  src/modules/packetConverter.cppm.

  A sample is its bit pattern, a number below 256 to the width of its type.  The
  union in the source turns a pattern into the bytes the host stores it in.
 */
module SampleCodec {
  import opened Wrappers
  import opened Division
  import opened Statistics

  type Byte = x: int | 0 <= x < 256

  datatype Endian = Little | Big

  datatype CodecError = UnexpectedDataSize | SignedOverflow

  function Pow256(n: nat): (p: nat)
    ensures p > 0
  {
    if n == 0 then 1 else 256 * Pow256(n - 1)
  }

  /** The bytes of v, least significant first. */
  function LittleBytes(width: nat, v: nat): (b: seq<Byte>)
    ensures |b| == width
  {
    if width == 0 then [] else [v % 256] + LittleBytes(width - 1, v / 256)
  }

  function FromLittle(b: seq<Byte>): nat {
    if b == [] then 0 else b[0] + 256 * FromLittle(b[1..])
  }

  function Reversed(b: seq<Byte>): (r: seq<Byte>)
    ensures |r| == |b|
    ensures forall i :: 0 <= i < |b| ==> r[i] == b[|b| - 1 - i]
  {
    seq(|b|, i requires 0 <= i < |b| => b[|b| - 1 - i])
  }

  /** How a host stores v in memory, and what it reads back. */
  function Image(host: Endian, width: nat, v: nat): (b: seq<Byte>)
    ensures |b| == width
  {
    if host.Little? then LittleBytes(width, v) else Reversed(LittleBytes(width, v))
  }

  function FromImage(host: Endian, b: seq<Byte>): nat {
    FromLittle(if host.Little? then b else Reversed(b))
  }

  /** std::reverse_copy or std::copy. */
  function Copied(b: seq<Byte>, swapBytes: bool): (r: seq<Byte>)
    ensures |r| == |b|
  {
    if swapBytes then Reversed(b) else b
  }

  /** A run of encoded samples. */
  function Blocks(encode: nat -> seq<Byte>, samples: seq<nat>): seq<Byte> {
    if samples == [] then [] else encode(samples[0]) + Blocks(encode, samples[1..])
  }

  /** The samples decoded from whole blocks of width bytes. */
  function Decoded(decode: seq<Byte> -> nat, width: nat, data: seq<Byte>): seq<nat>
    requires width > 0
  {
    if |data| < width then [] else [decode(data[..width])] + Decoded(decode, width, data[width..])
  }

  /** One sample through the union and a copy. */
  function Encoder(host: Endian, width: nat, swapBytes: bool): nat -> seq<Byte> {
    v => Copied(Image(host, width, v), swapBytes)
  }

  function Decoder(host: Endian, swapBytes: bool): seq<Byte> -> nat {
    bytes => FromImage(host, Copied(bytes, swapBytes))
  }

  /** What pack stores for a run of samples. */
  function Packed(host: Endian, width: nat, samples: seq<nat>, swapBytes: bool): seq<Byte> {
    Blocks(Encoder(host, width, swapBytes), samples)
  }

  /** What unpack reads from whole samples' worth of bytes. */
  function Unpacked(host: Endian, width: nat, data: seq<Byte>, swapBytes: bool): seq<nat>
    requires width > 0
  {
    Decoded(Decoder(host, swapBytes), width, data)
  }

  // ----- The loops -----

  lemma NextBlock(width: nat, n: nat)
    requires n > 0
    ensures width * n == width + width * (n - 1) && width * (n - 1) >= 0
  {
  }

  ghost predicate Encodes(encode: nat -> seq<Byte>, width: nat) {
    forall v: nat :: |encode(v)| == width
  }

  lemma {:induction false} BlocksLength(encode: nat -> seq<Byte>, width: nat, samples: seq<nat>)
    requires Encodes(encode, width)
    ensures |Blocks(encode, samples)| == width * |samples|
  {
    if samples != [] {
      BlocksLength(encode, width, samples[1..]);
      NextBlock(width, |samples|);
    }
  }

  lemma PackedLength(host: Endian, width: nat, samples: seq<nat>, swapBytes: bool)
    ensures |Packed(host, width, samples, swapBytes)| == width * |samples|
  {
    BlocksLength(Encoder(host, width, swapBytes), width, samples);
  }

  lemma {:induction false} DecodedLength(decode: seq<Byte> -> nat, width: nat, data: seq<Byte>, n: nat)
    requires width > 0 && |data| == width * n
    ensures |Decoded(decode, width, data)| == n
    decreases n
  {
    if n == 0 {
      assert |data| == 0;
    } else {
      NextBlock(width, n);
      DecodedLength(decode, width, data[width..], n - 1);
    }
  }

  lemma UnpackedLength(host: Endian, width: nat, data: seq<Byte>, n: nat, swapBytes: bool)
    requires width > 0 && |data| == width * n
    ensures |Unpacked(host, width, data, swapBytes)| == n
  {
    DecodedLength(Decoder(host, swapBytes), width, data, n);
  }

  /** pack: resizes the result and fills it sample by sample. */
  method Pack(host: Endian, width: nat, data: seq<nat>, nSamples: int, swapBytes: bool) returns (result: array<Byte>)
    requires nSamples <= |data|
    ensures fresh(result)
    ensures result[..] == Packed(host, width, data[..if nSamples < 1 then 0 else nSamples], swapBytes)
  {
    if nSamples < 1 {
      result := new Byte[0];
      return;
    }
    result := new Byte[width * nSamples](_ => 0);
    PackedLength(host, width, data[..nSamples], swapBytes);
    PackInto(Encoder(host, width, swapBytes), width, data[..nSamples], result);
  }

  /** The loop of pack. */
  method PackInto(encode: nat -> seq<Byte>, width: nat, samples: seq<nat>, result: array<Byte>)
    requires Encodes(encode, width) && result.Length == |Blocks(encode, samples)|
    modifies result
    ensures result[..] == Blocks(encode, samples)
  {
    ghost var all := Blocks(encode, samples);
    ghost var rest := samples;
    var at := 0;
    for i := 0 to |samples|
      invariant rest == samples[i..] && 0 <= at <= |all| && all[at..] == Blocks(encode, rest)
      invariant forall j :: 0 <= j < at ==> result[j] == all[j]
    {
      PackTurn(encode, rest, all, at);
      FillBlock(result, at, encode(samples[i]));
      rest := rest[1..];
      at := at + width;
    }
  }

  /** The bytes of the next sample come next. */
  lemma PackTurn(encode: nat -> seq<Byte>, rest: seq<nat>, all: seq<Byte>, at: nat)
    requires rest != [] && at <= |all| && all[at..] == Blocks(encode, rest)
    ensures var bytes := encode(rest[0]);
      && at + |bytes| <= |all| && all[at + |bytes|..] == Blocks(encode, rest[1..])
      && forall j :: at <= j < at + |bytes| ==> all[j] == bytes[j - at]
  {
    NextPart(all, at, encode(rest[0]), Blocks(encode, rest[1..]));
  }

  lemma NextPart<T>(all: seq<T>, at: nat, part: seq<T>, rest: seq<T>)
    requires at <= |all| && all[at..] == part + rest
    ensures at + |part| <= |all| && all[at + |part|..] == rest
    ensures forall j :: at <= j < at + |part| ==> all[j] == part[j - at]
  {
    assert |all[at..]| == |part| + |rest|;
    assert forall j :: at <= j < |all| ==> all[j] == all[at..][j - at];
  }

  /** Writes bytes at offset at. */
  method FillBlock(result: array<Byte>, at: nat, bytes: seq<Byte>)
    requires at + |bytes| <= result.Length
    modifies result
    ensures forall j :: 0 <= j < result.Length ==>
              result[j] == if at <= j < at + |bytes| then bytes[j - at] else old(result[j])
  {
    forall j | 0 <= j < |bytes| {
      result[at + j] := bytes[j];
    }
  }

  /** unpack: nothing for fewer than one sample, an exception for a wrong size, and
      otherwise a vector filled sample by sample. */
  method Unpack(host: Endian, width: nat, data: seq<Byte>, nSamples: int, swapBytes: bool)
      returns (result: Result<array<nat>, CodecError>)
    requires width > 0
    ensures nSamples < 1 ==> result.Ok? && result.value.Length == 0
    ensures nSamples >= 1 && width * nSamples != |data| ==> result == Err(UnexpectedDataSize)
    ensures nSamples >= 1 && width * nSamples == |data| ==>
              result.Ok? && result.value[..] == Unpacked(host, width, data, swapBytes)
  {
    if nSamples < 1 {
      var none := new nat[0];
      return Ok(none);
    }
    if width * nSamples != |data| {
      return Err(UnexpectedDataSize);
    }
    var samples := new nat[nSamples](_ => 0);
    UnpackedLength(host, width, data, nSamples, swapBytes);
    UnpackInto(Decoder(host, swapBytes), width, data, samples);
    result := Ok(samples);
  }

  /** The loop of unpack. */
  method UnpackInto(decode: seq<Byte> -> nat, width: nat, data: seq<Byte>, samples: array<nat>)
    requires width > 0 && samples.Length == |Decoded(decode, width, data)|
    modifies samples
    ensures samples[..] == Decoded(decode, width, data)
  {
    ghost var all := Decoded(decode, width, data);
    ghost var rest := data;
    var at := 0;
    for i := 0 to samples.Length
      invariant 0 <= at <= |data| && rest == data[at..] && all[i..] == Decoded(decode, width, rest)
      invariant forall j :: 0 <= j < i ==> samples[j] == all[j]
    {
      UnpackTurn(decode, width, rest, all, i);
      assert data[at..at + width] == rest[..width];
      samples[i] := decode(data[at..at + width]);
      rest := rest[width..];
      at := at + width;
    }
  }

  /** The next sample comes from the next bytes. */
  lemma UnpackTurn(decode: seq<Byte> -> nat, width: nat, rest: seq<Byte>, all: seq<nat>, i: nat)
    requires width > 0 && i < |all| && all[i..] == Decoded(decode, width, rest)
    ensures width <= |rest| && all[i] == decode(rest[..width])
    ensures all[i + 1..] == Decoded(decode, width, rest[width..])
  {
    NextPart(all, i, [decode(rest[..width])], Decoded(decode, width, rest[width..]));
  }

  // ----- Round trip and byte order -----

  lemma {:induction false} LittleRoundTrip(width: nat, v: nat)
    requires v < Pow256(width)
    ensures FromLittle(LittleBytes(width, v)) == v
  {
    if width > 0 {
      LittleRoundTrip(width - 1, v / 256);
      assert LittleBytes(width, v)[1..] == LittleBytes(width - 1, v / 256);
    }
  }

  lemma ReversedTwice(b: seq<Byte>)
    ensures Reversed(Reversed(b)) == b
  {
  }

  lemma ImageRoundTrip(host: Endian, width: nat, v: nat, swapBytes: bool)
    requires v < Pow256(width)
    ensures FromImage(host, Copied(Copied(Image(host, width, v), swapBytes), swapBytes)) == v
  {
    LittleRoundTrip(width, v);
    ReversedTwice(LittleBytes(width, v));
    ReversedTwice(Image(host, width, v));
  }

  /** Unpacking what was packed gives the samples back, in exactly width bytes
      each, whatever the host, the width and the swap flag. */
  lemma UnpackInvertsPack(host: Endian, width: nat, samples: seq<nat>, swapBytes: bool)
    requires width > 0 && forall i :: 0 <= i < |samples| ==> samples[i] < Pow256(width)
    ensures |Packed(host, width, samples, swapBytes)| == width * |samples|
    ensures Unpacked(host, width, Packed(host, width, samples, swapBytes), swapBytes) == samples
  {
    PackedLength(host, width, samples, swapBytes);
    forall v: nat | v < Pow256(width)
      ensures Decoder(host, swapBytes)(Encoder(host, width, swapBytes)(v)) == v
    {
      ImageRoundTrip(host, width, v, swapBytes);
    }
    DecodedInvertsBlocks(Encoder(host, width, swapBytes), Decoder(host, swapBytes), width, samples);
  }

  lemma {:induction false} DecodedInvertsBlocks(encode: nat -> seq<Byte>, decode: seq<Byte> -> nat, width: nat, samples: seq<nat>)
    requires width > 0 && Encodes(encode, width)
    requires forall i :: 0 <= i < |samples| ==> decode(encode(samples[i])) == samples[i]
    ensures Decoded(decode, width, Blocks(encode, samples)) == samples
  {
    if samples != [] {
      var head, tail := encode(samples[0]), Blocks(encode, samples[1..]);
      DecodedInvertsBlocks(encode, decode, width, samples[1..]);
      assert (head + tail)[..width] == head && (head + tail)[width..] == tail;
      assert samples == [samples[0]] + samples[1..];
    }
  }

  lemma {:induction false} BytesRoundTrip(b: seq<Byte>)
    ensures FromLittle(b) < Pow256(|b|)
    ensures LittleBytes(|b|, FromLittle(b)) == b
  {
    if b != [] {
      BytesRoundTrip(b[1..]);
    }
  }

  lemma BytesThroughHost(host: Endian, b: seq<Byte>, swapBytes: bool)
    ensures var v := FromImage(host, Copied(b, swapBytes));
      v < Pow256(|b|) && Copied(Image(host, |b|, v), swapBytes) == b
  {
    var image := Copied(b, swapBytes);
    BytesRoundTrip(if host.Little? then image else Reversed(image));
    ReversedTwice(b);
    ReversedTwice(image);
  }

  /** Conversely, packing what was unpacked from whole samples' worth of bytes gives
      these bytes back: unpack loses nothing, and every pattern it yields fits. */
  lemma PackInvertsUnpack(host: Endian, width: nat, data: seq<Byte>, n: nat, swapBytes: bool)
    requires width > 0 && |data| == width * n
    ensures Packed(host, width, Unpacked(host, width, data, swapBytes), swapBytes) == data
    ensures AllBelow(Unpacked(host, width, data, swapBytes), Pow256(width))
  {
    forall b: seq<Byte> | |b| == width
      ensures Decoder(host, swapBytes)(b) < Pow256(width) && Encoder(host, width, swapBytes)(Decoder(host, swapBytes)(b)) == b
    {
      BytesThroughHost(host, b, swapBytes);
    }
    BlocksInvertDecoded(Encoder(host, width, swapBytes), Decoder(host, swapBytes), width, data, n);
  }

  lemma {:induction false} BlocksInvertDecoded(encode: nat -> seq<Byte>, decode: seq<Byte> -> nat, width: nat, data: seq<Byte>, n: nat)
    requires width > 0 && |data| == width * n
    requires forall b: seq<Byte> :: |b| == width ==> decode(b) < Pow256(width) && encode(decode(b)) == b
    ensures Blocks(encode, Decoded(decode, width, data)) == data && AllBelow(Decoded(decode, width, data), Pow256(width))
    decreases n
  {
    if n == 0 {
      assert |data| == 0;
    } else {
      NextBlock(width, n);
      BlocksInvertDecoded(encode, decode, width, data[width..], n - 1);
      assert data == data[..width] + data[width..];
      assert Decoded(decode, width, data)[1..] == Decoded(decode, width, data[width..]);
    }
  }

  ghost predicate AllBelow(samples: seq<nat>, bound: nat) {
    forall i :: 0 <= i < |samples| ==> samples[i] < bound
  }

  lemma {:induction false} LittleByte(width: nat, v: nat, k: nat)
    requires k < width
    ensures LittleBytes(width, v)[k] == v / Pow256(k) % 256
  {
    if k > 0 {
      LittleByte(width - 1, v / 256, k - 1);
      DividedTwice(v, 256, Pow256(k - 1));
    }
  }

  /** Byte k of the i-th sample stored by a little-endian host that copies, and by a
      big-endian one that swaps, is the k-th least significant byte of the sample, as
      the packet format promises; a big-endian host that copied would store it the
      other way round. */
  lemma {:induction false} PackedIsLittleEndian(width: nat, samples: seq<nat>, i: nat, k: nat)
    requires i < |samples| && k < width
    ensures 0 <= width * i + k < width * |samples|
    ensures |Packed(Little, width, samples, false)| == |Packed(Big, width, samples, true)| == width * |samples|
    ensures Packed(Little, width, samples, false)[width * i + k] == samples[i] / Pow256(k) % 256
    ensures Packed(Big, width, samples, true)[width * i + k] == samples[i] / Pow256(k) % 256
    ensures |Packed(Big, width, samples, false)| == width * |samples|
    ensures Packed(Big, width, samples, false)[width * i + k] == samples[i] / Pow256(width - 1 - k) % 256
  {
    PackedLength(Little, width, samples, false);
    PackedLength(Big, width, samples, true);
    PackedLength(Big, width, samples, false);
    ReversedTwice(LittleBytes(width, samples[i]));
    LittleByte(width, samples[i], k);
    LittleByte(width, samples[i], width - 1 - k);
    BlocksAt(Encoder(Little, width, false), width, samples, i, k);
    BlocksAt(Encoder(Big, width, true), width, samples, i, k);
    BlocksAt(Encoder(Big, width, false), width, samples, i, k);
  }

  lemma {:induction false} BlocksAt(encode: nat -> seq<Byte>, width: nat, samples: seq<nat>, i: nat, k: nat)
    requires Encodes(encode, width) && i < |samples| && k < width
    ensures 0 <= width * i + k < width * |samples| == |Blocks(encode, samples)|
    ensures Blocks(encode, samples)[width * i + k] == encode(samples[i])[k]
  {
    BlocksLength(encode, width, samples);
    NextBlock(width, |samples|);
    if i > 0 {
      BlocksAt(encode, width, samples[1..], i - 1, k);
      NextBlock(width, i);
    }
  }

  // ----- Sum and sum of squares -----

  datatype Format = Int32 | Int64 | Float | Double {
    function Width(): nat {
      if Int32? || Float? then 4 else 8
    }
  }

  /** The host's floating point: rounding to double and to float, and what float
      and double patterns stand for. */
  datatype Arithmetic = Arithmetic(round: real -> real, roundFloat: real -> real, float: nat -> real, double: nat -> real)

  datatype Sums = Sums(sum: real, sumSquared: real)

  /** Two's complement. */
  function Signed(width: nat, bits: nat): int {
    if 2 * bits < Pow256(width) then bits else bits - Pow256(width)
  }

  /** The values of the signed type of width bytes. */
  predicate InRange(width: nat, v: int) {
    var p: int := Pow256(width);
    -p <= 2 * v < p
  }

  function PatternOf(width: nat, v: int): (bits: nat)
    ensures bits == v % Pow256(width) < Pow256(width)
  {
    v % Pow256(width)
  }

  /** How such a type stores integers. */
  function PatternsOf(width: nat, xs: seq<int>): (samples: seq<nat>)
    ensures |samples| == |xs|
    ensures forall i :: 0 <= i < |xs| ==> samples[i] == xs[i] % Pow256(width) < Pow256(width)
  {
    seq(|xs|, i requires 0 <= i < |xs| => PatternOf(width, xs[i]))
  }

  lemma SignedOfPattern(width: nat, v: int)
    requires InRange(width, v)
    ensures Signed(width, v % Pow256(width)) == v
  {
    var p := Pow256(width);
    if v >= 0 {
      QuotientIsUnique(v, p, 0, v);
    } else {
      QuotientIsUnique(v, p, -1, v + p);
    }
  }

  /** Two integers of the type with one pattern are equal. */
  lemma OnlyOneInteger(width: nat, v: int, w: int)
    requires InRange(width, v) && InRange(width, w) && v % Pow256(width) == w % Pow256(width)
    ensures v == w
  {
    SignedOfPattern(width, v);
    SignedOfPattern(width, w);
  }

  lemma EveryPatternIsUsed(width: nat, bits: nat)
    requires width > 0 && bits < Pow256(width)
    ensures InRange(width, Signed(width, bits)) && Signed(width, bits) % Pow256(width) == bits
  {
    var p, v := Pow256(width), Signed(width, bits);
    assert p == 256 * Pow256(width - 1);
    if 2 * bits < p {
      QuotientIsUnique(v, p, 0, bits);
    } else {
      QuotientIsUnique(v, p, -1, bits);
    }
  }

  /** Every pattern stands for one integer of the type: the only one in its range that
      is congruent to it.  As a sample it counts as this integer, converted to
      double. */
  lemma PatternMeansInteger(a: Arithmetic, format: Format, bits: nat) returns (v: int)
    requires (format.Int32? || format.Int64?) && bits < Pow256(format.Width())
    ensures InRange(format.Width(), v) && v % Pow256(format.Width()) == bits
    ensures forall w :: InRange(format.Width(), w) && w % Pow256(format.Width()) == bits ==> w == v
    ensures SampleValue(a, format, bits) == if format.Int32? then v as real else a.round(v as real)
  {
    var width := format.Width();
    EveryPatternIsUsed(width, bits);
    v := Signed(width, bits);
    forall w | InRange(width, w) && w % Pow256(width) == bits ensures w == v {
      OnlyOneInteger(width, v, w);
    }
  }

  function MaxSigned(width: nat): int {
    (Pow256(width) - 1) / 2
  }

  /** A sample as a double. */
  function SampleValue(a: Arithmetic, format: Format, bits: nat): real {
    match format
    case Int32 => Signed(4, bits) as real
    case Int64 => a.round(Signed(8, bits) as real)
    case Float => a.float(bits)
    case Double => a.double(bits)
  }

  /** value*value is computed in the sample's own type, so for integers whose square
      that type cannot hold the source's behaviour is undefined. */
  predicate SquareDefined(format: Format, bits: nat) {
    (format.Int32? || format.Int64?) ==>
      Signed(format.Width(), bits) * Signed(format.Width(), bits) <= MaxSigned(format.Width())
  }

  /** The product the source adds to the sum of squares: formed and rounded in the
      sample's own type, then converted. */
  function SampleSquare(a: Arithmetic, format: Format, bits: nat): real {
    match format
    case Int32 => (Signed(4, bits) * Signed(4, bits)) as real
    case Int64 => a.round((Signed(8, bits) * Signed(8, bits)) as real)
    case Float => a.roundFloat(Square(a.float(bits)))
    case Double => a.round(Square(a.double(bits)))
  }

  function Add(a: Arithmetic, format: Format, acc: Sums, bits: nat): Sums {
    Sums(a.round(acc.sum + SampleValue(a, format, bits)), a.round(acc.sumSquared + SampleSquare(a, format, bits)))
  }

  /** Folding sum and sum of squares over samples already unpacked. */
  function Folded(a: Arithmetic, format: Format, acc: Sums, samples: seq<nat>): Result<Sums, CodecError>
    decreases |samples|
  {
    if samples == [] then Ok(acc)
    else if !SquareDefined(format, samples[0]) then Err(SignedOverflow)
    else Folded(a, format, Add(a, format, acc, samples[0]), samples[1..])
  }

  /** computeSumAndSumSquared<T>: decodes and accumulates in one loop.  It computes
      what unpacking first and folding afterwards would. */
  method ComputeSumAndSumSquared(host: Endian, a: Arithmetic, format: Format, data: seq<Byte>, nSamples: int, swapBytes: bool)
      returns (result: Result<Sums, CodecError>)
    ensures nSamples < 1 ==> result == Ok(Sums(0.0, 0.0))
    ensures nSamples >= 1 && format.Width() * nSamples != |data| ==> result == Err(UnexpectedDataSize)
    ensures nSamples >= 1 && format.Width() * nSamples == |data| ==>
              result == Folded(a, format, Sums(0.0, 0.0), Unpacked(host, format.Width(), data, swapBytes))
  {
    var acc := Sums(0.0, 0.0);
    if nSamples < 1 {
      return Ok(acc);
    }
    var width := format.Width();
    if width * nSamples != |data| {
      return Err(UnexpectedDataSize);
    }
    UnpackedLength(host, width, data, nSamples, swapBytes);
    result := Accumulate(Decoder(host, swapBytes), a, format, width, data, nSamples);
  }

  /** The fused loop. */
  method Accumulate(decode: seq<Byte> -> nat, a: Arithmetic, format: Format, width: nat, data: seq<Byte>, nSamples: nat)
      returns (result: Result<Sums, CodecError>)
    requires width > 0 && |Decoded(decode, width, data)| == nSamples
    ensures result == Folded(a, format, Sums(0.0, 0.0), Decoded(decode, width, data))
  {
    var acc := Sums(0.0, 0.0);
    ghost var all := Decoded(decode, width, data);
    ghost var rest := data;
    assert all[0..] == all;
    var at := 0;
    for i := 0 to nSamples
      invariant 0 <= at <= |data| && rest == data[at..] && all[i..] == Decoded(decode, width, rest)
      invariant Folded(a, format, Sums(0.0, 0.0), all) == Folded(a, format, acc, all[i..])
    {
      UnpackTurn(decode, width, rest, all, i);
      assert data[at..at + width] == rest[..width];
      var bits := decode(data[at..at + width]);
      FoldedNext(a, format, acc, all, i);
      if !SquareDefined(format, bits) {
        return Err(SignedOverflow);
      }
      acc := Add(a, format, acc, bits);
      rest := rest[width..];
      at := at + width;
    }
    assert all[nSamples..] == [];
    result := Ok(acc);
  }

  /** Folding takes the first sample first. */
  lemma FoldedNext(a: Arithmetic, format: Format, acc: Sums, all: seq<nat>, i: nat)
    requires i < |all|
    ensures Folded(a, format, acc, all[i..])
            == if SquareDefined(format, all[i]) then Folded(a, format, Add(a, format, acc, all[i]), all[i + 1..])
               else Err(SignedOverflow)
  {
    assert all[i..][1..] == all[i + 1..];
  }

  // ----- When the double result is exact -----

  const TWO_TO_53: int := 9007199254740992
  const LARGEST_ROOT: int := 46340
  const LARGEST_ROOT_64: int := 3037000499

  /** Doubles hold every integer up to most; for a real double most is 2^53. */
  ghost predicate RoundsExactly(a: Arithmetic, most: int) {
    forall n: int :: Within(n, most) ==> a.round(n as real) == n as real
  }

  predicate Within(n: int, most: int) {
    -most <= n <= most
  }

  function Total(xs: seq<int>): int
    decreases |xs|
  {
    if xs == [] then 0 else Total(xs[..|xs| - 1]) + xs[|xs| - 1]
  }

  function TotalSquares(xs: seq<int>): int
    decreases |xs|
  {
    if xs == [] then 0 else TotalSquares(xs[..|xs| - 1]) + xs[|xs| - 1] * xs[|xs| - 1]
  }

  /** The largest magnitude whose square an integer type holds. */
  function LargestRoot(format: Format): int {
    if format.Int32? then LARGEST_ROOT else LARGEST_ROOT_64
  }

  /** The patterns of the integers up to the largest root in magnitude: those next to 0
      at either end. */
  predicate RootFits(format: Format, bits: nat) {
    bits <= LargestRoot(format) || Pow256(format.Width()) - LargestRoot(format) <= bits
  }

  ghost predicate RootsFit(format: Format, samples: seq<nat>) {
    forall i :: 0 <= i < |samples| ==> RootFits(format, samples[i])
  }

  lemma Pow256Values()
    ensures Pow256(4) == 4294967296 && Pow256(8) == 18446744073709551616
    ensures MaxSigned(4) == 2147483647 && MaxSigned(8) == 9223372036854775807
  {
    assert Pow256(4) == 256 * (256 * (256 * (256 * Pow256(0)))) == 4294967296;
    assert Pow256(8) == 256 * (256 * (256 * (256 * Pow256(4))));
  }

  /** The square of an integer sample is defined exactly up to the largest root:
      46340 for 32 bits, 3037000499 for 64. */
  lemma SquareDefinedIff(format: Format, v: int)
    requires (format.Int32? || format.Int64?) && InRange(format.Width(), v)
    ensures var root := if format.Int32? then 46340 else 3037000499; var bits := v % Pow256(format.Width());
      && (SquareDefined(format, bits) <==> -root <= v <= root)
      && (RootFits(format, bits) <==> -root <= v <= root)
  {
    Pow256Values();
    SignedOfPattern(format.Width(), v);
    PatternNearZero(format, v);
    RootIsLargest(v, LargestRoot(format));
    assert LARGEST_ROOT * LARGEST_ROOT == 2147395600 && (LARGEST_ROOT + 1) * (LARGEST_ROOT + 1) == 2147488281;
    assert LARGEST_ROOT_64 * LARGEST_ROOT_64 == 9223372030926249001;
    assert (LARGEST_ROOT_64 + 1) * (LARGEST_ROOT_64 + 1) == 9223372037000250000;
  }

  lemma PatternNearZero(format: Format, v: int)
    requires (format.Int32? || format.Int64?) && InRange(format.Width(), v)
    ensures RootFits(format, v % Pow256(format.Width())) <==> -LargestRoot(format) <= v <= LargestRoot(format)
  {
    var p := Pow256(format.Width());
    Pow256Values();
    QuotientIsUnique(v, p, if v >= 0 then 0 else -1, if v >= 0 then v else v + p);
  }

  lemma RootIsLargest(v: int, m: int)
    requires m >= 0
    ensures -m <= v <= m ==> v * v <= m * m
    ensures !(-m <= v <= m) ==> v * v >= (m + 1) * (m + 1)
  {
    if -m <= v <= m {
      SquareAtMost(v, m);
    } else {
      SquareAtLeast(v, m + 1);
    }
  }

  lemma NonNegativeProduct(x: int, y: int)
    requires x >= 0 && y >= 0
    ensures x * y >= 0
  {
  }

  lemma SquareAtMost(v: int, m: int)
    requires -m <= v <= m
    ensures 0 <= v * v <= m * m
  {
    NonNegativeProduct(m - v, m + v);
    assert (m - v) * (m + v) == m * m - v * v;
  }

  lemma SquareAtLeast(v: int, m: int)
    requires m >= 0 && (v <= -m || v >= m)
    ensures v * v >= m * m
  {
    var w := if v < 0 then -v else v;
    assert w * w == v * v;
    NonNegativeProduct(w - m, w + m);
    assert (w - m) * (w + m) == w * w - m * m;
  }

  /** The sums of integer samples are defined exactly when no sample exceeds the
      largest root in magnitude. */
  lemma {:induction false} FoldedDefinedIff(a: Arithmetic, format: Format, acc: Sums, samples: seq<nat>)
    requires (format.Int32? || format.Int64?) && AllBelow(samples, Pow256(format.Width()))
    ensures Folded(a, format, acc, samples).Ok? <==> RootsFit(format, samples)
    decreases |samples|
  {
    if samples != [] {
      var v := PatternMeansInteger(a, format, samples[0]);
      SquareDefinedIff(format, v);
      if RootFits(format, samples[0]) {
        FoldedDefinedIff(a, format, Add(a, format, acc, samples[0]), samples[1..]);
        RootsFitCons(format, samples);
      }
    }
  }

  lemma RootsFitCons(format: Format, samples: seq<nat>)
    requires samples != []
    ensures RootsFit(format, samples) <==> RootFits(format, samples[0]) && RootsFit(format, samples[1..])
  {
    assert forall i :: 1 <= i < |samples| ==> samples[i] == samples[1..][i - 1];
  }

  /** Folding one sample more: an error stays, and otherwise the sample is added. */
  lemma {:induction false} FoldedSnoc(a: Arithmetic, format: Format, acc: Sums, samples: seq<nat>, bits: nat)
    ensures Folded(a, format, acc, samples + [bits])
            == match Folded(a, format, acc, samples)
               case Ok(sums) => (if SquareDefined(format, bits) then Ok(Add(a, format, sums, bits)) else Err(SignedOverflow))
               case Err(e) => Err(e)
    decreases |samples|
  {
    if samples == [] {
      assert samples + [bits] == [bits];
      assert Folded(a, format, Add(a, format, acc, bits), []) == Ok(Add(a, format, acc, bits));
    } else {
      if SquareDefined(format, samples[0]) {
        FoldedSnoc(a, format, Add(a, format, acc, samples[0]), samples[1..], bits);
      }
      assert (samples + [bits])[1..] == samples[1..] + [bits];
    }
  }

  /** after is before with a value and a square added, each sum rounded to double. */
  predicate Adds(a: Arithmetic, before: Sums, after: Sums, value: real, square: real) {
    after.sum == a.round(before.sum + value) && after.sumSquared == a.round(before.sumSquared + square)
  }

  /** What one more integer v, stored in two's complement, does to the sums: it adds v and
      v * v if the type holds the square; otherwise, and after any earlier such sample,
      there are no sums. */
  lemma OneMoreInteger(a: Arithmetic, format: Format, samples: seq<nat>, v: int)
    requires (format.Int32? || format.Int64?) && InRange(format.Width(), v)
    ensures Folded(a, format, Sums(0.0, 0.0), []) == Ok(Sums(0.0, 0.0))
    ensures var root := if format.Int32? then 46340 else 3037000499;
      var before := Folded(a, format, Sums(0.0, 0.0), samples);
      var after := Folded(a, format, Sums(0.0, 0.0), samples + [v % Pow256(format.Width())]);
      && (before.Err? ==> after == before)
      && (before.Ok? && !(-root <= v <= root) ==> after == Err(SignedOverflow))
      && (before.Ok? && -root <= v <= root ==>
            after.Ok? && (if format.Int32? then Adds(a, before.value, after.value, v as real, (v * v) as real)
                          else Adds(a, before.value, after.value, a.round(v as real), a.round((v * v) as real))))
  {
    var bits := v % Pow256(format.Width());
    FoldedSnoc(a, format, Sums(0.0, 0.0), samples, bits);
    SampleOfInteger(a, format, v, bits);
  }

  lemma SampleOfInteger(a: Arithmetic, format: Format, v: int, bits: nat)
    requires (format.Int32? || format.Int64?) && InRange(format.Width(), v) && bits == v % Pow256(format.Width())
    ensures var root := if format.Int32? then 46340 else 3037000499;
      && (SquareDefined(format, bits) <==> -root <= v <= root)
      && SampleValue(a, format, bits) == (if format.Int32? then v as real else a.round(v as real))
      && SampleSquare(a, format, bits) == (if format.Int32? then (v * v) as real else a.round((v * v) as real))
  {
    SignedOfPattern(format.Width(), v);
    SquareDefinedIff(format, v);
  }

  /** A float or double adds its value and its square, rounded in its own type. */
  lemma OneMoreReal(a: Arithmetic, format: Format, samples: seq<nat>, bits: nat)
    requires format.Float? || format.Double?
    ensures Folded(a, format, Sums(0.0, 0.0), []) == Ok(Sums(0.0, 0.0))
    ensures var before := Folded(a, format, Sums(0.0, 0.0), samples);
      var after := Folded(a, format, Sums(0.0, 0.0), samples + [bits]);
      && (before.Err? ==> after == before)
      && (before.Ok? && format.Float? ==>
            after.Ok? && Adds(a, before.value, after.value, a.float(bits), a.roundFloat(Square(a.float(bits)))))
      && (before.Ok? && format.Double? ==>
            after.Ok? && Adds(a, before.value, after.value, a.double(bits), a.round(Square(a.double(bits)))))
  {
    FoldedSnoc(a, format, Sums(0.0, 0.0), samples, bits);
  }

  /** Integers up to root in magnitude, root having a square in their type: as long as
      root * root times their number does not exceed what doubles hold exactly, the
      double results are the exact sums. */
  lemma {:induction false} IntegerSumsAreExact(a: Arithmetic, format: Format, xs: seq<int>, root: int, most: int)
    requires 0 <= root <= if format.Int32? then 46340 else 3037000499
    requires format.Int32? || format.Int64?
    requires forall i :: 0 <= i < |xs| ==> -root <= xs[i] <= root
    requires RoundsExactly(a, most) && root <= most && (root * root) * |xs| <= most
    ensures -(root * |xs|) <= Total(xs) <= root * |xs| && 0 <= TotalSquares(xs) <= (root * root) * |xs|
    ensures Folded(a, format, Sums(0.0, 0.0), PatternsOf(format.Width(), xs))
            == Ok(Sums(Total(xs) as real, TotalSquares(xs) as real))
    decreases |xs|
  {
    if xs != [] {
      var n := |xs| - 1;
      var v := xs[n];
      OneRootMore(root, n, |xs|);
      IntegerSumsAreExact(a, format, xs[..n], root, most);
      SquareAtMost(v, root);
      OneRootFits(root, |xs|);
      assert PatternsOf(format.Width(), xs) == PatternsOf(format.Width(), xs[..n]) + [v % Pow256(format.Width())];
      OneMoreExact(a, format, PatternsOf(format.Width(), xs[..n]), v, v * v, Total(xs[..n]), TotalSquares(xs[..n]), most);
    }
  }

  lemma OneMoreExact(a: Arithmetic, format: Format, samples: seq<nat>, v: int, square: int, sum: int, sumSquared: int, most: int)
    requires format.Int32? || format.Int64?
    requires -(if format.Int32? then 46340 else 3037000499) <= v <= if format.Int32? then 46340 else 3037000499
    requires RoundsExactly(a, most) && square == v * v
    requires Within(v, most) && Within(square, most) && Within(sum + v, most) && Within(sumSquared + square, most)
    requires Folded(a, format, Sums(0.0, 0.0), samples) == Ok(Sums(sum as real, sumSquared as real))
    ensures InRange(format.Width(), v)
    ensures Folded(a, format, Sums(0.0, 0.0), samples + [v % Pow256(format.Width())])
            == Ok(Sums((sum + v) as real, (sumSquared + square) as real))
  {
    Pow256Values();
    OneMoreInteger(a, format, samples, v);
    RoundsAll(a, most, v, square, sum, sumSquared);
  }

  lemma OneRootMore(root: int, n: nat, m: nat)
    requires m == n + 1
    ensures root * m == root * n + root
    ensures (root * root) * m == (root * root) * n + root * root
  {
  }

  /** The root is no larger than its square. */
  lemma OneRootFits(root: nat, m: nat)
    requires m > 0
    ensures root * m <= (root * root) * m && root * root <= (root * root) * m
  {
    NonNegativeProduct(root, root);
    if root > 0 {
      NonNegativeProduct(root, root - 1);
      assert root * (root - 1) == root * root - root;
    }
    NonNegativeProduct(root * root - root, m);
    NonNegativeProduct(root * root, m - 1);
    assert (root * root - root) * m == (root * root) * m - root * m;
    assert (root * root) * (m - 1) == (root * root) * m - root * root;
  }

  lemma RoundsAll(a: Arithmetic, most: int, v: int, w: int, sum: int, sumSquared: int)
    requires RoundsExactly(a, most)
    requires Within(v, most) && Within(w, most) && Within(sum + v, most) && Within(sumSquared + w, most)
    ensures a.round(v as real) == v as real && a.round(w as real) == w as real
    ensures a.round(sum as real + v as real) == (sum + v) as real
    ensures a.round(sumSquared as real + w as real) == (sumSquared + w) as real
  {
    assert a.round((sum + v) as real) == (sum + v) as real;
    assert a.round((sumSquared + w) as real) == (sumSquared + w) as real;
  }

  /** Up to 46340 in magnitude and 4194471 samples (more than 2^22), every partial
      sum of 32-bit integers stays within 2^53 and the double results are the exact
      sums. */
  lemma FoldedIsExact(a: Arithmetic, xs: seq<int>)
    requires RoundsExactly(a, TWO_TO_53) && |xs| <= 4194471
    requires forall i :: 0 <= i < |xs| ==> -46340 <= xs[i] <= 46340
    ensures -TWO_TO_53 <= Total(xs) <= TWO_TO_53 && 0 <= TotalSquares(xs) <= TWO_TO_53
    ensures Folded(a, Int32, Sums(0.0, 0.0), PatternsOf(4, xs)) == Ok(Sums(Total(xs) as real, TotalSquares(xs) as real))
  {
    assert 46340 * 46340 == 2147395600;
    assert 2147395600 * |xs| <= TWO_TO_53;
    IntegerSumsAreExact(a, Int32, xs, 46340, TWO_TO_53);
  }
}
