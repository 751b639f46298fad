/** Records to packets: convert and the packet-level
  computeSumAndSumSquared of src/modules/packetConverter.cppm.
 */
module PacketConverter {
  import opened Wrappers
  import opened Division
  import opened Text
  import opened SampleCodec
  import opened RecordWalk

  datatype Identifier = Identifier(network: string, station: string, channel: string, locationCode: string)

  /** What convert reads of an MS3Record.  sid is the identifier ms_sid2nslc_n
      splits off, if it can. */
  datatype Record = Record(
    sampleRate: real,
    numSamples: int,
    startTime: int,
    sid: Option<Identifier>,
    sampleType: char,
    samples: seq<nat>)

  datatype DataType = Unknown | Integer32 | FloatSamples | DoubleSamples | TextSamples | Integer64 | Unrecognized(code: int)

  /** startTime is in nanoseconds, if the field is set. */
  datatype Packet = Packet(
    identifier: Identifier,
    startTime: Option<int>,
    sampleRate: real,
    dataType: DataType,
    numberOfSamples: int,
    data: seq<Byte>)

  datatype ConvertError = BadSamplingRate | NoSamples | BadIdentifier | EmptyNetwork | EmptyStation | EmptyChannel | BadSampleType

  /** Bytes per sample of a sample type. */
  function TypeWidth(sampleType: char): nat {
    if sampleType == 't' then 1 else if sampleType == 'd' then 8 else 4
  }

  /** libmseed unpacks as many samples as the record says, each of its type. */
  ghost predicate WellFormed(r: Record) {
    && r.numSamples == |r.samples|
    && (forall i :: 0 <= i < |r.samples| ==> r.samples[i] < Pow256(TypeWidth(r.sampleType)))
  }

  const TWO_TO_32: int := 0x1_0000_0000

  /** static_cast<int> of a 64-bit count. */
  function ToInt32(n: int): int {
    var low := n % TWO_TO_32;
    if low < TWO_TO_31 then low else low - TWO_TO_32
  }

  /** The only 32-bit number congruent to n; so counts that fit are kept, and no count
      grows. */
  lemma TruncationShrinks(n: nat)
    ensures -TWO_TO_31 <= ToInt32(n) < TWO_TO_31 && (n - ToInt32(n)) % TWO_TO_32 == 0
    ensures ToInt32(n) <= n && (n < TWO_TO_31 ==> ToInt32(n) == n)
  {
    var low := n % TWO_TO_32;
    assert n - low == TWO_TO_32 * (n / TWO_TO_32);
    if low < TWO_TO_31 {
      QuotientIsUnique(n - ToInt32(n), TWO_TO_32, n / TWO_TO_32, 0);
    } else {
      QuotientIsUnique(n - ToInt32(n), TWO_TO_32, n / TWO_TO_32 + 1, 0);
    }
  }

  /** The SNCL part of convert. */
  function CleanIdentifier(sid: Option<Identifier>): Result<Identifier, ConvertError> {
    if sid.None? then Err(BadIdentifier)
    else
      var network, station, channel := Trim(sid.value.network), Trim(sid.value.station), Trim(sid.value.channel);
      var locationCode := ToUpper(Trim(sid.value.locationCode));
      if network == [] then Err(EmptyNetwork)
      else if station == [] then Err(EmptyStation)
      else if channel == [] then Err(EmptyChannel)
      else Ok(Identifier(ToUpper(network), ToUpper(station), ToUpper(channel),
                         if locationCode == [] then "--" else locationCode))
  }

  /** The first n samples; the library always has that many. */
  function FirstSamples(r: Record, n: nat): seq<nat> {
    if n <= |r.samples| then r.samples[..n] else r.samples
  }

  function TextBytes(samples: seq<nat>): (b: seq<Byte>)
    ensures |b| == |samples|
  {
    seq(|samples|, i requires 0 <= i < |samples| => samples[i] % 256)
  }

  /** The data part of convert. */
  function ConvertedData(host: Endian, r: Record, n: nat, swapBytes: bool): Result<(DataType, seq<Byte>), ConvertError> {
    match r.sampleType
    case 'i' => Ok((Integer32, Packed(host, 4, FirstSamples(r, n), swapBytes)))
    case 'f' => Ok((FloatSamples, Packed(host, 4, FirstSamples(r, n), swapBytes)))
    case 'd' => Ok((DoubleSamples, Packed(host, 8, FirstSamples(r, n), swapBytes)))
    case 't' => Ok((TextSamples, TextBytes(FirstSamples(r, n))))
    case _ => Err(BadSampleType)
  }

  /** convert, in the order of its checks. */
  function Convert(host: Endian, r: Record, swapBytes: bool): Result<Packet, ConvertError> {
    var nSamples := ToInt32(r.numSamples);
    if r.sampleRate <= 0.0 then Err(BadSamplingRate)
    else if nSamples <= 0 then Err(NoSamples)
    else
      var identifier := CleanIdentifier(r.sid);
      if identifier.Err? then Err(identifier.error)
      else
        var data := ConvertedData(host, r, nSamples, swapBytes);
        if data.Err? then Err(data.error)
        else Ok(Packet(identifier.value, Some(r.startTime), r.sampleRate, data.value.0, nSamples, data.value.1))
  }

  // ----- Packet sums -----

  datatype SumsError = CodecFailed(error: CodecError) | UnhandledDataType

  /** The sample format of a numeric data type. */
  function FormatOf(dataType: DataType): Option<Format> {
    match dataType
    case Integer32 => Some(Int32)
    case Integer64 => Some(Int64)
    case FloatSamples => Some(Float)
    case DoubleSamples => Some(Double)
    case _ => None
  }

  /** The size check of computeSumAndSumSquared. */
  predicate SizeFits(p: Packet) {
    FormatOf(p.dataType).Some? && p.numberOfSamples >= 1 ==>
      FormatOf(p.dataType).value.Width() * p.numberOfSamples == |p.data|
  }

  /** The bit patterns of a numeric packet's samples. */
  function Patterns(host: Endian, p: Packet, swapBytes: bool): seq<nat> {
    if FormatOf(p.dataType).None? then [] else Unpacked(host, FormatOf(p.dataType).value.Width(), p.data, swapBytes)
  }

  lemma PatternsLength(host: Endian, p: Packet, swapBytes: bool)
    requires FormatOf(p.dataType).Some? && p.numberOfSamples >= 1 && SizeFits(p)
    ensures |Patterns(host, p, swapBytes)| == p.numberOfSamples
  {
    UnpackedLength(host, FormatOf(p.dataType).value.Width(), p.data, p.numberOfSamples, swapBytes);
  }

  /** What computeSumAndSumSquared makes of a packet: text and unknown samples count
      as zeros. */
  function PacketSums(host: Endian, a: Arithmetic, p: Packet, swapBytes: bool): Result<Sums, SumsError> {
    var format := FormatOf(p.dataType);
    if p.dataType.Unrecognized? then Err(UnhandledDataType)
    else if format.None? || p.numberOfSamples < 1 then Ok(Sums(0.0, 0.0))
    else if !SizeFits(p) then Err(CodecFailed(UnexpectedDataSize))
    else
      match Folded(a, format.value, Sums(0.0, 0.0), Patterns(host, p, swapBytes))
      case Ok(sums) => Ok(sums)
      case Err(e) => Err(CodecFailed(e))
  }

  method ComputePacketSums(host: Endian, a: Arithmetic, p: Packet, swapBytes: bool) returns (result: Result<Sums, SumsError>)
    ensures result == PacketSums(host, a, p, swapBytes)
  {
    var format := FormatOf(p.dataType);
    if format.Some? {
      var sums := ComputeSumAndSumSquared(host, a, format.value, p.data, p.numberOfSamples, swapBytes);
      result := match sums case Ok(v) => Ok(v) case Err(e) => Err(CodecFailed(e));
    } else if p.dataType.TextSamples? || p.dataType.Unknown? {
      result := Ok(Sums(0.0, 0.0));
    } else {
      result := Err(UnhandledDataType);
    }
  }

  /** A field of the identifier counts as empty if it has nothing but blanks. */
  ghost predicate Blank(field: string) {
    forall i :: 0 <= i < |field| ==> IsSpace(field[i])
  }

  /** Which exception convert throws, and exactly when it throws none: the checks in their
      order. */
  lemma ConvertFails(host: Endian, r: Record, swapBytes: bool)
    requires WellFormed(r)
    ensures Convert(host, r, swapBytes).Err? ==>
              Convert(host, r, swapBytes).error
              == if r.sampleRate <= 0.0 then BadSamplingRate
                 else if ToInt32(|r.samples|) <= 0 then NoSamples
                 else if r.sid.None? then BadIdentifier
                 else if Blank(r.sid.value.network) then EmptyNetwork
                 else if Blank(r.sid.value.station) then EmptyStation
                 else if Blank(r.sid.value.channel) then EmptyChannel
                 else BadSampleType
    ensures Convert(host, r, swapBytes).Ok? <==>
              && r.sampleRate > 0.0 && ToInt32(|r.samples|) > 0 && r.sid.Some?
              && !Blank(r.sid.value.network) && !Blank(r.sid.value.station) && !Blank(r.sid.value.channel)
              && (r.sampleType == 'i' || r.sampleType == 'f' || r.sampleType == 'd' || r.sampleType == 't')
  {
    if r.sid.Some? {
      TrimCleans(r.sid.value.network);
      TrimCleans(r.sid.value.station);
      TrimCleans(r.sid.value.channel);
    }
  }

  /** cleaned is the given field without blanks at its ends, in upper case. */
  ghost predicate Cleaned(field: string, cleaned: string) {
    exists i, j :: CutAt(field, i, j) && cleaned == ToUpper(field[i..j])
  }

  /** All blanks at the ends of a field, and nothing else, lie before i or from j on. */
  ghost predicate CutAt(field: string, i: int, j: int) {
    && 0 <= i <= j <= |field|
    && (forall k :: 0 <= k < i || j <= k < |field| ==> IsSpace(field[k]))
    && (i < j ==> !IsSpace(field[i]) && !IsSpace(field[j - 1]))
  }

  lemma TrimCleans(field: string)
    ensures Cleaned(field, ToUpper(Trim(field)))
    ensures Trim(field) == [] <==> Blank(field)
  {
    var i, j := TrimCuts(field);
    assert CutAt(field, i, j);
  }

  /** id has the fields of sid, cut at their ends and in upper case, with -- for a blank
      location. */
  ghost predicate IdentifierOf(sid: Identifier, id: Identifier) {
    && Cleaned(sid.network, id.network) && Cleaned(sid.station, id.station) && Cleaned(sid.channel, id.channel)
    && (if Blank(sid.locationCode) then id.locationCode == "--" else Cleaned(sid.locationCode, id.locationCode))
    && id.network != [] && id.station != [] && id.channel != [] && id.locationCode != []
  }

  lemma IdentifierIsCleaned(sid: Identifier)
    requires CleanIdentifier(Some(sid)).Ok?
    ensures IdentifierOf(sid, CleanIdentifier(Some(sid)).value)
  {
    TrimCleans(sid.network);
    TrimCleans(sid.station);
    TrimCleans(sid.channel);
    TrimCleans(sid.locationCode);
  }

  /** The fields of a converted packet are those of the record. */
  lemma ConvertedFields(host: Endian, r: Record, swapBytes: bool)
    requires Convert(host, r, swapBytes).Ok?
    ensures var p := Convert(host, r, swapBytes).value;
      && p.numberOfSamples == ToInt32(r.numSamples) >= 1
      && p.sampleRate == r.sampleRate > 0.0 && p.startTime == Some(r.startTime)
      && r.sid.Some? && IdentifierOf(r.sid.value, p.identifier)
      && ConvertedData(host, r, p.numberOfSamples, swapBytes) == Ok((p.dataType, p.data))
  {
    IdentifierIsCleaned(r.sid.value);
  }

  lemma ConvertedDataFits(host: Endian, r: Record, n: nat, swapBytes: bool)
    requires n <= |r.samples| && ConvertedData(host, r, n, swapBytes).Ok?
    ensures var (dataType, data) := ConvertedData(host, r, n, swapBytes).value;
      && |data| == TypeWidth(r.sampleType) * n && TypeOf(r.sampleType) == Some(dataType)
      && (FormatOf(dataType).Some? ==> FormatOf(dataType).value.Width() == TypeWidth(r.sampleType))
  {
    PackedLength(host, TypeWidth(r.sampleType), r.samples[..n], swapBytes);
  }

  /** The data type that goes with a sample type of libmseed. */
  function TypeOf(sampleType: char): Option<DataType> {
    if sampleType == 'i' then Some(Integer32)
    else if sampleType == 'f' then Some(FloatSamples)
    else if sampleType == 'd' then Some(DoubleSamples)
    else if sampleType == 't' then Some(TextSamples)
    else None
  }

  /** Every packet convert builds holds exactly as many bytes as its samples need
      and names its stream, so neither the size check of unpack and
      computeSumAndSumSquared nor their type check ever fails on it: the only way
      its sums can go wrong is an integer sample whose square overflows. */
  lemma ConvertedPacketsFit(host: Endian, a: Arithmetic, r: Record, swapBytes: bool)
    requires WellFormed(r) && Convert(host, r, swapBytes).Ok?
    ensures var p := Convert(host, r, swapBytes).value;
      && p.numberOfSamples >= 1 && p.sampleRate > 0.0 && p.startTime == Some(r.startTime)
      && |p.data| == (if r.sampleType == 't' then 1 else if r.sampleType == 'd' then 8 else 4) * p.numberOfSamples && SizeFits(p)
      && (p.dataType == Integer32 <==> r.sampleType == 'i') && (p.dataType == FloatSamples <==> r.sampleType == 'f')
      && (p.dataType == DoubleSamples <==> r.sampleType == 'd') && (p.dataType == TextSamples <==> r.sampleType == 't')
      && p.identifier.network != [] && p.identifier.station != [] && p.identifier.channel != []
      && (PacketSums(host, a, p, swapBytes).Err? ==>
            r.sampleType == 'i' && PacketSums(host, a, p, swapBytes).error == CodecFailed(SignedOverflow))
  {
    var p := Convert(host, r, swapBytes).value;
    TruncationShrinks(r.numSamples);
    ConvertedFields(host, r, swapBytes);
    ConvertedDataFits(host, r, p.numberOfSamples, swapBytes);
    if PacketSums(host, a, p, swapBytes).Err? {
      SumsErrors(host, a, p, swapBytes);
    }
  }

  /** Why the sums of a packet of the right size can fail. */
  lemma SumsErrors(host: Endian, a: Arithmetic, p: Packet, swapBytes: bool)
    requires SizeFits(p) && !p.dataType.Unrecognized? && PacketSums(host, a, p, swapBytes).Err?
    ensures (p.dataType == Integer32 || p.dataType == Integer64)
    ensures PacketSums(host, a, p, swapBytes).error == CodecFailed(SignedOverflow)
  {
    FoldedErrors(a, FormatOf(p.dataType).value, Sums(0.0, 0.0), Patterns(host, p, swapBytes));
  }

  lemma {:induction false} FoldedErrors(a: Arithmetic, format: Format, acc: Sums, samples: seq<nat>)
    ensures Folded(a, format, acc, samples).Err? ==>
              (format.Int32? || format.Int64?) && Folded(a, format, acc, samples).error == SignedOverflow
    decreases |samples|
  {
    if samples != [] && SquareDefined(format, samples[0]) {
      FoldedErrors(a, format, Add(a, format, acc, samples[0]), samples[1..]);
    }
  }

  /** The receiver unpacks from a converted packet the samples of the record, all of
      them if their number fits 32 bits; text comes as it was. */
  lemma ConvertedSamplesSurvive(host: Endian, r: Record, swapBytes: bool)
    requires WellFormed(r) && Convert(host, r, swapBytes).Ok?
    ensures var p := Convert(host, r, swapBytes).value;
      && 0 <= p.numberOfSamples <= |r.samples| && (|r.samples| < TWO_TO_31 ==> p.numberOfSamples == |r.samples|)
      && (if r.sampleType == 't' then p.data == r.samples[..p.numberOfSamples]
          else Unpacked(host, TypeWidth(r.sampleType), p.data, swapBytes) == r.samples[..p.numberOfSamples])
  {
    var p := Convert(host, r, swapBytes).value;
    TruncationShrinks(r.numSamples);
    if r.sampleType == 't' {
      TextSurvives(r.samples[..p.numberOfSamples]);
    } else {
      UnpackInvertsPack(host, TypeWidth(r.sampleType), r.samples[..p.numberOfSamples], swapBytes);
    }
  }

  lemma TextSurvives(samples: seq<nat>)
    requires AllBelow(samples, Pow256(1))
    ensures TextBytes(samples) == samples
  {
    assert Pow256(1) == 256 * Pow256(0) == 256;
  }

  // ----- Packets out of a buffer -----

  /** convert as the record walk sees it. */
  function Converting(host: Endian, swapBytes: bool): Converter<Record, Packet> {
    r => match Convert(host, r, swapBytes) case Ok(p) => Some(p) case Err(_) => None
  }

  /** What every packet of the pipeline satisfies. */
  ghost predicate Carried(host: Endian, a: Arithmetic, p: Packet, swapBytes: bool) {
    && p.numberOfSamples >= 1 && p.sampleRate > 0.0 && p.startTime.Some? && SizeFits(p)
    && p.identifier.network != [] && p.identifier.station != [] && p.identifier.channel != []
    && (PacketSums(host, a, p, swapBytes).Err? ==> PacketSums(host, a, p, swapBytes).error == CodecFailed(SignedOverflow))
  }

  ghost predicate AllCarried(host: Endian, a: Arithmetic, packets: seq<Packet>, swapBytes: bool) {
    forall i :: 0 <= i < |packets| ==> Carried(host, a, packets[i], swapBytes)
  }

  /** Every packet miniSEEDToPackets makes of a buffer fits its data type and names
      its stream. */
  lemma {:induction false} WalkedPacketsFit(host: Endian, a: Arithmetic, visits: seq<Visit<Record>>, swapBytes: bool)
    requires forall i :: 0 <= i < |visits| ==> WellFormed(visits[i].record)
    ensures AllCarried(host, a, Packets(Converting(host, swapBytes), visits), swapBytes)
  {
    if visits != [] {
      WalkedPacketsFit(host, a, visits[1..], swapBytes);
      var r := visits[0].record;
      if Converting(host, swapBytes)(r).Some? {
        ConvertedIsCarried(host, a, r, swapBytes);
      }
      CarriedCons(host, a, Converting(host, swapBytes)(r), Packets(Converting(host, swapBytes), visits[1..]), swapBytes);
    }
  }

  lemma CarriedCons(host: Endian, a: Arithmetic, packet: Option<Packet>, rest: seq<Packet>, swapBytes: bool)
    requires AllCarried(host, a, rest, swapBytes)
    requires packet.Some? ==> Carried(host, a, packet.value, swapBytes)
    ensures AllCarried(host, a, (if packet.Some? then [packet.value] else []) + rest, swapBytes)
  {
    var all := (if packet.Some? then [packet.value] else []) + rest;
    forall i | 0 <= i < |all| ensures Carried(host, a, all[i], swapBytes) {
      if packet.Some? && i == 0 {
        assert all[i] == packet.value;
      } else {
        assert all[i] == rest[if packet.Some? then i - 1 else i];
      }
    }
  }

  lemma ConvertedIsCarried(host: Endian, a: Arithmetic, r: Record, swapBytes: bool)
    requires WellFormed(r) && Converting(host, swapBytes)(r).Some?
    ensures Carried(host, a, Converting(host, swapBytes)(r).value, swapBytes)
  {
    ConvertedPacketsFit(host, a, r, swapBytes);
  }

  // ----- When the sums are defined -----

  /** The sums of a packet of the right size are computed if its samples are floating
      point or no numbers at all; and if they are integers, exactly when every
      sample's square fits the sample type. */
  lemma SumsComputedIff(host: Endian, a: Arithmetic, p: Packet, swapBytes: bool)
    requires SizeFits(p) && !p.dataType.Unrecognized? && p.numberOfSamples >= 1
    ensures p.dataType == Integer32 || p.dataType == Integer64 ==>
              (PacketSums(host, a, p, swapBytes).Ok?
               <==> RootsFit(if p.dataType == Integer32 then Int32 else Int64, Patterns(host, p, swapBytes)))
    ensures p.dataType != Integer32 && p.dataType != Integer64 ==> PacketSums(host, a, p, swapBytes).Ok?
  {
    if p.dataType == Integer32 || p.dataType == Integer64 {
      PackInvertsUnpack(host, FormatOf(p.dataType).value.Width(), p.data, p.numberOfSamples, swapBytes);
      FoldedDefinedIff(a, FormatOf(p.dataType).value, Sums(0.0, 0.0), Patterns(host, p, swapBytes));
    } else if PacketSums(host, a, p, swapBytes).Err? {
      SumsErrors(host, a, p, swapBytes);
    }
  }

  /** The sums of a packet converted from integer samples are computed exactly when
      the square of every sample taken from the record is defined. */
  lemma ConvertedSumsIff(host: Endian, a: Arithmetic, r: Record, swapBytes: bool)
    requires WellFormed(r) && Convert(host, r, swapBytes).Ok? && r.sampleType == 'i'
    ensures var p := Convert(host, r, swapBytes).value;
      && 0 <= p.numberOfSamples <= |r.samples|
      && (PacketSums(host, a, p, swapBytes).Ok? <==> RootsFit(Int32, r.samples[..p.numberOfSamples]))
  {
    var p := Convert(host, r, swapBytes).value;
    ConvertedPacketsFit(host, a, r, swapBytes);
    ConvertedFields(host, r, swapBytes);
    ConvertedSamplesSurvive(host, r, swapBytes);
    SumsComputedIff(host, a, p, swapBytes);
  }

  /** The sums of a packet converted from 32-bit integers up to 46340 in magnitude, as
      many as doubles can add up exactly (2147395600 is 46340 squared), are those of
      the integers and of their squares. */
  lemma ConvertedIntegerSums(host: Endian, a: Arithmetic, r: Record, swapBytes: bool, xs: seq<int>, most: int)
    requires WellFormed(r) && Convert(host, r, swapBytes).Ok? && r.sampleType == 'i'
    requires |xs| == Convert(host, r, swapBytes).value.numberOfSamples <= |r.samples|
    requires forall i :: 0 <= i < |xs| ==> -46340 <= xs[i] <= 46340 && r.samples[i] == xs[i] % 0x1_0000_0000
    requires RoundsExactly(a, most) && 2147395600 * |xs| <= most
    ensures PacketSums(host, a, Convert(host, r, swapBytes).value, swapBytes)
            == Ok(Sums(Total(xs) as real, TotalSquares(xs) as real))
  {
    var p := Convert(host, r, swapBytes).value;
    ConvertedPacketsFit(host, a, r, swapBytes);
    ConvertedSamplesSurvive(host, r, swapBytes);
    StoredAs(r.samples[..p.numberOfSamples], xs);
    IntegerPacketSums(host, a, p, swapBytes, xs, most);
  }

  lemma StoredAs(samples: seq<nat>, xs: seq<int>)
    requires |samples| == |xs| && forall i :: 0 <= i < |xs| ==> samples[i] == xs[i] % 0x1_0000_0000
    ensures samples == PatternsOf(4, xs)
  {
    Pow256Values();
  }

  lemma IntegerPacketSums(host: Endian, a: Arithmetic, p: Packet, swapBytes: bool, xs: seq<int>, most: int)
    requires p.dataType == Integer32 && SizeFits(p) && |xs| == p.numberOfSamples >= 1
    requires Unpacked(host, 4, p.data, swapBytes) == PatternsOf(4, xs)
    requires forall i :: 0 <= i < |xs| ==> -46340 <= xs[i] <= 46340
    requires RoundsExactly(a, most) && 2147395600 * |xs| <= most
    ensures PacketSums(host, a, p, swapBytes) == Ok(Sums(Total(xs) as real, TotalSquares(xs) as real))
  {
    assert 46340 * 46340 == 2147395600;
    IntegerSumsAreExact(a, Int32, xs, 46340, most);
  }

  /** A record holding the one 32-bit sample v. */
  function OneSample(v: nat): Record {
    Record(1.0, 1, 0, Some(Identifier("UU", "CWU", "HHZ", "01")), 'i', [v])
  }

  lemma OneSampleConverts(host: Endian, swapBytes: bool, v: nat)
    requires v < Pow256(4)
    ensures WellFormed(OneSample(v)) && Convert(host, OneSample(v), swapBytes).Ok?
    ensures Convert(host, OneSample(v), swapBytes).value.numberOfSamples == 1
  {
    TrimWord("UU");
    TrimWord("CWU");
    TrimWord("HHZ");
  }

  /** Packets that fail do occur: the record with the one sample 46340 converts to a
      packet whose sums are computed, the one with 46341 to a packet whose sums are
      not defined. */
  lemma LargeSampleFails(host: Endian, a: Arithmetic, swapBytes: bool, v: nat)
    requires v <= 46341
    ensures WellFormed(OneSample(v)) && Convert(host, OneSample(v), swapBytes).Ok?
    ensures PacketSums(host, a, Convert(host, OneSample(v), swapBytes).value, swapBytes).Ok? <==> v <= 46340
  {
    Pow256Values();
    OneSampleConverts(host, swapBytes, v);
    ConvertedSumsIff(host, a, OneSample(v), swapBytes);
    var first := OneSample(v).samples[..1];
    assert first[0] == v;
    assert RootsFit(Int32, first) <==> RootFits(Int32, first[0]);
  }
}
