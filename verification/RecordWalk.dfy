/** The loop of miniSEEDToPackets in src/modules/packetConverter.cppm: a walk over a
  buffer of records with an unsigned offset.

  msr3_parse belongs to libmseed and appears as a function from the bytes at hand
  to an outcome; convert, which may throw, as a function to an optional packet.
  Module PacketConverter holds convert itself.
 */
module RecordWalk {
  import opened Wrappers
  import opened SampleCodec

  /** What msr3_parse answers: a record of reclen bytes, success without a record,
      or an error code. */
  datatype ParseOutcome<R> = Parsed(reclen: nat, record: R) | NoRecord | ParseFailed

  datatype WalkError = NullPayload | LibraryError | InsufficientData

  type Parser<!R> = seq<Byte> -> ParseOutcome<R>
  type Converter<!R, !P> = R -> Option<P>

  /** A record is at least one byte long and lies within the bytes parsed. */
  ghost predicate ParserContract<R>(parse: Parser<R>) {
    forall b: seq<Byte> :: parse(b).Parsed? ==> 0 < parse(b).reclen <= |b|
  }

  // ----- The specification -----

  datatype Visit<R> = Visit(offset: nat, reclen: nat, record: R)

  /** The records visited from offset on.  libmseed's MINRECLEN is a parameter. */
  ghost function Walk<R>(parse: Parser<R>, minRecLen: nat, buffer: seq<Byte>, offset: nat): Result<seq<Visit<R>>, WalkError>
    requires ParserContract(parse) && offset <= |buffer|
    decreases |buffer| - offset
  {
    if |buffer| - offset <= minRecLen then Ok([])
    else
      match parse(buffer[offset..])
      case Parsed(reclen, record) =>
        (match Walk(parse, minRecLen, buffer, offset + reclen)
         case Ok(visits) => Ok([Visit(offset, reclen, record)] + visits)
         case Err(e) => Err(e))
      case NoRecord => Err(InsufficientData)
      case ParseFailed => Err(LibraryError)
  }

  /** The packets of the visited records that convert, in order. */
  ghost function Packets<R, P>(convert: Converter<R, P>, visits: seq<Visit<R>>): seq<P> {
    if visits == [] then []
    else
      var packet := convert(visits[0].record);
      (if packet.Some? then [packet.value] else []) + Packets(convert, visits[1..])
  }

  // ----- The loop -----

  const TWO_TO_31: int := 0x8000_0000
  const TWO_TO_64: int := 0x1_0000_0000_0000_0000

  /** Subtraction of uint64_t. */
  function Minus64(a: int, b: int): int {
    (a - b) % TWO_TO_64
  }

  /** miniSEEDToPackets.  An offset past the buffer would make the unsigned
      difference wrap; it never gets there.  If any parse step throws, nothing is
      returned; otherwise the packets are the visited records' conversions in
      order, and every visited record is a packet or a counted failure. */
  method MiniSeedToPackets<R, P>(parse: Parser<R>, convert: Converter<R, P>, minRecLen: nat,
                                 msRecord: Option<seq<Byte>>, bufferSize: int)
      returns (result: Result<(seq<P>, int), WalkError>)
    requires ParserContract(parse)
    requires msRecord.Some? ==> |msRecord.value| == bufferSize < TWO_TO_31
    ensures msRecord.None? ==> result == Err(NullPayload)
    ensures msRecord.Some? ==>
      match Walk(parse, minRecLen, msRecord.value, 0)
      case Err(e) => result == Err(e)
      case Ok(visits) =>
        && result.Ok? && result.value.0 == Packets(convert, visits)
        && |result.value.0| + result.value.1 == |visits|
  {
    if msRecord.None? {
      return Err(NullPayload);
    }
    var buffer := msRecord.value;
    var dataPackets: seq<P> := [];
    var bufferLength := bufferSize % TWO_TO_64;
    var offset, failedPackets := 0, 0;
    ghost var visits: seq<Visit<R>> := [];
    ghost var whole := Walk(parse, minRecLen, buffer, 0);
    FollowedFromNothing(whole);
    while Minus64(bufferLength, offset) > minRecLen
      invariant 0 <= offset <= bufferLength == |buffer|
      invariant Minus64(bufferLength, offset) == |buffer| - offset
      invariant Followed(visits, Walk(parse, minRecLen, buffer, offset)) == whole
      invariant dataPackets == Packets(convert, visits)
      invariant |dataPackets| + failedPackets == |visits|
      decreases |buffer| - offset
    {
      var error;
      error, offset, dataPackets, failedPackets, visits :=
        VisitRecord(parse, convert, minRecLen, buffer, offset, dataPackets, failedPackets, visits);
      if error.Some? {
        return Err(error.value);
      }
    }
    WalkEnds(parse, minRecLen, buffer, offset, visits);
    result := Ok((dataPackets, failedPackets));
  }

  /** The body of the loop: parses the record at offset, converts it and moves past it. */
  method VisitRecord<R, P>(parse: Parser<R>, convert: Converter<R, P>, minRecLen: nat, buffer: seq<Byte>, offset: nat,
                           packets: seq<P>, failed: int, ghost visits: seq<Visit<R>>)
      returns (error: Option<WalkError>, next: nat, morePackets: seq<P>, moreFailed: int, ghost moreVisits: seq<Visit<R>>)
    requires ParserContract(parse) && offset + minRecLen < |buffer|
    requires packets == Packets(convert, visits) && |packets| + failed == |visits|
    ensures error.Some? ==> Followed(visits, Walk(parse, minRecLen, buffer, offset)) == Err(error.value)
    ensures error.None? ==>
              && offset < next <= |buffer|
              && Followed(moreVisits, Walk(parse, minRecLen, buffer, next)) == Followed(visits, Walk(parse, minRecLen, buffer, offset))
              && morePackets == Packets(convert, moreVisits) && |morePackets| + moreFailed == |moreVisits|
  {
    error, next, morePackets, moreFailed, moreVisits := None, offset, packets, failed, visits;
    var outcome := parse(buffer[offset..]);
    WalkFails(parse, minRecLen, buffer, offset, visits);
    if outcome.NoRecord? {
      error := Some(InsufficientData);
    } else if outcome.ParseFailed? {
      error := Some(LibraryError);
    } else {
      ghost var visit := Visit(offset, outcome.reclen, outcome.record);
      morePackets, moreFailed := Keep(convert, packets, failed, visits, visit, outcome.record);
      OneMoreVisit(parse, minRecLen, buffer, offset, visits, visit);
      moreVisits := visits + [visit];
      next := offset + outcome.reclen;
    }
  }

  lemma WalkEnds<R>(parse: Parser<R>, minRecLen: nat, buffer: seq<Byte>, offset: nat, visits: seq<Visit<R>>)
    requires ParserContract(parse) && offset <= |buffer| <= offset + minRecLen
    ensures Followed(visits, Walk(parse, minRecLen, buffer, offset)) == Ok(visits)
  {
    assert visits + [] == visits;
  }

  lemma WalkFails<R>(parse: Parser<R>, minRecLen: nat, buffer: seq<Byte>, offset: nat, visits: seq<Visit<R>>)
    requires ParserContract(parse) && offset + minRecLen < |buffer|
    ensures parse(buffer[offset..]).NoRecord? ==> Followed(visits, Walk(parse, minRecLen, buffer, offset)) == Err(InsufficientData)
    ensures parse(buffer[offset..]).ParseFailed? ==> Followed(visits, Walk(parse, minRecLen, buffer, offset)) == Err(LibraryError)
  {
  }

  lemma OneMoreVisit<R>(parse: Parser<R>, minRecLen: nat, buffer: seq<Byte>, offset: nat, visits: seq<Visit<R>>, visit: Visit<R>)
    requires ParserContract(parse) && offset + minRecLen < |buffer|
    requires parse(buffer[offset..]) == Parsed(visit.reclen, visit.record) && visit.offset == offset
    ensures 0 < visit.reclen <= |buffer| - offset
    ensures Followed(visits + [visit], Walk(parse, minRecLen, buffer, offset + visit.reclen))
            == Followed(visits, Walk(parse, minRecLen, buffer, offset))
  {
    FollowedSnoc(visits, visit, Walk(parse, minRecLen, buffer, offset + visit.reclen));
  }

  /** Converts one more record: a packet at the end, or one more failure. */
  method Keep<R, P>(convert: Converter<R, P>, packets: seq<P>, failed: int, ghost visits: seq<Visit<R>>, ghost visit: Visit<R>, record: R)
      returns (morePackets: seq<P>, moreFailed: int)
    requires packets == Packets(convert, visits) && |packets| + failed == |visits| && record == visit.record
    ensures morePackets == Packets(convert, visits + [visit]) && |morePackets| + moreFailed == |visits| + 1
  {
    PacketsSnoc(convert, visits, visit);
    var dataPacket := convert(record);
    if dataPacket.Some? {
      morePackets, moreFailed := packets + [dataPacket.value], failed;
    } else {
      morePackets, moreFailed := packets, failed + 1;
    }
  }

  /** Visits already made, then the rest of the walk. */
  function Followed<R>(visits: seq<Visit<R>>, rest: Result<seq<Visit<R>>, WalkError>): Result<seq<Visit<R>>, WalkError> {
    if rest.Ok? then Ok(visits + rest.value) else rest
  }

  lemma FollowedFromNothing<R>(rest: Result<seq<Visit<R>>, WalkError>)
    ensures Followed([], rest) == rest
  {
    if rest.Ok? {
      assert [] + rest.value == rest.value;
    }
  }

  lemma FollowedSnoc<R>(visits: seq<Visit<R>>, visit: Visit<R>, rest: Result<seq<Visit<R>>, WalkError>)
    ensures Followed(visits + [visit], rest)
            == Followed(visits, if rest.Ok? then Ok([visit] + rest.value) else rest)
  {
    if rest.Ok? {
      assert visits + [visit] + rest.value == visits + ([visit] + rest.value);
    }
  }

  lemma {:induction false} PacketsSnoc<R, P>(convert: Converter<R, P>, visits: seq<Visit<R>>, visit: Visit<R>)
    ensures var packet := convert(visit.record);
      Packets(convert, visits + [visit])
      == Packets(convert, visits) + if packet.Some? then [packet.value] else []
  {
    if visits == [] {
      assert ([] + [visit])[1..] == [];
    } else {
      PacketsSnoc(convert, visits[1..], visit);
      assert (visits + [visit])[1..] == visits[1..] + [visit];
    }
  }

  /** Which visit each packet comes from: those whose record converts, all of them, in
      order. */
  lemma {:induction false} PacketsComeFrom<R, P>(convert: Converter<R, P>, visits: seq<Visit<R>>) returns (from: seq<nat>)
    ensures |from| == |Packets(convert, visits)|
    ensures forall k :: 0 <= k < |from| ==>
              from[k] < |visits| && convert(visits[from[k]].record) == Some(Packets(convert, visits)[k])
    ensures forall j, k :: 0 <= j < k < |from| ==> from[j] < from[k]
    ensures forall v: nat :: v < |visits| && convert(visits[v].record).Some? ==> v in from
  {
    if visits == [] {
      from := [];
    } else {
      var n := |visits| - 1;
      var before, last := visits[..n], visits[n];
      from := PacketsComeFrom(convert, before);
      PacketsSnoc(convert, before, last);
      assert visits == before + [last];
      if convert(last.record).Some? {
        ghost var earlier := from;
        from := earlier + [n];
        assert n == from[|earlier|];
        forall v: nat | v < |visits| && convert(visits[v].record).Some? ensures v in from {
          if v < n {
            assert before[v] == visits[v] && v in earlier;
          }
        }
      } else {
        assert forall v: nat :: v < n ==> before[v] == visits[v];
      }
    }
  }

  // ----- What the walk covers -----

  /** Where the visits end. */
  function EndOf<R>(visits: seq<Visit<R>>, start: nat): nat {
    if visits == [] then start else visits[|visits| - 1].offset + visits[|visits| - 1].reclen
  }

  /** On normal return the visited records tile a prefix of the buffer, without gap
      or overlap, and at most MINRECLEN bytes are left. */
  lemma {:induction false} VisitsTile<R>(parse: Parser<R>, minRecLen: nat, buffer: seq<Byte>, offset: nat)
    requires ParserContract(parse) && offset <= |buffer| && Walk(parse, minRecLen, buffer, offset).Ok?
    ensures var visits := Walk(parse, minRecLen, buffer, offset).value;
      && EndOf(visits, offset) <= |buffer| <= EndOf(visits, offset) + minRecLen
      && (visits != [] ==> visits[0].offset == offset)
      && (forall i :: 0 < i < |visits| ==> visits[i].offset == visits[i - 1].offset + visits[i - 1].reclen)
      && (forall i :: 0 <= i < |visits| ==>
            visits[i].offset <= |buffer| && parse(buffer[visits[i].offset..]) == Parsed(visits[i].reclen, visits[i].record))
    decreases |buffer| - offset
  {
    if |buffer| - offset > minRecLen {
      var next := offset + parse(buffer[offset..]).reclen;
      VisitsTile(parse, minRecLen, buffer, next);
      var rest := Walk(parse, minRecLen, buffer, next).value;
      var visits := Walk(parse, minRecLen, buffer, offset).value;
      assert visits == [visits[0]] + rest;
      assert forall i :: 0 < i < |visits| ==> visits[i] == rest[i - 1];
    }
  }

  /** A record as stored: its bytes and what they parse to. */
  datatype Stored<R> = Stored(bytes: seq<Byte>, record: R)

  ghost predicate Delimits<R>(parse: Parser<R>, s: Stored<R>) {
    forall tail: seq<Byte> :: parse(s.bytes + tail) == Parsed(|s.bytes|, s.record)
  }

  function AllBytes<R>(stored: seq<Stored<R>>): seq<Byte> {
    if stored == [] then [] else stored[0].bytes + AllBytes(stored[1..])
  }

  /** How many of the records have more than MINRECLEN bytes from their start on. */
  function Reached<R>(stored: seq<Stored<R>>, minRecLen: nat): (n: nat)
    ensures n <= |stored|
  {
    if |AllBytes(stored)| <= minRecLen || |stored| == 0 then 0 else 1 + Reached(stored[1..], minRecLen)
  }

  /** Over a concatenation of valid records the walk visits the records in order,
      up to the first with no more than MINRECLEN bytes left. */
  lemma {:induction false} WalkVisitsStored<R>(parse: Parser<R>, minRecLen: nat, before: seq<Byte>, stored: seq<Stored<R>>)
    requires ParserContract(parse)
    requires forall i :: 0 <= i < |stored| ==> Delimits(parse, stored[i])
    ensures var w := Walk(parse, minRecLen, before + AllBytes(stored), |before|);
      && w.Ok? && |w.value| == Reached(stored, minRecLen)
      && forall i :: 0 <= i < |w.value| ==> w.value[i].record == stored[i].record
    decreases |stored|
  {
    var buffer := before + AllBytes(stored);
    if |AllBytes(stored)| > minRecLen {
      var first, rest := stored[0], AllBytes(stored[1..]);
      assert Delimits(parse, first);
      assert buffer[|before|..] == first.bytes + rest;
      assert before + first.bytes + rest == buffer;
      WalkVisitsStored(parse, minRecLen, before + first.bytes, stored[1..]);
      var v := Walk(parse, minRecLen, buffer, |before| + |first.bytes|);
      assert Walk(parse, minRecLen, buffer, |before|) == Ok([Visit(|before|, |first.bytes|, first.record)] + v.value);
    }
  }

  /** It visits all of them exactly when the last is longer than MINRECLEN. */
  lemma {:induction false} ReachedAllIff<R>(stored: seq<Stored<R>>, minRecLen: nat)
    ensures Reached(stored, minRecLen) == |stored|
            <==> |stored| == 0 || |stored[|stored| - 1].bytes| > minRecLen
    ensures |stored| > 0 ==> |stored[|stored| - 1].bytes| <= |AllBytes(stored)|
  {
    if |stored| == 1 {
      assert AllBytes(stored) == stored[0].bytes;
    } else if |stored| > 1 {
      ReachedAllIff(stored[1..], minRecLen);
    }
  }
}
