/** SEEDLinkClientImpl of src/seedLinkClient.cpp: the polling loop that turns payloads
  into packets for the callback, and the flag that starts and stops it.

  sl_collect answers as it likes; other threads may clear mKeepRunning between any
  two statements of the loop.
 */
module SeedLinkClients {
  import opened Wrappers
  import opened Division
  import opened Permutations
  import opened SampleCodec
  import opened RecordWalk
  import opened PacketConverter

  /** What sl_collect returns. */
  datatype Poll = DataPacket(miniSeed: bool, payload: seq<Byte>) | TooLarge | NoPacket | Terminate | Unhandled(code: int)

  /** The functions behind miniSEEDToPackets; PacketConverter.Converting is convert. */
  datatype Library = Library(parse: Parser<Record>, convert: Converter<Record, Packet>, minRecLen: nat)

  /** How the polling thread ends: normally or with one of its three exceptions. */
  datatype Ending = Normally | RecoverFailed | PurgeFailed | PrematureEnd

  // ----- Order of start times -----

  /** start_time(), whose default is the epoch. */
  function StartTime(p: Packet): int {
    if p.startTime.Some? then p.startTime.value else 0
  }

  ghost predicate InStartOrder(packets: seq<Packet>) {
    forall i, j :: 0 <= i < j < |packets| ==> StartTime(packets[i]) <= StartTime(packets[j])
  }

  ghost predicate Permuted(a: seq<Packet>, b: seq<Packet>) {
    multiset(a) == multiset(b)
  }

  function Inserted(sorted: seq<Packet>, p: Packet): (r: seq<Packet>)
    ensures |r| == |sorted| + 1
  {
    if sorted == [] || StartTime(sorted[|sorted| - 1]) <= StartTime(p) then sorted + [p]
    else Inserted(sorted[..|sorted| - 1], p) + [sorted[|sorted| - 1]]
  }

  lemma {:induction false} InsertedAdds(sorted: seq<Packet>, p: Packet)
    ensures Permuted(Inserted(sorted, p), sorted + [p])
  {
    if sorted != [] && StartTime(sorted[|sorted| - 1]) > StartTime(p) {
      var n := |sorted| - 1;
      InsertedAdds(sorted[..n], p);
      assert sorted == sorted[..n] + [sorted[n]];
    }
  }

  lemma {:induction false} InsertedIsInOrder(sorted: seq<Packet>, p: Packet)
    requires InStartOrder(sorted)
    ensures InStartOrder(Inserted(sorted, p))
    ensures forall i :: 0 <= i <= |sorted| ==>
              Inserted(sorted, p)[i] == p || (|sorted| > 0 && StartTime(Inserted(sorted, p)[i]) <= StartTime(sorted[|sorted| - 1]))
  {
    if sorted != [] && StartTime(sorted[|sorted| - 1]) > StartTime(p) {
      var n := |sorted| - 1;
      InsertedIsInOrder(sorted[..n], p);
    }
  }

  /** std::sort by start time: some ordered permutation. */
  method SortByStartTime(packets: seq<Packet>) returns (sorted: seq<Packet>)
    ensures InStartOrder(sorted) && Permuted(sorted, packets)
  {
    sorted := [];
    for i := 0 to |packets|
      invariant InStartOrder(sorted) && Permuted(sorted, packets[..i])
    {
      InsertedIsInOrder(sorted, packets[i]);
      InsertedAdds(sorted, packets[i]);
      assert packets[..i + 1] == packets[..i] + [packets[i]];
      sorted := Inserted(sorted, packets[i]);
    }
    assert packets[..|packets|] == packets;
  }

  // ----- What the polls should lead to -----

  /** The miniSEED payloads among the polls. */
  function Payloads(polls: seq<Poll>): seq<seq<Byte>>
    decreases |polls|, 1
  {
    if polls == [] then [] else PayloadsWithLast(polls)
  }

  function PayloadsWithLast(polls: seq<Poll>): seq<seq<Byte>>
    requires polls != []
    decreases |polls|, 0
  {
    var last := polls[|polls| - 1];
    Payloads(polls[..|polls| - 1]) + if last.DataPacket? && last.miniSeed then [last.payload] else []
  }

  lemma PayloadsSnoc(polls: seq<Poll>, poll: Poll)
    ensures poll.DataPacket? && poll.miniSeed ==> Payloads(polls + [poll]) == Payloads(polls) + [poll.payload]
    ensures !(poll.DataPacket? && poll.miniSeed) ==> Payloads(polls + [poll]) == Payloads(polls)
  {
    assert (polls + [poll])[..|polls|] == polls;
  }

  /** What the callback gets for a payload: all its records that convert, in order of
      start time, or nothing at all if any parse step throws. */
  ghost predicate BatchOf(lib: Library, payload: seq<Byte>, batch: seq<Packet>)
    requires ParserContract(lib.parse)
  {
    match Walk(lib.parse, lib.minRecLen, payload, 0)
    case Err(_) => batch == []
    case Ok(visits) => InStartOrder(batch) && Permuted(batch, Packets(lib.convert, visits))
  }

  ghost predicate AllBatches(lib: Library, payloads: seq<seq<Byte>>, batches: seq<seq<Packet>>)
    requires ParserContract(lib.parse)
    decreases |payloads|, 1
  {
    |batches| == |payloads| && (payloads != [] ==> LastBatches(lib, payloads, batches))
  }

  ghost predicate LastBatches(lib: Library, payloads: seq<seq<Byte>>, batches: seq<seq<Packet>>)
    requires ParserContract(lib.parse) && |batches| == |payloads| > 0
    decreases |payloads|, 0
  {
    var n := |payloads| - 1;
    AllBatches(lib, payloads[..n], batches[..n]) && BatchOf(lib, payloads[n], batches[n])
  }

  lemma AllBatchesSnoc(lib: Library, payloads: seq<seq<Byte>>, batches: seq<seq<Packet>>, payload: seq<Byte>, batch: seq<Packet>)
    requires ParserContract(lib.parse)
    requires AllBatches(lib, payloads, batches) && BatchOf(lib, payload, batch)
    ensures AllBatches(lib, payloads + [payload], batches + [batch])
  {
    var n := |payloads|;
    assert (payloads + [payload])[..n] == payloads && (batches + [batch])[..n] == batches;
  }

  /** Packet by packet, batch by batch. */
  function Joined(batches: seq<seq<Packet>>): seq<Packet>
    decreases |batches|
  {
    if batches == [] then [] else Joined(batches[..|batches| - 1]) + batches[|batches| - 1]
  }

  lemma JoinedSnoc(batches: seq<seq<Packet>>, batch: seq<Packet>)
    ensures Joined(batches + [batch]) == Joined(batches) + batch
  {
    assert (batches + [batch])[..|batches|] == batches;
  }

  /** Whatever libslink delivers, every packet handed to the callback fits its data
      type and names its stream. */
  lemma DeliveredAreCarried(host: Endian, a: Arithmetic, swapBytes: bool, lib: Library, payload: seq<Byte>, batch: seq<Packet>, i: nat)
    requires ParserContract(lib.parse) && lib.convert == Converting(host, swapBytes)
    requires forall b: seq<Byte> :: lib.parse(b).Parsed? ==> WellFormed(lib.parse(b).record)
    requires BatchOf(lib, payload, batch) && i < |batch|
    ensures Carried(host, a, batch[i], swapBytes)
  {
    var visits := Walk(lib.parse, lib.minRecLen, payload, 0).value;
    VisitsTile(lib.parse, lib.minRecLen, payload, 0);
    WalkedPacketsFit(host, a, visits, swapBytes);
    assert batch[i] in multiset(batch);
    MembersCarried(host, a, Packets(lib.convert, visits), batch[i], swapBytes);
  }

  lemma MembersCarried(host: Endian, a: Arithmetic, packets: seq<Packet>, p: Packet, swapBytes: bool)
    requires AllCarried(host, a, packets, swapBytes) && p in multiset(packets)
    ensures Carried(host, a, p, swapBytes)
  {
  }

  /** What the callback gets for a payload, record by record: every record of the payload
      that converts comes exactly once, as its packet, and they come in the order of
      the records' start times. */
  lemma DeliveredRecords(host: Endian, swapBytes: bool, lib: Library, payload: seq<Byte>, batch: seq<Packet>)
      returns (visits: seq<Visit<Record>>, order: seq<nat>)
    requires ParserContract(lib.parse) && lib.convert == Converting(host, swapBytes)
    requires BatchOf(lib, payload, batch)
    ensures match Walk(lib.parse, lib.minRecLen, payload, 0) case Ok(walked) => visits == walked case Err(_) => visits == []
    ensures |order| == |batch|
    ensures forall k :: 0 <= k < |batch| ==>
              order[k] < |visits| && Convert(host, visits[order[k]].record, swapBytes) == Ok(batch[k])
    ensures Distinct(order)
    ensures forall v: nat :: v < |visits| && Convert(host, visits[v].record, swapBytes).Ok? ==> v in order
    ensures forall j, k :: 0 <= j < k < |batch| ==>
              visits[order[j]].record.startTime <= visits[order[k]].record.startTime
  {
    if Walk(lib.parse, lib.minRecLen, payload, 0).Err? {
      visits, order := [], [];
      return;
    }
    visits := Walk(lib.parse, lib.minRecLen, payload, 0).value;
    order := DeliveredFrom(lib.convert, visits, batch);
    forall k | 0 <= k < |batch|
      ensures Convert(host, visits[order[k]].record, swapBytes) == Ok(batch[k])
      ensures StartTime(batch[k]) == visits[order[k]].record.startTime
    {
      ConvertingIs(host, swapBytes, visits[order[k]].record);
    }
    forall v: nat | v < |visits| && Convert(host, visits[v].record, swapBytes).Ok? ensures v in order {
      ConvertingIs(host, swapBytes, visits[v].record);
    }
  }

  lemma ConvertingIs(host: Endian, swapBytes: bool, r: Record)
    ensures var p := Converting(host, swapBytes)(r);
      && (p.Some? <==> Convert(host, r, swapBytes).Ok?)
      && (p.Some? ==> Convert(host, r, swapBytes) == Ok(p.value) && StartTime(p.value) == r.startTime)
  {
  }

  lemma DeliveredFrom(convert: Converter<Record, Packet>, visits: seq<Visit<Record>>, batch: seq<Packet>) returns (order: seq<nat>)
    requires Permuted(batch, Packets(convert, visits))
    ensures |order| == |batch| && Distinct(order)
    ensures forall k :: 0 <= k < |batch| ==> order[k] < |visits| && convert(visits[order[k]].record) == Some(batch[k])
    ensures forall v: nat :: v < |visits| && convert(visits[v].record).Some? ==> v in order
  {
    var from := PacketsComeFrom(convert, visits);
    var places := Renumbering(batch, Packets(convert, visits));
    order := seq(|batch|, k requires 0 <= k < |batch| => from[places[k]]);
    forall j, k | 0 <= j < k < |batch| ensures order[j] != order[k] {
      assert places[j] != places[k];
    }
    forall v: nat | v < |visits| && convert(visits[v].record).Some? ensures v in order {
      assert v in from;
      var i: nat :| i < |from| && from[i] == v;
      assert i in places;
      var k :| 0 <= k < |places| && places[k] == i;
      assert order[k] == v;
    }
  }

  /** So the packets come with their start times set, in their order. */
  lemma DeliveredInOrder(host: Endian, swapBytes: bool, lib: Library, payload: seq<Byte>, batch: seq<Packet>, i: nat, j: nat)
    requires ParserContract(lib.parse) && lib.convert == Converting(host, swapBytes)
    requires BatchOf(lib, payload, batch) && i < j < |batch|
    ensures batch[i].startTime.Some? && batch[j].startTime.Some? && batch[i].startTime.value <= batch[j].startTime.value
  {
    var visits, order := DeliveredRecords(host, swapBytes, lib, payload, batch);
    ConvertedFields(host, visits[order[i]].record, swapBytes);
    ConvertedFields(host, visits[order[j]].record, swapBytes);
  }

  // ----- The cadence of state saves -----

  /** One more payload: every (interval + 1)-th one brings a save. */
  lemma CadenceStep(n: nat, interval: nat)
    ensures var d := interval + 1;
      if n % d == interval then (n + 1) / d == n / d + 1 && (n + 1) % d == 0
      else (n + 1) / d == n / d && (n + 1) % d == n % d + 1
  {
    var d := interval + 1;
    assert n == (n / d) * d + n % d;
    if n % d == interval {
      assert (n / d + 1) * d == (n / d) * d + d;
      QuotientIsUnique(n + 1, d, n / d + 1, 0);
    } else {
      QuotientIsUnique(n + 1, d, n / d, n % d + 1);
    }
  }

  /** updateStateFile after n payloads. */
  function UpdateAfter(n: nat, interval: nat): int {
    if n == 0 then 1
    else (if UpdateAfter(n - 1, interval) > interval then 0 else UpdateAfter(n - 1, interval)) + 1
  }

  /** Saves after n payloads. */
  function SavesAfter(n: nat, interval: nat): nat {
    if n == 0 then 0
    else SavesAfter(n - 1, interval) + if UpdateAfter(n - 1, interval) > interval then 1 else 0
  }

  /** With interval k, n payloads bring n / (k + 1) saves, rounded down. */
  lemma {:induction false} SavesAreQuotient(n: nat, interval: nat)
    ensures SavesAfter(n, interval) == n / (interval + 1)
    ensures UpdateAfter(n, interval) == n % (interval + 1) + 1
  {
    if n == 0 {
      QuotientIsUnique(0, interval + 1, 0, 0);
    } else {
      SavesAreQuotient(n - 1, interval);
      CadenceStep(n - 1, interval);
    }
  }

  // ----- The client -----

  const DEFAULT_INTERVAL: nat := 100

  class SeedLinkClient {
    const lib: Library
    /** SL_RECV_BUFFER_SIZE. */
    const bufferSize: nat
    var mInitialized: bool
    /** mSEEDLinkConnection is not null. */
    var hasConnection: bool
    var mKeepRunning: bool
    var mConnected: bool
    var mUseStateFile: bool
    var mDeleteStateFileOnStop: bool
    var mStateFileUpdateInterval: nat
    /** The connection's terminate flag, set by sl_terminate. */
    var terminateFlag: bool
    /** Periodic calls of sl_savestate. */
    var saves: nat
    /** The packets handed to the callback. */
    var delivered: seq<Packet>
    /** How long the other threads let the loop run: any finite time. */
    var turnsUntilStop: nat

    /** What sl_collect has returned to the current thread, how many of those answers
        it fetched when the flag was already cleared, and what each payload led to. */
    ghost var polls: seq<Poll>
    ghost var latePolls: nat
    ghost var batches: seq<seq<Packet>>

    ghost predicate Valid()
      reads this`mInitialized, this`hasConnection, this`terminateFlag, this`mKeepRunning
    {
      && ParserContract(lib.parse) && bufferSize < TWO_TO_31
      && (mInitialized ==> hasConnection) && (terminateFlag ==> !mKeepRunning)
    }

    /** The client once initialize has succeeded; without a state file the other two
        options have no effect. */
    constructor (lib: Library, bufferSize: nat, useStateFile: bool, interval: nat, deleteOnStop: bool, turnsUntilStop: nat)
      requires ParserContract(lib.parse) && bufferSize < TWO_TO_31
      ensures Valid() && this.lib == lib && this.bufferSize == bufferSize
      ensures mInitialized && mKeepRunning && !mConnected && !terminateFlag
      ensures mUseStateFile == useStateFile && mDeleteStateFileOnStop == (useStateFile && deleteOnStop)
      ensures mStateFileUpdateInterval == if useStateFile then interval else 100
      ensures saves == 0 && delivered == [] && polls == [] && latePolls == 0 && batches == []
      ensures this.turnsUntilStop == turnsUntilStop
    {
      this.lib, this.bufferSize, this.turnsUntilStop := lib, bufferSize, turnsUntilStop;
      mInitialized, hasConnection, mKeepRunning, mConnected, terminateFlag := true, true, true, false, false;
      mUseStateFile, mDeleteStateFileOnStop := useStateFile, useStateFile && deleteOnStop;
      mStateFileUpdateInterval := if useStateFile then interval else DEFAULT_INTERVAL;
      saves, delivered := 0, [];
      polls, latePolls, batches := [], 0, [];
    }

    /** What the polls so far have led to. */
    ghost predicate InStep(updateStateFile: int)
      requires ParserContract(lib.parse)
      reads this`polls, this`batches, this`delivered, this`saves, this`mUseStateFile, this`mStateFileUpdateInterval
    {
      Settled(polls, updateStateFile)
    }

    /** What some polls have led to, all payloads among them being dealt with. */
    ghost predicate Settled(some: seq<Poll>, updateStateFile: int)
      requires ParserContract(lib.parse)
      reads this`batches, this`delivered, this`saves, this`mUseStateFile, this`mStateFileUpdateInterval
    {
      && AllBatches(lib, Payloads(some), batches) && delivered == Joined(batches)
      && Cadence(|Payloads(some)|, updateStateFile)
    }

    lemma SettledIgnores(some: seq<Poll>, poll: Poll, updateStateFile: int)
      requires ParserContract(lib.parse) && Settled(some, updateStateFile) && !(poll.DataPacket? && poll.miniSeed)
      ensures Settled(some + [poll], updateStateFile)
    {
      PayloadsSnoc(some, poll);
    }

    /** terminate: nothing without a connection. */
    method IssueTerminate()
      modifies this`terminateFlag
      ensures terminateFlag == (old(terminateFlag) || hasConnection)
    {
      if hasConnection {
        terminateFlag := true;
      }
    }

    /** setRunning: tells the poller to terminate only if it is running. */
    method SetRunning(running: bool)
      requires Valid()
      modifies this`mKeepRunning, this`terminateFlag
      ensures mKeepRunning == running
      ensures terminateFlag == (old(terminateFlag) || (!running && old(mKeepRunning) && hasConnection))
      ensures !running ==> Valid()
    {
      if !running && mKeepRunning {
        mKeepRunning := running;
        IssueTerminate();
      } else {
        mKeepRunning := running;
      }
    }

    method Stop()
      requires Valid()
      modifies this`mKeepRunning, this`terminateFlag
      ensures Valid() && !mKeepRunning
      ensures terminateFlag == (old(terminateFlag) || (old(mKeepRunning) && hasConnection))
    {
      SetRunning(false);
    }

    /** SEEDLinkClient::start, up to launching the polling thread; it throws without
        initialization, before anything is done. */
    method Start() returns (started: bool)
      requires Valid()
      modifies this`mKeepRunning, this`terminateFlag
      ensures Valid() && (started <==> mInitialized)
      ensures started ==> mKeepRunning && !terminateFlag
      ensures !started ==> unchanged(this)
    {
      if !mInitialized {
        return false;
      }
      started := StartImpl();
    }

    /** SEEDLinkClientImpl::start, which stops the client before its own test. */
    method StartImpl() returns (started: bool)
      requires Valid()
      modifies this`mKeepRunning, this`terminateFlag
      ensures Valid() && (started <==> mInitialized)
      ensures started ==> mKeepRunning && !terminateFlag
      ensures !started ==> !mKeepRunning && terminateFlag == (old(terminateFlag) || (old(mKeepRunning) && hasConnection))
    {
      Stop();
      if !mInitialized {
        return false;
      }
      SetRunning(true);
      terminateFlag := false;
      started := true;
    }

    /** Other threads, which may be in stop: the flag is cleared before the terminate
        command is issued. */
    method Interfere()
      requires Valid()
      modifies this`mKeepRunning, this`terminateFlag, this`turnsUntilStop
      ensures Valid()
      ensures mKeepRunning ==> old(mKeepRunning)
      ensures turnsUntilStop <= old(turnsUntilStop) && (mKeepRunning ==> turnsUntilStop < old(turnsUntilStop))
    {
      if turnsUntilStop > 0 {
        turnsUntilStop := turnsUntilStop - 1;
      } else if mKeepRunning {
        mKeepRunning := false;
      } else {
        IssueTerminate();
      }
    }

    /** sl_collect: anything, except that a payload beyond the buffer is reported as
        too large. */
    method Collect() returns (poll: Poll)
      requires Valid()
      modifies this`polls, this`latePolls
      ensures polls == old(polls) + [poll] && (poll.DataPacket? ==> |poll.payload| <= bufferSize)
      ensures latePolls == old(latePolls) + (if mKeepRunning then 0 else 1)
    {
      poll := *;
      if poll.DataPacket? && |poll.payload| > bufferSize {
        poll := TooLarge;
      }
      polls := polls + [poll];
      latePolls := latePolls + if mKeepRunning then 0 else 1;
    }

    /** Unpacks a payload, sorts what came out and hands it to the callback packet by
        packet.  An exception of the callback does not keep the others back. */
    method DeliverPayload(payload: seq<Byte>) returns (ghost batch: seq<Packet>)
      requires Valid() && |payload| <= bufferSize
      modifies this`delivered
      ensures BatchOf(lib, payload, batch) && delivered == old(delivered) + batch
    {
      var result := MiniSeedToPackets(lib.parse, lib.convert, lib.minRecLen, Some(payload), |payload|);
      if result.Err? {
        return [];
      }
      var packets := result.value.0;
      if |packets| > 1 {
        packets := SortByStartTime(packets);
      }
      batch := packets;
      HandOver(packets);
    }

    method HandOver(packets: seq<Packet>)
      modifies this`delivered
      ensures delivered == old(delivered) + packets
    {
      for i := 0 to |packets|
        invariant delivered == old(delivered) + packets[..i]
      {
        delivered := delivered + [packets[i]];
      }
    }

    /** The body of the loop for a miniSEED payload: deliver, then save the state if
        it is time.  A payload that failed to unpack counts all the same. */
    method HandlePayload(ghost before: seq<Poll>, payload: seq<Byte>, updateStateFile: int) returns (update: int)
      requires Valid() && |payload| <= bufferSize && Settled(before, updateStateFile)
      modifies this`delivered, this`batches, this`saves
      ensures Settled(before + [DataPacket(true, payload)], update)
    {
      PayloadsSnoc(before, DataPacket(true, payload));
      DeliverBatch(Payloads(before), payload);
      update := SaveStateIfDue(|Payloads(before)|, updateStateFile);
    }

    /** Delivers the next payload and files what it led to. */
    method DeliverBatch(ghost payloads: seq<seq<Byte>>, payload: seq<Byte>)
      requires Valid() && |payload| <= bufferSize
      requires AllBatches(lib, payloads, batches) && delivered == Joined(batches)
      modifies this`delivered, this`batches
      ensures AllBatches(lib, payloads + [payload], batches) && delivered == Joined(batches)
    {
      ghost var batch := DeliverPayload(payload);
      AllBatchesSnoc(lib, payloads, batches, payload, batch);
      JoinedSnoc(batches, batch);
      batches := batches + [batch];
    }

    /** Counts a payload towards the next save of the state. */
    method SaveStateIfDue(ghost n: nat, updateStateFile: int) returns (update: int)
      requires Cadence(n, updateStateFile)
      modifies this`saves
      ensures Cadence(n + 1, update)
    {
      update := updateStateFile;
      if mUseStateFile {
        if update > mStateFileUpdateInterval {
          saves := saves + 1;
          update := 0;
        }
        update := update + 1;
      }
    }

    /** One turn of the polling loop.  terminated says that the loop must end. */
    method PollOnce(updateStateFile: int) returns (update: int, terminated: bool)
      requires Valid() && InStep(updateStateFile)
      modifies this`polls, this`latePolls, this`delivered, this`batches, this`saves, this`mConnected
      ensures Valid() && InStep(update)
      ensures latePolls == old(latePolls) + (if mKeepRunning then 0 else 1)
      ensures terminated == Terminated() && mConnected == (!terminated && old(mConnected))
    {
      ghost var before := polls;
      var answer := Collect();
      update, terminated := HandlePoll(before, answer, updateStateFile);
    }

    /** What follows an answer of sl_collect. */
    method HandlePoll(ghost before: seq<Poll>, poll: Poll, updateStateFile: int) returns (update: int, terminated: bool)
      requires Valid() && Settled(before, updateStateFile) && (poll.DataPacket? ==> |poll.payload| <= bufferSize)
      modifies this`delivered, this`batches, this`saves, this`mConnected
      ensures Settled(before + [poll], update)
      ensures terminated == poll.Terminate? && mConnected == (!terminated && old(mConnected))
    {
      update, terminated := updateStateFile, false;
      match poll
      case DataPacket(miniSeed, payload) =>
        if miniSeed {
          update := HandlePayload(before, payload, update);
        } else {
          SettledIgnores(before, poll, update);
        }
      case Terminate =>
        SettledIgnores(before, poll, update);
        mConnected := false;
        terminated := true;
      case _ =>
        SettledIgnores(before, poll, update);
    }

    /** packetToCallback.  recovered, fileExists and removed are the answers of libslink
        and the file system.  It ends normally only when told to stop, and if it was
        told to stop it does not report a premature end: a terminate command comes
        after the flag is cleared.  Once the flag is cleared it polls at most once
        more. */
    method PacketToCallback(recovered: bool, fileExists: bool, removed: bool) returns (ending: Ending)
      requires Valid() && polls == [] && latePolls == 0 && batches == [] && delivered == [] && saves == 0
      modifies this`mKeepRunning, this`terminateFlag, this`turnsUntilStop, this`mConnected,
               this`polls, this`latePolls, this`delivered, this`batches, this`saves
      ensures Valid()
      ensures AllBatches(lib, Payloads(polls), batches) && delivered == Joined(batches)
      ensures saves == if mUseStateFile then |Payloads(polls)| / (mStateFileUpdateInterval + 1) else 0
      ensures latePolls <= 1
      ensures ending.Normally? ==> !mKeepRunning && !mConnected
      ensures ending.PrematureEnd? ==> mKeepRunning && !terminateFlag && Terminated()
      ensures ending.RecoverFailed? <==> mUseStateFile && !recovered
      ensures ending.RecoverFailed? ==> polls == []
      ensures ending.PurgeFailed? <==> (mUseStateFile && recovered && mDeleteStateFileOnStop && fileExists && !removed)
      ensures mConnected <==> !ending.Normally? && !Terminated()
    {
      mConnected := true;
      if mUseStateFile {
        if !recovered {
          return RecoverFailed;
        }
      }
      ghost var terminated, update := PollWhileRunning();
      SavesAreQuotient(|Payloads(polls)|, mStateFileUpdateInterval);
      ending := Leave(fileExists, removed);
    }

    /** packetToCallback after its loop. */
    method Leave(fileExists: bool, removed: bool) returns (ending: Ending)
      requires Valid()
      modifies this`mKeepRunning, this`terminateFlag, this`turnsUntilStop, this`mConnected
      ensures Valid() && (mKeepRunning ==> old(mKeepRunning))
      ensures ending == if mUseStateFile && mDeleteStateFileOnStop && fileExists && !removed then PurgeFailed
                        else if mKeepRunning then PrematureEnd else Normally
      ensures mConnected == (old(mConnected) && !ending.Normally?)
    {
      if mUseStateFile && mDeleteStateFileOnStop {
        if fileExists {
          if !removed {
            return PurgeFailed;
          }
        }
      }
      Interfere();
      if mKeepRunning {
        return PrematureEnd;
      }
      mConnected := false;
      ending := Normally;
    }

    /** The last poll asked to terminate. */
    ghost predicate Terminated()
      reads this`polls
    {
      polls != [] && polls[|polls| - 1].Terminate?
    }

    /** The polling loop. */
    method PollWhileRunning() returns (terminated: bool, ghost update: int)
      requires Valid() && InStep(1) && polls == [] && latePolls == 0
      modifies this`mKeepRunning, this`terminateFlag, this`turnsUntilStop, this`mConnected,
               this`polls, this`latePolls, this`delivered, this`batches, this`saves
      ensures Valid() && InStep(update)
      ensures latePolls <= 1
      ensures terminated == Terminated() && (!terminated ==> !mKeepRunning)
      ensures mConnected == (old(mConnected) && !terminated)
    {
      var updateStateFile := 1;
      terminated := false;
      Interfere();
      var running := mKeepRunning;
      while running && !terminated
        invariant Valid() && InStep(updateStateFile)
        invariant latePolls <= 1 && (running && !terminated ==> latePolls == 0)
        invariant terminated == Terminated() && mConnected == (old(mConnected) && !terminated)
        invariant !running ==> !mKeepRunning
        decreases running && !terminated, turnsUntilStop
      {
        updateStateFile, terminated, running := Turn(updateStateFile);
      }
      update := updateStateFile;
    }

    /** Polls, and looks at the flag again. */
    method Turn(updateStateFile: int) returns (update: int, terminated: bool, running: bool)
      requires Valid() && InStep(updateStateFile) && latePolls == 0
      modifies this`mKeepRunning, this`terminateFlag, this`turnsUntilStop, this`mConnected,
               this`polls, this`latePolls, this`delivered, this`batches, this`saves
      ensures Valid() && InStep(update)
      ensures latePolls <= 1 && (running && !terminated ==> latePolls == 0)
      ensures terminated == Terminated() && mConnected == (old(mConnected) && !terminated)
      ensures !running ==> !mKeepRunning
      ensures running && !terminated ==> turnsUntilStop < old(turnsUntilStop)
    {
      Interfere();
      update, terminated := PollOnce(updateStateFile);
      running := true;
      if !terminated {
        Interfere();
        running := mKeepRunning;
      }
    }

    ghost predicate Cadence(n: nat, updateStateFile: int)
      reads this`mUseStateFile, this`saves, this`mStateFileUpdateInterval
    {
      if mUseStateFile then
        saves == SavesAfter(n, mStateFileUpdateInterval) && updateStateFile == UpdateAfter(n, mStateFileUpdateInterval)
      else
        saves == 0
    }
  }
}
