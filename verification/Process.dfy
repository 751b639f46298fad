/** The worker functions of class Process in src/main.cpp and publishSynchronously
  in src/modules/packetWriter.cppm, statement by statement.

  Before each access to shared state the other threads may run.  Each access also
  takes the matching step of the relay machine, so every execution of these
  methods is a run of that machine and inherits its properties.
 */
module Processes {
  import opened Relay
  import opened RelayInvariant

  /** What the other threads leave alone while me is between two statements. */
  ghost predicate Rely(me: Thread, s: State, t: State) {
    && (t.running ==> s.running)
    && (me == SeedLink ==>
          && t.imports == s.imports.(queue := t.imports.queue)
          && IsSuffix(t.imports.queue, s.imports.queue))
    && (me == TabulatorThread ==>
          && t.tabulator == s.tabulator
          && t.exports == s.exports.(queue := t.exports.queue)
          && IsSuffix(t.exports.queue, s.exports.queue))
    && (me == PublisherThread ==> t.publisher == s.publisher)
  }

  /** Consumers only take from the front. */
  predicate IsSuffix(q: seq<Packet>, of: seq<Packet>) {
    |q| <= |of| && q == of[|of| - |q|..]
  }

  /** A call for packet has dropped nothing, or one older packet. */
  ghost predicate DroppedAtMostOne(before: seq<Packet>, after: seq<Packet>, packet: Packet) {
    after == before || (|after| == |before| + 1 && after[..|before|] == before && after[|before|] < packet)
  }

  /** No run of the other threads breaks what me relies on. */
  lemma {:induction false} OthersKeepRely(cfg: Config, me: Thread, s: State, steps: seq<Step>)
    requires CanRun(cfg, s, steps)
    requires forall i :: 0 <= i < |steps| ==> steps[i].Owner() != me
    ensures Rely(me, s, After(cfg, s, steps))
    decreases |steps|
  {
    if steps != [] {
      var t := Apply(cfg, s, steps[0]);
      OthersKeepRely(cfg, me, t, steps[1..]);
      assert steps[0].Owner() != me;
    }
  }

  class Process {
    const cfg: Config
    var importQueue: seq<Packet>
    var exportQueue: seq<Packet>
    var keepRunning: bool
    /** What Write accepted, over all streams. */
    var stream: seq<Packet>
    /** mSentPacketsCounter of the metrics. */
    var sentPackets: nat

    /** How often the loop the calling thread is in, which only the flag or a broken
        stream can end, still sees mKeepRunning set: any number, chosen anew for
        every RPC. */
    var turnsUntilStop: nat

    /** How many RPCs will still write a packet: any number. */
    var successesLeft: nat

    /** The relay machine's state, kept in step with the fields. */
    ghost var model: State

    ghost predicate Valid()
      reads this`model, this`keepRunning, this`importQueue, this`exportQueue, this`stream, this`sentPackets
    {
      && cfg.Valid() && Reachable(cfg, model)
      && model.running == keepRunning
      && model.imports.queue == importQueue
      && model.exports.queue == exportQueue
      && model.publisher.written == stream
      && |stream| == sentPackets
    }

    constructor (cfg: Config, turnsUntilStop: nat, successesLeft: nat)
      requires cfg.Valid()
      ensures Valid() && model == START && this.cfg == cfg
      ensures this.turnsUntilStop == turnsUntilStop && this.successesLeft == successesLeft
    {
      this.cfg := cfg;
      importQueue, exportQueue, keepRunning := [], [], true;
      stream, sentPackets := [], 0;
      this.turnsUntilStop, this.successesLeft := turnsUntilStop, successesLeft;
      model := START;
      new;
      StartReachable(cfg);
    }

    /** The other threads run for a while, or not at all.  The contract allows all they
        can do: anything that keeps the machine's invariant and what me relies on. */
    method Interfere(ghost me: Thread)
      requires Valid()
      modifies this
      ensures Valid() && Rely(me, old(model), model)
      ensures turnsUntilStop == old(turnsUntilStop) && successesLeft == old(successesLeft)
    {
      var stops: bool := *;
      if stops {
        RequestsStop();
      }
    }

    /** The same before a loop looks at the flag: in the end it finds it cleared. */
    method InterfereInLoop(ghost me: Thread)
      requires Valid()
      modifies this
      ensures Valid() && Rely(me, old(model), model)
      ensures turnsUntilStop <= old(turnsUntilStop) && (keepRunning ==> turnsUntilStop < old(turnsUntilStop))
      ensures successesLeft == old(successesLeft)
    {
      if turnsUntilStop > 0 {
        turnsUntilStop := turnsUntilStop - 1;
      } else {
        RequestsStop();
      }
    }

    /** Another thread clears the flag. */
    method RequestsStop()
      requires Valid()
      modifies this`keepRunning, this`model
      ensures Valid() && !keepRunning && model == old(model).(running := false)
    {
      StepReachable(cfg, model, RequestStop);
      model := Apply(cfg, model, RequestStop);
      keepRunning := false;
    }

    /** The machine's step for the statement the caller has just performed. */
    ghost method Took(step: Step)
      requires Reachable(cfg, model) && Enabled(model, step)
      modifies this`model
      ensures model == Apply(cfg, old(model), step) && Reachable(cfg, model)
    {
      StepReachable(cfg, model, step);
      model := Apply(cfg, model, step);
    }

    /** Process::addPacketCallback for the next packet.  The packet always gets in,
        at the back of the import queue, and at most one older packet makes room. */
    method AddPacketCallback(packet: Packet)
      requires Valid() && model.imports.producer.Idle? && packet == model.imports.accepted
      modifies this
      ensures Valid() && model.imports.producer.Idle?
      ensures model.imports.accepted == old(model.imports.accepted) + 1
      ensures importQueue != [] && importQueue[|importQueue| - 1] == packet
      ensures DroppedAtMostOne(old(model.imports.dropped), model.imports.dropped, packet)
    {
      Took(Hand);
      MakeRoomForImport(packet);
      Interfere(SeedLink);
      ReachableStages(cfg, model);
      if |importQueue| < cfg.importCapacity {
        importQueue := importQueue + [packet];
      }
      Took(Import);
    }

    /** The eviction loop of addPacketCallback. */
    method MakeRoomForImport(packet: Packet)
      requires Valid() && model.imports.producer == Checking(packet, 0)
      modifies this
      ensures Valid() && model.imports.accepted == old(model.imports.accepted)
      ensures model.imports.producer.Pushing? && model.imports.producer.packet == packet
      ensures DroppedAtMostOne(old(model.imports.dropped), model.imports.dropped, packet)
    {
      Interfere(SeedLink);
      var full := |importQueue| >= cfg.importCapacity;
      Took(Import);
      while full
        invariant Valid() && model.imports.accepted == old(model.imports.accepted)
        invariant !model.imports.producer.Idle? && model.imports.producer.packet == packet
        invariant if full then model.imports.producer.Evicting? else model.imports.producer.Pushing?
        invariant full ==> model.imports.dropped == old(model.imports.dropped)
        invariant DroppedAtMostOne(old(model.imports.dropped), model.imports.dropped, packet)
        decreases full
      {
        Interfere(SeedLink);
        if importQueue == [] {
          Took(Import);
          break;
        }
        OldestIsOlder(cfg, model);
        importQueue := importQueue[1..];
        Took(Import);
        Interfere(SeedLink);
        ReachableStages(cfg, model);
        full := |importQueue| >= cfg.importCapacity;
        Took(Import);
      }
    }

    /** Process::tabulateMetricsAndPropagatePackets; the metrics are in module
        Metrics and never stop a packet. */
    method TabulateMetricsAndPropagatePackets()
      requires Valid() && model.tabulator.AtCheck? && model.exports.producer.Idle?
      modifies this
      ensures Valid() && model.tabulator.Exited? && !keepRunning
    {
      InterfereInLoop(TabulatorThread);
      var running := keepRunning;
      Took(Tabulate);
      while running
        invariant Valid() && model.exports.producer.Idle?
        invariant if running then model.tabulator.AtPop? else model.tabulator.Exited? && !keepRunning
        decreases running, turnsUntilStop
      {
        Interfere(TabulatorThread);
        if importQueue != [] {
          var packet := importQueue[0];
          importQueue := importQueue[1..];
          Took(Tabulate);
          Propagate(packet);
        } else {
          Took(Tabulate);
        }
        InterfereInLoop(TabulatorThread);
        running := keepRunning;
        Took(Tabulate);
      }
    }

    /** The tabulator's push, with eviction, of a packet it has popped. */
    method Propagate(packet: Packet)
      requires Valid() && model.tabulator.AtCheck? && model.exports.producer == Checking(packet, 0)
      modifies this
      ensures Valid() && model.tabulator.AtCheck? && model.exports.producer.Idle?
      ensures turnsUntilStop == old(turnsUntilStop)
      ensures exportQueue != [] && exportQueue[|exportQueue| - 1] == packet
      ensures DroppedAtMostOne(old(model.exports.dropped), model.exports.dropped, packet)
    {
      MakeRoomForExport(packet);
      Interfere(TabulatorThread);
      ReachableStages(cfg, model);
      if |exportQueue| < cfg.exportCapacity {
        exportQueue := exportQueue + [packet];
      }
      Took(Export);
    }

    /** The eviction loop of the tabulator. */
    method MakeRoomForExport(packet: Packet)
      requires Valid() && model.tabulator.AtCheck? && model.exports.producer == Checking(packet, 0)
      modifies this
      ensures Valid() && model.tabulator.AtCheck?
      ensures model.exports.producer.Pushing? && model.exports.producer.packet == packet
      ensures DroppedAtMostOne(old(model.exports.dropped), model.exports.dropped, packet)
      ensures turnsUntilStop == old(turnsUntilStop)
    {
      Interfere(TabulatorThread);
      var full := |exportQueue| >= cfg.exportCapacity;
      Took(Export);
      while full
        invariant Valid() && model.tabulator.AtCheck?
        invariant !model.exports.producer.Idle? && model.exports.producer.packet == packet
        invariant if full then model.exports.producer.Evicting? else model.exports.producer.Pushing?
        invariant full ==> model.exports.dropped == old(model.exports.dropped)
        invariant DroppedAtMostOne(old(model.exports.dropped), model.exports.dropped, packet)
        invariant turnsUntilStop == old(turnsUntilStop)
        decreases full
      {
        Interfere(TabulatorThread);
        if exportQueue == [] {
          Took(Export);
          break;
        }
        OldestExportIsOlder(cfg, model);
        exportQueue := exportQueue[1..];
        Took(Export);
        Interfere(TabulatorThread);
        ReachableStages(cfg, model);
        full := |exportQueue| >= cfg.exportCapacity;
        Took(Export);
      }
    }

    /** One turn of the publishing loop: pop, and write what came out.  Write
        answers as it likes, except that only so many RPCs write a packet; broken
        says that it refused. */
    method PopAndWrite(ghost k: int, hadSuccessfulWrite: bool) returns (wrote: bool, broken: bool)
      requires Valid() && model.publisher.pc == Popping(k, hadSuccessfulWrite)
      modifies this
      ensures Valid()
      ensures model.publisher.pc == if broken then Finishing(k, hadSuccessfulWrite) else InRpc(k, hadSuccessfulWrite || wrote)
      ensures turnsUntilStop == old(turnsUntilStop)
      ensures successesLeft == old(successesLeft) - (if wrote && !hadSuccessfulWrite then 1 else 0)
      ensures !(wrote && broken)
      ensures sentPackets == old(sentPackets) + (if wrote then 1 else 0)
      ensures model.publisher.successes == old(model.publisher.successes) + (if wrote && !hadSuccessfulWrite then 1 else 0)
      ensures |model.publisher.lost| == |old(model.publisher.lost)| + (if broken then 1 else 0)
      ensures model.publisher.rpcs == old(model.publisher.rpcs)
    {
      wrote, broken := false, false;
      var found, packet := TryPop(k, hadSuccessfulWrite);
      if found {
        wrote := WritePacket(k, hadSuccessfulWrite, packet);
        broken := !wrote;
      }
    }

    /** try_pop on the export queue. */
    method TryPop(ghost k: int, ghost hadSuccessfulWrite: bool) returns (found: bool, packet: Packet)
      requires Valid() && model.publisher.pc == Popping(k, hadSuccessfulWrite)
      modifies this
      ensures Valid()
      ensures model.publisher == old(model.publisher).(pc := if found then Writing(k, hadSuccessfulWrite, packet)
                                                             else InRpc(k, hadSuccessfulWrite))
      ensures sentPackets == old(sentPackets)
      ensures turnsUntilStop == old(turnsUntilStop) && successesLeft == old(successesLeft)
    {
      Interfere(PublisherThread);
      found, packet := exportQueue != [], 0;
      if found {
        packet := exportQueue[0];
        exportQueue := exportQueue[1..];
      }
      Took(Publish(true, Status.Ok));
    }

    /** Write of a popped packet, and what publishSynchronously makes of the answer. */
    method WritePacket(ghost k: int, hadSuccessfulWrite: bool, packet: Packet) returns (writeOk: bool)
      requires Valid() && model.publisher.pc == Writing(k, hadSuccessfulWrite, packet)
      modifies this
      ensures Valid()
      ensures model.publisher.pc == if writeOk then InRpc(k, true) else Finishing(k, hadSuccessfulWrite)
      ensures turnsUntilStop == old(turnsUntilStop)
      ensures successesLeft == old(successesLeft) - (if writeOk && !hadSuccessfulWrite then 1 else 0)
      ensures sentPackets == old(sentPackets) + (if writeOk then 1 else 0)
      ensures model.publisher.successes == old(model.publisher.successes) + (if writeOk && !hadSuccessfulWrite then 1 else 0)
      ensures |model.publisher.lost| == |old(model.publisher.lost)| + (if writeOk then 0 else 1)
      ensures model.publisher.rpcs == old(model.publisher.rpcs)
    {
      Interfere(PublisherThread);
      writeOk := Write(hadSuccessfulWrite);
      Took(Publish(writeOk, Status.Ok));
      if writeOk {
        stream := stream + [packet];
        sentPackets := sentPackets + 1;
      }
    }

    /** What Write answers. */
    method Write(hadSuccessfulWrite: bool) returns (writeOk: bool)
      modifies this`successesLeft
      ensures successesLeft == old(successesLeft) - (if writeOk && !hadSuccessfulWrite then 1 else 0)
    {
      writeOk := *;
      if writeOk && !hadSuccessfulWrite {
        if successesLeft == 0 {
          writeOk := false;
        } else {
          successesLeft := successesLeft - 1;
        }
      }
    }

    /** The condition of the publishing loop. */
    method StillPublishing(ghost k: int, hadSuccessfulWrite: bool) returns (running: bool)
      requires Valid() && model.publisher.pc == InRpc(k, hadSuccessfulWrite)
      modifies this
      ensures Valid() && model.publisher == old(model.publisher).(pc := model.publisher.pc)
      ensures model.publisher.pc == if running then Popping(k, hadSuccessfulWrite) else Finishing(k, hadSuccessfulWrite)
      ensures turnsUntilStop <= old(turnsUntilStop) && (running ==> turnsUntilStop < old(turnsUntilStop))
      ensures successesLeft == old(successesLeft)
    {
      InterfereInLoop(PublisherThread);
      running := keepRunning;
      Took(Publish(true, Status.Ok));
    }

    /** PacketWriter::publishSynchronously, for kRetry = k.  Finish answers as it
        likes. */
    method PublishSynchronously(ghost k: int) returns (status: Status, hadSuccessfulWrite: bool)
      requires Valid() && model.publisher.pc == Opening(k)
      modifies this
      ensures Valid() && model.publisher.pc == Finishing(k, hadSuccessfulWrite)
      ensures successesLeft == old(successesLeft) - (if hadSuccessfulWrite then 1 else 0)
      ensures model.publisher.rpcs == old(model.publisher.rpcs) + 1
      ensures model.publisher.successes == old(model.publisher.successes) + (if hadSuccessfulWrite then 1 else 0)
      ensures sentPackets >= old(sentPackets) && (hadSuccessfulWrite <==> sentPackets > old(sentPackets))
      ensures |model.publisher.lost| <= |old(model.publisher.lost)| + 1
    {
      hadSuccessfulWrite := false;
      turnsUntilStop := *;
      Took(Publish(true, Status.Ok));
      var running := StillPublishing(k, false);
      var broken := false;
      while running && !broken
        invariant Valid() && successesLeft == old(successesLeft) - (if hadSuccessfulWrite then 1 else 0)
        invariant model.publisher.pc == if running && !broken then Popping(k, hadSuccessfulWrite)
                                        else Finishing(k, hadSuccessfulWrite)
        invariant model.publisher.rpcs == old(model.publisher.rpcs) + 1
        invariant model.publisher.successes == old(model.publisher.successes) + (if hadSuccessfulWrite then 1 else 0)
        invariant sentPackets >= old(sentPackets) && (hadSuccessfulWrite <==> sentPackets > old(sentPackets))
        invariant |model.publisher.lost| == |old(model.publisher.lost)| + (if broken then 1 else 0)
        decreases running && !broken, turnsUntilStop
      {
        var wrote;
        wrote, broken := PopAndWrite(k, hadSuccessfulWrite);
        if !broken {
          hadSuccessfulWrite := hadSuccessfulWrite || wrote;
          running := StillPublishing(k, hadSuccessfulWrite);
        }
      }
      status := *;
    }

    /** The checks of mKeepRunning before an RPC, with the wait between them for a
        retry. */
    method MayPublish(kRetry: int) returns (running: bool)
      requires Valid() && model.publisher.pc == AtTop(kRetry) && -1 <= kRetry < cfg.retries
      modifies this
      ensures Valid() && model.publisher.pc == if running then Opening(kRetry) else Leaving
      ensures model.publisher == old(model.publisher).(pc := model.publisher.pc, waits := model.publisher.waits)
      ensures successesLeft == old(successesLeft) && (running ==> old(keepRunning))
    {
      Interfere(PublisherThread);
      running := keepRunning;
      Took(Publish(true, Status.Ok));
      if running && kRetry >= 0 {
        Interfere(PublisherThread);
        running := keepRunning;
        Took(Publish(true, Status.Ok));
      }
    }

    /** Whether to go on after an RPC that ended with status. */
    method GoOnAfter(status: Status, ghost k: int, ghost wrote: bool) returns (more: bool)
      requires Valid() && model.publisher.pc == Finishing(k, wrote)
      modifies this
      ensures Valid() && model.publisher.pc == if more then AtTop((if wrote then -1 else k) + 1) else Leaving
      ensures model.publisher == old(model.publisher).(pc := model.publisher.pc, waits := model.publisher.waits)
      ensures successesLeft == old(successesLeft)
      ensures status.Unavailable? ==> more
      ensures status.OtherError? ==> !more
      ensures status.Ok? || status.Cancelled? ==> more == keepRunning
    {
      Interfere(PublisherThread);
      more := match status
        case Ok => keepRunning
        case Unavailable => true
        case Cancelled => keepRunning
        case OtherError => false;
      Took(Publish(true, status));
    }

    /** One pass through the retry loop; next is kRetry at the next one. */
    method Attempt(kRetry: int) returns (next: int, more: bool)
      requires Valid() && -1 <= kRetry < cfg.retries && model.publisher.pc == AtTop(kRetry)
      modifies this
      ensures Valid() && -1 <= next <= cfg.retries
      ensures model.publisher.pc == if more then AtTop(next) else Leaving
      ensures successesLeft <= old(successesLeft)
      ensures model.publisher.successes == old(model.publisher.successes) + old(successesLeft) - successesLeft
      ensures more ==> next == if successesLeft < old(successesLeft) then 0 else kRetry + 1
    {
      next := kRetry;
      more := MayPublish(kRetry);
      if more {
        var status, hadSuccessfulWrite := PublishSynchronously(kRetry);
        more := GoOnAfter(status, kRetry, hadSuccessfulWrite);
        if hadSuccessfulWrite {
          next := -1;
        }
        if more {
          next := next + 1;
        }
      }
    }

    /** Process::sendPacketsToProxy.  threw means it ended with the exception for a
        premature end.  It returns normally only when told to stop, and whatever
        the RPCs did their number stays within the schedule's bound.  Nobody need
        tell it: a pass either follows an RPC that wrote a packet, of which there
        are only so many, or moves on in the schedule. */
    method SendPacketsToProxy() returns (threw: bool)
      requires Valid() && model.publisher == START.publisher
      modifies this
      ensures Valid() && model.publisher.pc == if threw then Threw else Returned
      ensures !threw <==> !keepRunning
      ensures model.publisher.successes == old(successesLeft) - successesLeft
      ensures model.publisher.rpcs <= (cfg.retries + 1) + model.publisher.successes * cfg.retries
      ensures |model.publisher.lost| <= model.publisher.rpcs
    {
      var kRetry := -1;
      var more := true;
      while kRetry < cfg.retries && more
        invariant Valid() && -1 <= kRetry <= cfg.retries
        invariant model.publisher.pc == if more then AtTop(kRetry) else Leaving
        invariant model.publisher.successes == old(successesLeft) - successesLeft
        decreases more, successesLeft, cfg.retries - kRetry
      {
        kRetry, more := Attempt(kRetry);
      }
      Interfere(PublisherThread);
      if more {
        Took(Publish(true, Status.Ok));
      }
      threw := keepRunning;
      Took(Publish(true, Status.Ok));
      ReachableBoundsPublisher(cfg, model);
    }
  }

  /** A packet waiting in the import queue arrived before the one in hand. */
  lemma OldestIsOlder(cfg: Config, s: State)
    requires cfg.Valid() && Reachable(cfg, s) && s.imports.queue != [] && !s.imports.producer.Idle?
    ensures s.imports.queue[0] < s.imports.producer.packet
  {
    ReachableHasInv(cfg, s);
    var i := |ExportSide(s)|;
    var flow := Flow(s);
    assert flow[i] == s.imports.queue[0];
    assert flow[|flow| - 1] == s.imports.producer.packet;
  }

  lemma OldestExportIsOlder(cfg: Config, s: State)
    requires cfg.Valid() && Reachable(cfg, s) && s.exports.queue != [] && !s.exports.producer.Idle?
    ensures s.exports.queue[0] < s.exports.producer.packet
  {
    ReachableHasInv(cfg, s);
    FlowSplit(s);
    var i, j := |Ahead(s)|, |Ahead(s)| + |s.exports.queue|;
    var flow := Flow(s);
    assert flow[i] == s.exports.queue[0];
    assert flow[j] == Behind(s)[0] == s.exports.producer.packet;
  }

  lemma ReachableBoundsPublisher(cfg: Config, s: State)
    requires cfg.Valid() && Reachable(cfg, s)
    ensures s.publisher.rpcs <= (cfg.retries + 1) + s.publisher.successes * cfg.retries
    ensures |s.publisher.lost| <= s.publisher.rpcs
  {
    ReachableHasInv(cfg, s);
    BudgetClosedForm(cfg.retries, s.publisher.successes);
  }
}
