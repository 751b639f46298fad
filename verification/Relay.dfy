/** The packet relay of src/main.cpp and src/modules/packetWriter.cppm as a step machine.

  Three threads share two bounded queues and one flag.  The SEEDLink thread
  calls addPacketCallback, the tabulator forwards packets from the import queue
  to the export queue, and the publisher pops the export queue and writes to an
  RPC stream inside a retry loop.  Every access to a queue or to mKeepRunning is
  a step of its own, so any interleaving of these accesses is a run here.
 */
module Relay {

  /** Packet k is the k-th packet handed to addPacketCallback; the relay never
      looks at anything else. */
  type Packet = nat

  /** Queue capacities and the length of the retry schedule. */
  datatype Config = Config(importCapacity: nat, exportCapacity: nat, retries: nat) {
    /** parseIniFile refuses capacities that are not positive. */
    predicate Valid() {
      importCapacity > 0 && exportCapacity > 0
    }
  }

  /** Where the only producer of a queue stands in its drop-oldest push:
      about to compare size and capacity, about to pop the oldest packet, or
      about to push.  evicted counts the packets this call has popped so far. */
  datatype Producer =
    | Idle
    | Checking(packet: Packet, evicted: nat)
    | Evicting(packet: Packet, evicted: nat)
    | Pushing(packet: Packet, evicted: nat)
  {
    function InHand(): seq<Packet> {
      if Idle? then [] else [packet]
    }
  }

  /** A bounded queue with its producer.  accepted, dropped and rejected are
      histories: packets taken on, popped to make room, refused by try_push. */
  datatype Stage = Stage(
    producer: Producer,
    queue: seq<Packet>,
    accepted: nat,
    dropped: seq<Packet>,
    rejected: seq<Packet>)
  {
    /** The producer starts a call for packet. */
    function Accept(packet: Packet): Stage
      requires producer.Idle?
    {
      this.(producer := Checking(packet, 0), accepted := accepted + 1)
    }

    /** The consumer's successful try_pop. */
    function Take(): Stage
      requires queue != []
    {
      this.(queue := queue[1..])
    }

    /** The producer's next queue access. */
    function Produce(capacity: nat): Stage
      requires !producer.Idle?
    {
      match producer
      case Checking(p, e) =>
        this.(producer := if |queue| >= capacity then Evicting(p, e) else Pushing(p, e))
      case Evicting(p, e) =>
        if queue == [] then this.(producer := Pushing(p, e))
        else Stage(Checking(p, e + 1), queue[1..], accepted, dropped + [queue[0]], rejected)
      case Pushing(p, e) =>
        if |queue| < capacity then this.(producer := Idle, queue := queue + [p])
        else this.(producer := Idle, rejected := rejected + [p])
    }
  }

  const EMPTY_STAGE := Stage(Idle, [], 0, [], [])

  /** The statuses Finish can return, as sendPacketsToProxy tells them apart. */
  datatype Status = Ok | Unavailable | Cancelled | OtherError

  /** The publisher thread's position; k is kRetry and wrote is hadSuccessfulWrite. */
  datatype PublisherPc =
    | AtTop(k: int)
    | Waiting(k: int)
    | Opening(k: int)
    | InRpc(k: int, wrote: bool)
    | Popping(k: int, wrote: bool)
    | Writing(k: int, wrote: bool, packet: Packet)
    | Finishing(k: int, wrote: bool)
    | Leaving
    | Returned
    | Threw
  {
    function InHand(): seq<Packet> {
      if Writing? then [packet] else []
    }

    predicate Ended() {
      Returned? || Threw?
    }
  }

  /** The publisher with its histories: packets Write accepted and refused, RPCs
      opened, RPCs that wrote a packet, and the schedule entries waited for since
      the last such RPC ended. */
  datatype Publisher = Publisher(
    pc: PublisherPc,
    written: seq<Packet>,
    lost: seq<Packet>,
    rpcs: nat,
    successes: nat,
    waits: seq<int>)

  /** One statement of publishSynchronously or sendPacketsToProxy.  head is the
      oldest packet of the export queue if there is one, writeOk and status are
      what Write and Finish answer should this statement call them. */
  function PublisherNext(retries: nat, running: bool, head: seq<Packet>, p: Publisher,
                         writeOk: bool, status: Status): Publisher
    requires !p.pc.Ended()
    requires |head| <= 1
  {
    match p.pc
    case AtTop(k) =>
      if k >= retries || !running then p.(pc := Leaving)
      else if k >= 0 then p.(pc := Waiting(k), waits := p.waits + [k])
      else p.(pc := Opening(k))
    case Waiting(k) =>
      if running then p.(pc := Opening(k)) else p.(pc := Leaving)
    case Opening(k) =>
      p.(pc := InRpc(k, false), rpcs := p.rpcs + 1)
    case InRpc(k, wrote) =>
      if running then p.(pc := Popping(k, wrote)) else p.(pc := Finishing(k, wrote))
    case Popping(k, wrote) =>
      if head != [] then p.(pc := Writing(k, wrote, head[0])) else p.(pc := InRpc(k, wrote))
    case Writing(k, wrote, packet) =>
      if writeOk then
        p.(pc := InRpc(k, true), written := p.written + [packet],
           successes := if wrote then p.successes else p.successes + 1)
      else
        p.(pc := Finishing(k, wrote), lost := p.lost + [packet])
    case Finishing(k, wrote) =>
      var q := if wrote then p.(waits := []) else p;
      var again := AtTop((if wrote then -1 else k) + 1);
      (match status
       case Ok => q.(pc := if running then again else Leaving)
       case Unavailable => q.(pc := again)
       case Cancelled => q.(pc := if running then again else Leaving)
       case OtherError => q.(pc := Leaving))
    case Leaving =>
      p.(pc := if running then Threw else Returned)
  }

  /** The tabulator's position outside its push; while it pushes it is AtCheck
      and the export producer is not Idle. */
  datatype TabulatorPc = AtCheck | AtPop | Exited

  datatype State = State(
    running: bool,
    imports: Stage,
    tabulator: TabulatorPc,
    exports: Stage,
    publisher: Publisher)

  const START := State(true, EMPTY_STAGE, AtCheck, EMPTY_STAGE,
                       Publisher(AtTop(-1), [], [], 0, 0, []))

  datatype Thread = Main | SeedLink | TabulatorThread | PublisherThread

  /** The steps of the threads: clear mKeepRunning, enter addPacketCallback with
      the next packet, run its next queue access, check the flag or pop in the
      tabulator, run the next access of its push, run the publisher's next
      statement. */
  datatype Step =
    | RequestStop
    | Hand
    | Import
    | Tabulate
    | Export
    | Publish(writeOk: bool, status: Status)
  {
    function Owner(): Thread {
      match this
      case RequestStop => Main
      case Hand => SeedLink
      case Import => SeedLink
      case Tabulate => TabulatorThread
      case Export => TabulatorThread
      case Publish(_, _) => PublisherThread
    }
  }

  predicate Enabled(s: State, step: Step) {
    match step
    case RequestStop => true
    case Hand => s.imports.producer.Idle?
    case Import => !s.imports.producer.Idle?
    case Tabulate => !s.tabulator.Exited? && s.exports.producer.Idle?
    case Export => !s.tabulator.Exited? && !s.exports.producer.Idle?
    case Publish(_, _) => !s.publisher.pc.Ended()
  }

  function Head(queue: seq<Packet>): seq<Packet> {
    if queue == [] then [] else [queue[0]]
  }

  function Apply(cfg: Config, s: State, step: Step): State
    requires Enabled(s, step)
  {
    match step
    case RequestStop => s.(running := false)
    case Hand => s.(imports := s.imports.Accept(s.imports.accepted))
    case Import => s.(imports := s.imports.Produce(cfg.importCapacity))
    case Tabulate =>
      if s.tabulator.AtCheck? then
        s.(tabulator := if s.running then AtPop else Exited)
      else if s.imports.queue == [] then
        s.(tabulator := AtCheck)
      else
        s.(tabulator := AtCheck, imports := s.imports.Take(),
           exports := s.exports.Accept(s.imports.queue[0]))
    case Export => s.(exports := s.exports.Produce(cfg.exportCapacity))
    case Publish(writeOk, status) =>
      var p := PublisherNext(cfg.retries, s.running, Head(s.exports.queue), s.publisher, writeOk, status);
      s.(publisher := p,
         exports := if s.publisher.pc.Popping? && s.exports.queue != [] then s.exports.Take() else s.exports)
  }

  /** steps can be taken one after the other from s. */
  ghost predicate CanRun(cfg: Config, s: State, steps: seq<Step>)
    decreases |steps|
  {
    steps == [] || (Enabled(s, steps[0]) && CanRun(cfg, Apply(cfg, s, steps[0]), steps[1..]))
  }

  /** The state after taking steps from s. */
  ghost function After(cfg: Config, s: State, steps: seq<Step>): State
    requires CanRun(cfg, s, steps)
    decreases |steps|
  {
    if steps == [] then s else After(cfg, Apply(cfg, s, steps[0]), steps[1..])
  }
}
