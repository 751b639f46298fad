/** What holds of every run of the relay, under every interleaving. */
module RelayProperties {
  import opened Relay
  import opened RelayInvariant

  // ----- Order, at-most-once and conservation -----

  lemma UptoHasEachOnce(n: nat, p: Packet)
    ensures multiset(Upto(n))[p] == if p < n then 1 else 0
    decreases n
  {
    if n > 0 {
      assert Upto(n) == Upto(n - 1) + [n - 1];
      UptoHasEachOnce(n - 1, p);
    } else {
      assert Upto(n) == [];
    }
  }

  lemma ConservedHasEachOnce(flow: seq<Packet>, gone: multiset<Packet>, n: nat)
    requires Conserved(flow, gone, n)
    ensures forall p: Packet :: multiset(flow)[p] + gone[p] == if p < n then 1 else 0
  {
    forall p: Packet
      ensures multiset(flow)[p] + gone[p] == if p < n then 1 else 0
    {
      UptoHasEachOnce(n, p);
      assert (multiset(flow) + gone)[p] == multiset(Upto(n))[p];
    }
  }

  /** Whatever the threads have done, the packets still under way are in arrival
      order from the written ones back to the callback, and every packet handed
      over is in exactly one place: under way or written, dropped from either
      queue, or lost on a broken stream. */
  lemma InArrivalOrderAndConserved(cfg: Config, steps: seq<Step>)
    requires cfg.Valid() && CanRun(cfg, START, steps)
    ensures var s := After(cfg, START, steps);
      && Increasing(Flow(s))
      && forall p: Packet ::
           multiset(Flow(s))[p] + Gone(s)[p]
           == if p < s.imports.accepted then 1 else 0
  {
    ReachableInv(cfg, steps);
    var s := After(cfg, START, steps);
    ConservedHasEachOnce(Flow(s), Gone(s), s.imports.accepted);
  }

  /** In particular, what the stream accepted is in arrival order without repeats. */
  lemma WrittenInOrder(cfg: Config, steps: seq<Step>, i: nat, j: nat)
    requires cfg.Valid() && CanRun(cfg, START, steps)
    requires i < j < |After(cfg, START, steps).publisher.written|
    ensures After(cfg, START, steps).publisher.written[i] < After(cfg, START, steps).publisher.written[j]
  {
    ReachableInv(cfg, steps);
    var s := After(cfg, START, steps);
    assert Flow(s)[i] == s.publisher.written[i] && Flow(s)[j] == s.publisher.written[j];
  }

  // ----- Bounded queues -----

  /** The queues never exceed their capacities, no try_push ever fails, no call
      evicts twice, and evictions never outnumber arrivals. */
  lemma QueuesStayBounded(cfg: Config, steps: seq<Step>)
    requires cfg.Valid() && CanRun(cfg, START, steps)
    ensures var s := After(cfg, START, steps);
      && |s.imports.queue| <= cfg.importCapacity && |s.exports.queue| <= cfg.exportCapacity
      && s.imports.rejected == [] && s.exports.rejected == []
      && (!s.imports.producer.Idle? ==> s.imports.producer.evicted <= 1)
      && (!s.exports.producer.Idle? ==> s.exports.producer.evicted <= 1)
      && |s.imports.dropped| <= s.imports.accepted && |s.exports.dropped| <= s.exports.accepted
  {
    ReachableInv(cfg, steps);
  }

  lemma {:induction false} CanRunPrefix(cfg: Config, s: State, steps: seq<Step>, i: nat)
    requires CanRun(cfg, s, steps) && i <= |steps|
    ensures CanRun(cfg, s, steps[..i])
    ensures CanRun(cfg, After(cfg, s, steps[..i]), steps[i..])
    ensures After(cfg, After(cfg, s, steps[..i]), steps[i..]) == After(cfg, s, steps)
    decreases i
  {
    if i == 0 {
      assert steps[i..] == steps;
    } else {
      CanRunPrefix(cfg, Apply(cfg, s, steps[0]), steps[1..], i - 1);
      assert steps[1..][..i - 1] == steps[..i][1..] && steps[1..][i - 1..] == steps[i..];
    }
  }

  /** The state in which step i of a run is taken. */
  ghost function StateAt(cfg: Config, steps: seq<Step>, i: nat): State
    requires CanRun(cfg, START, steps) && i <= |steps|
  {
    CanRunPrefix(cfg, START, steps, i);
    After(cfg, START, steps[..i])
  }

  lemma StateAtNext(cfg: Config, steps: seq<Step>, i: nat)
    requires CanRun(cfg, START, steps) && i < |steps|
    ensures Enabled(StateAt(cfg, steps, i), steps[i])
    ensures StateAt(cfg, steps, i + 1) == Apply(cfg, StateAt(cfg, steps, i), steps[i])
  {
    CanRunPrefix(cfg, START, steps, i);
    CanRunPrefix(cfg, START, steps, i + 1);
    CanRunPrefix(cfg, START, steps[..i + 1], i);
    assert steps[..i + 1][..i] == steps[..i] && steps[..i + 1][i..] == [steps[i]];
  }

  ghost predicate SeenFull(capacity: nat, st: Stage, p: Packet) {
    st.producer == Checking(p, 0) && |st.queue| >= capacity
  }

  lemma StagesAt(cfg: Config, steps: seq<Step>, i: nat)
    requires cfg.Valid() && CanRun(cfg, START, steps) && i <= |steps|
    ensures var s := StateAt(cfg, steps, i);
      StageInv(cfg.importCapacity, s.imports) && StageInv(cfg.exportCapacity, s.exports)
  {
    CanRunPrefix(cfg, START, steps, i);
    ReachableInv(cfg, steps[..i]);
  }

  /** A producer about to evict for packet p saw its queue full earlier in the
      same call, and has stood at the eviction ever since. */
  lemma {:induction false} EvictionSawFull(cfg: Config, steps: seq<Step>, i: nat)
      returns (j: nat)
    requires cfg.Valid() && CanRun(cfg, START, steps) && i <= |steps|
    requires StateAt(cfg, steps, i).imports.producer.Evicting?
    ensures var p := StateAt(cfg, steps, i).imports.producer.packet;
      && j < i && steps[j].Import? && SeenFull(cfg.importCapacity, StateAt(cfg, steps, j).imports, p)
      && forall m :: j < m <= i ==> StateAt(cfg, steps, m).imports.producer == Evicting(p, 0)
    decreases i
  {
    assert i > 0;
    StateAtNext(cfg, steps, i - 1);
    StagesAt(cfg, steps, i);
    if steps[i - 1].Import? {
      j := i - 1;
    } else {
      j := EvictionSawFull(cfg, steps, i - 1);
    }
  }

  lemma {:induction false} ExportEvictionSawFull(cfg: Config, steps: seq<Step>, i: nat)
      returns (j: nat)
    requires cfg.Valid() && CanRun(cfg, START, steps) && i <= |steps|
    requires StateAt(cfg, steps, i).exports.producer.Evicting?
    ensures var p := StateAt(cfg, steps, i).exports.producer.packet;
      && j < i && steps[j].Export? && SeenFull(cfg.exportCapacity, StateAt(cfg, steps, j).exports, p)
      && forall m :: j < m <= i ==> StateAt(cfg, steps, m).exports.producer == Evicting(p, 0)
    decreases i
  {
    assert i > 0;
    StateAtNext(cfg, steps, i - 1);
    StagesAt(cfg, steps, i);
    if steps[i - 1].Export? {
      j := i - 1;
    } else {
      j := ExportEvictionSawFull(cfg, steps, i - 1);
    }
  }

  // ----- The retry loop -----

  lemma InvBoundsPublisher(retries: nat, running: bool, p: Publisher)
    requires PublisherInv(retries, running, p)
    ensures p.rpcs <= (retries + 1) + p.successes * retries
    ensures |p.waits| <= retries && forall i :: 0 <= i < |p.waits| ==> p.waits[i] == i
  {
    BudgetClosedForm(retries, p.successes);
  }

  /** With a schedule of length n and s RPCs that wrote a packet, a whole run opens
      at most (n + 1) + s * n RPCs and loses at most one packet per RPC.  The waits
      since the last success are the schedule from entry 0 on.  A publisher that
      returned did so because it was told to stop. */
  lemma PublisherIsBounded(cfg: Config, steps: seq<Step>)
    requires cfg.Valid() && CanRun(cfg, START, steps)
    ensures var s := After(cfg, START, steps); var p := s.publisher;
      && p.rpcs <= (cfg.retries + 1) + p.successes * cfg.retries
      && |p.lost| <= p.rpcs
      && |p.waits| <= cfg.retries && (forall i :: 0 <= i < |p.waits| ==> p.waits[i] == i)
      && (p.pc.Returned? ==> !s.running)
  {
    ReachableInv(cfg, steps);
    var s := After(cfg, START, steps);
    InvBoundsPublisher(cfg.retries, s.running, s.publisher);
  }

  // ----- The retry loop ends by itself -----

  /** How many of the publisher's statements in a run were taken at a position of the
      given kind. */
  ghost function VisitsOf(cfg: Config, at: PublisherPc -> bool, s: State, steps: seq<Step>): nat
    requires CanRun(cfg, s, steps)
    decreases |steps|
  {
    if steps == [] then 0
    else (if steps[0].Publish? && at(s.publisher.pc) then 1 else 0) + VisitsOf(cfg, at, Apply(cfg, s, steps[0]), steps[1..])
  }

  predicate AtTheTop(pc: PublisherPc) {
    pc.AtTop?
  }

  /** Positions of the retry loop outside the polling and writing of an RPC. */
  predicate InRetryLoop(pc: PublisherPc) {
    pc.AtTop? || pc.Waiting? || pc.Opening? || pc.Finishing? || pc.Leaving?
  }

  /** A pass through the loop that has not opened its RPC yet, or never will. */
  function PassPending(pc: PublisherPc): nat {
    if pc.AtTop? || pc.InRpc? || pc.Popping? || pc.Writing? || pc.Finishing? then 0 else 1
  }

  lemma PassCounts(retries: nat, running: bool, head: seq<Packet>, p: Publisher, writeOk: bool, status: Status)
    requires !p.pc.Ended() && |head| <= 1
    ensures var q := PublisherNext(retries, running, head, p, writeOk, status);
      (if AtTheTop(p.pc) then 1 else 0) + p.rpcs + PassPending(p.pc) <= q.rpcs + PassPending(q.pc)
  {
  }

  lemma {:induction false} PassesCount(cfg: Config, s: State, steps: seq<Step>)
    requires CanRun(cfg, s, steps)
    ensures var t := After(cfg, s, steps);
      VisitsOf(cfg, AtTheTop, s, steps) + s.publisher.rpcs + PassPending(s.publisher.pc)
      <= t.publisher.rpcs + PassPending(t.publisher.pc)
    decreases |steps|
  {
    if steps != [] {
      PassesCount(cfg, Apply(cfg, s, steps[0]), steps[1..]);
      if steps[0].Publish? {
        PassCounts(cfg.retries, s.running, Head(s.exports.queue), s.publisher, steps[0].writeOk, steps[0].status);
      }
    }
  }

  /** Statements of the retry loop left if no further RPC writes a packet: four for
      each attempt the schedule still holds, three for the first, which does not wait,
      and two to look at the schedule and leave. */
  function Patience(retries: nat, pc: PublisherPc): int {
    match pc
    case AtTop(k) => if k == -1 then 4 * retries + 5 else 4 * (retries - k) + 2
    case Waiting(k) => 4 * (retries - k) + 1
    case Opening(k) => 4 * (retries - k)
    case InRpc(k, wrote) => PatienceInRpc(retries, k, wrote)
    case Popping(k, wrote) => PatienceInRpc(retries, k, wrote)
    case Writing(k, wrote, _) => PatienceInRpc(retries, k, wrote)
    case Finishing(k, wrote) => PatienceInRpc(retries, k, wrote)
    case Leaving => 1
    case Returned => 0
    case Threw => 0
  }

  function PatienceInRpc(retries: nat, k: int, wrote: bool): int {
    if wrote then 4 * retries + 3 else 4 * (retries - k) - 1
  }

  /** Of the pair of future successes and attempts left, every statement of the loop
      takes from the second, and an RPC that writes its first packet from the first. */
  lemma PatienceRunsDown(retries: nat, running: bool, head: seq<Packet>, p: Publisher, writeOk: bool, status: Status)
    requires WaitsFit(retries, p.pc, p.waits) && !p.pc.Ended() && |head| <= 1
    ensures var q := PublisherNext(retries, running, head, p, writeOk, status);
      var spent := if InRetryLoop(p.pc) then 1 else 0;
      if q.successes == p.successes then spent + Patience(retries, q.pc) <= Patience(retries, p.pc)
      else q.successes == p.successes + 1 && spent + Patience(retries, q.pc) <= Patience(retries, p.pc) + 4 * retries
  {
  }

  /** What the successes so far have added. */
  function Renewed(retries: nat, successes: nat): nat {
    if successes == 0 then 0 else Renewed(retries, successes - 1) + 4 * retries
  }

  lemma {:induction false} RenewedClosedForm(retries: nat, successes: nat)
    ensures Renewed(retries, successes) == 4 * (successes * retries)
  {
    if successes > 0 {
      RenewedClosedForm(retries, successes - 1);
      assert (successes - 1) * retries + retries == successes * retries;
    }
  }

  lemma {:induction false} PatienceBoundsRun(cfg: Config, s: State, steps: seq<Step>)
    requires CanRun(cfg, s, steps) && PublisherInv(cfg.retries, s.running, s.publisher)
    ensures var t := After(cfg, s, steps); var n := cfg.retries;
      VisitsOf(cfg, InRetryLoop, s, steps) + Patience(n, t.publisher.pc) + Renewed(n, s.publisher.successes)
      <= Patience(n, s.publisher.pc) + Renewed(n, t.publisher.successes)
    decreases |steps|
  {
    if steps != [] {
      StepKeepsPublisher(cfg, s, steps[0]);
      PatienceStep(cfg, s, steps[0]);
      PatienceBoundsRun(cfg, Apply(cfg, s, steps[0]), steps[1..]);
    }
  }

  lemma PatienceStep(cfg: Config, s: State, step: Step)
    requires Enabled(s, step) && WaitsFit(cfg.retries, s.publisher.pc, s.publisher.waits)
    ensures var t := Apply(cfg, s, step); var n := cfg.retries;
      (if step.Publish? && InRetryLoop(s.publisher.pc) then 1 else 0)
      + Patience(n, t.publisher.pc) + Renewed(n, s.publisher.successes)
      <= Patience(n, s.publisher.pc) + Renewed(n, t.publisher.successes)
  {
    if step.Publish? {
      var p := s.publisher;
      var q := PublisherNext(cfg.retries, s.running, Head(s.exports.queue), p, step.writeOk, step.status);
      PatienceRunsDown(cfg.retries, s.running, Head(s.exports.queue), p, step.writeOk, step.status);
      RenewedGrows(cfg.retries, p.successes, q.successes);
    } else {
      assert Apply(cfg, s, step).publisher == s.publisher;
    }
  }

  lemma RenewedGrows(retries: nat, before: nat, after: nat)
    requires before <= after <= before + 1
    ensures Renewed(retries, after) == Renewed(retries, before) + 4 * retries * (after - before)
  {
  }

  lemma PatienceEnds(retries: nat, running: bool, p: Publisher)
    requires PublisherInv(retries, running, p)
    ensures Patience(retries, p.pc) >= 0
    ensures Patience(retries, p.pc) == 0 <==> p.pc.Ended()
    ensures running && p.pc.Ended() ==> p.pc.Threw?
  {
  }

  /** The retry loop ends by itself.  With a schedule of length n, s RPCs that wrote
      a packet and r RPCs in all, the loop is passed at most r + 1 times, which is at
      most (n + 1) + s * n + 1; and outside the RPCs' own polling and writing it takes
      at most 4 * n + 5 statements, and 4 * n more for every success.  When these are
      used up, as BoundIsAttained shows can happen, it has ended, and if nobody has
      cleared the flag, with the exception. */
  lemma RetryLoopEnds(cfg: Config, steps: seq<Step>)
    requires cfg.Valid() && CanRun(cfg, START, steps)
    ensures var t := After(cfg, START, steps); var p, n := t.publisher, cfg.retries;
      && VisitsOf(cfg, AtTheTop, START, steps) <= p.rpcs + 1 <= (n + 1) + p.successes * n + 1
      && VisitsOf(cfg, InRetryLoop, START, steps) <= 4 * n + 5 + 4 * (p.successes * n)
      && (VisitsOf(cfg, InRetryLoop, START, steps) == 4 * n + 5 + 4 * (p.successes * n) ==> p.pc.Ended())
      && (p.pc.Ended() && t.running ==> p.pc.Threw?)
  {
    var t := After(cfg, START, steps);
    PublisherIsBounded(cfg, steps);
    ReachablePublisher(cfg, steps);
    PassesCount(cfg, START, steps);
    StartPublisher(cfg);
    PatienceBoundsRun(cfg, START, steps);
    PatienceEnds(cfg.retries, t.running, t.publisher);
    RenewedClosedForm(cfg.retries, t.publisher.successes);
  }

  lemma StartPublisher(cfg: Config)
    ensures PublisherInv(cfg.retries, START.running, START.publisher)
  {
    StartInv(cfg);
  }

  lemma ReachablePublisher(cfg: Config, steps: seq<Step>)
    requires cfg.Valid() && CanRun(cfg, START, steps)
    ensures var t := After(cfg, START, steps); PublisherInv(cfg.retries, t.running, t.publisher)
  {
    ReachableInv(cfg, steps);
  }

  /** From any moment of a run on, as long as no RPC writes a packet, the schedule's
      remaining attempts are all that is left: a publisher that nobody stops throws. */
  lemma GivesUp(cfg: Config, before: seq<Step>, rest: seq<Step>)
    requires cfg.Valid() && CanRun(cfg, START, before) && CanRun(cfg, After(cfg, START, before), rest)
    requires After(cfg, After(cfg, START, before), rest).publisher.successes == After(cfg, START, before).publisher.successes
    ensures var s := After(cfg, START, before); var t := After(cfg, s, rest); var n := cfg.retries;
      && VisitsOf(cfg, InRetryLoop, s, rest) <= Patience(n, s.publisher.pc) <= 4 * n + 5
      && (t.running && VisitsOf(cfg, InRetryLoop, s, rest) == Patience(n, s.publisher.pc) ==> t.publisher.pc.Threw?)
  {
    var s := After(cfg, START, before);
    var t := After(cfg, s, rest);
    ReachablePublisher(cfg, before);
    RunKeepsPublisher(cfg, s, rest);
    PatienceBoundsRun(cfg, s, rest);
    PatienceEnds(cfg.retries, t.running, t.publisher);
    PatienceIsBounded(cfg.retries, s.running, s.publisher);
  }

  lemma PatienceIsBounded(retries: nat, running: bool, p: Publisher)
    requires PublisherInv(retries, running, p)
    ensures Patience(retries, p.pc) <= 4 * retries + 5
  {
  }

  lemma {:induction false} RunKeepsPublisher(cfg: Config, s: State, steps: seq<Step>)
    requires CanRun(cfg, s, steps) && PublisherInv(cfg.retries, s.running, s.publisher)
    ensures var t := After(cfg, s, steps); PublisherInv(cfg.retries, t.running, t.publisher)
    decreases |steps|
  {
    if steps != [] {
      StepKeepsPublisher(cfg, s, steps[0]);
      RunKeepsPublisher(cfg, Apply(cfg, s, steps[0]), steps[1..]);
    }
  }

  // ----- The bounds are attained -----

  lemma {:induction false} VisitsExtend(cfg: Config, at: PublisherPc -> bool, s: State, steps: seq<Step>, step: Step)
    requires CanRun(cfg, s, steps) && Enabled(After(cfg, s, steps), step)
    ensures CanRun(cfg, s, steps + [step])
    ensures VisitsOf(cfg, at, s, steps + [step])
            == VisitsOf(cfg, at, s, steps) + (if step.Publish? && at(After(cfg, s, steps).publisher.pc) then 1 else 0)
    decreases |steps|
  {
    RunExtends(cfg, s, steps, step);
    if steps == [] {
      assert steps + [step] == [step];
      assert VisitsOf(cfg, at, Apply(cfg, s, step), []) == 0;
    } else {
      VisitsExtend(cfg, at, Apply(cfg, s, steps[0]), steps[1..], step);
      assert (steps + [step])[0] == steps[0] && (steps + [step])[1..] == steps[1..] + [step];
    }
  }

  /** steps lead from the start to s, and every statement of the retry loop so far has
      taken one from the patience, and every pass has opened its RPC. */
  ghost predicate Came(cfg: Config, steps: seq<Step>, s: State) {
    && CanRun(cfg, START, steps) && After(cfg, START, steps) == s
    && VisitsOf(cfg, InRetryLoop, START, steps) + Patience(cfg.retries, s.publisher.pc)
       == 4 * cfg.retries + 5 + Renewed(cfg.retries, s.publisher.successes)
    && VisitsOf(cfg, AtTheTop, START, steps) == s.publisher.rpcs + PassPending(s.publisher.pc)
  }

  /** The step takes from patience and passes no more than it uses. */
  predicate WastesNothing(cfg: Config, p: Publisher, q: Publisher) {
    && (if InRetryLoop(p.pc) then 1 else 0) + Patience(cfg.retries, q.pc) + Renewed(cfg.retries, p.successes)
       == Patience(cfg.retries, p.pc) + Renewed(cfg.retries, q.successes)
    && (if AtTheTop(p.pc) then 1 else 0) + p.rpcs + PassPending(p.pc) == q.rpcs + PassPending(q.pc)
  }

  lemma Goes(cfg: Config, steps: seq<Step>, s: State, step: Step) returns (more: seq<Step>, t: State)
    requires Came(cfg, steps, s) && Enabled(s, step)
    requires step.Publish? ==> WastesNothing(cfg, s.publisher, Apply(cfg, s, step).publisher)
    ensures t == Apply(cfg, s, step) && Came(cfg, more, t)
  {
    RunExtends(cfg, START, steps, step);
    VisitsExtend(cfg, InRetryLoop, START, steps, step);
    VisitsExtend(cfg, AtTheTop, START, steps, step);
    more, t := steps + [step], Apply(cfg, s, step);
    assert !step.Publish? ==> t.publisher == s.publisher;
  }

  predicate Resting(st: Stage, queue: seq<Packet>) {
    st.producer.Idle? && st.queue == queue
  }

  /** Nobody has asked to stop, and no packet is on its way to the publisher. */
  predicate AtRest(s: State) {
    s.running && s.tabulator.AtCheck? && Resting(s.imports, []) && Resting(s.exports, [])
  }

  lemma Accepts(cfg: Config, steps: seq<Step>, s: State) returns (more: seq<Step>, t: State)
    requires cfg.Valid() && Came(cfg, steps, s) && AtRest(s)
    ensures Came(cfg, more, t) && t == s.(imports := t.imports) && Resting(t.imports, [s.imports.accepted])
  {
    more, t := Goes(cfg, steps, s, Hand);
    more, t := Goes(cfg, more, t, Import);
    more, t := Goes(cfg, more, t, Import);
  }

  lemma Passes(cfg: Config, steps: seq<Step>, s: State, p: Packet) returns (more: seq<Step>, t: State)
    requires Came(cfg, steps, s) && s.running && s.tabulator.AtCheck?
    requires Resting(s.imports, [p]) && Resting(s.exports, [])
    ensures Came(cfg, more, t) && t == s.(imports := t.imports, exports := t.exports)
    ensures Resting(t.imports, []) && t.exports == s.exports.Accept(p)
  {
    more, t := Goes(cfg, steps, s, Tabulate);
    more, t := Goes(cfg, more, t, Tabulate);
  }

  lemma Exports(cfg: Config, steps: seq<Step>, s: State, p: Packet) returns (more: seq<Step>, t: State)
    requires cfg.Valid() && Came(cfg, steps, s) && s.tabulator.AtCheck?
    requires s.exports.producer == Checking(p, 0) && s.exports.queue == []
    ensures Came(cfg, more, t) && t == s.(exports := t.exports) && Resting(t.exports, [p])
  {
    more, t := Goes(cfg, steps, s, Export);
    more, t := Goes(cfg, more, t, Export);
  }

  /** A packet arrives and comes as far as the export queue. */
  lemma Arrives(cfg: Config, steps: seq<Step>, s: State) returns (more: seq<Step>, t: State)
    requires cfg.Valid() && Came(cfg, steps, s) && AtRest(s)
    ensures Came(cfg, more, t) && t == s.(imports := t.imports, exports := t.exports)
    ensures Resting(t.imports, []) && Resting(t.exports, [s.imports.accepted])
  {
    var p := s.imports.accepted;
    more, t := Accepts(cfg, steps, s);
    more, t := Passes(cfg, more, t, p);
    more, t := Exports(cfg, more, t, p);
  }

  /** The publisher's next statement; Finish will say that the server is unavailable. */
  lemma Publishes(cfg: Config, steps: seq<Step>, s: State, writeOk: bool) returns (more: seq<Step>, t: State)
    requires Came(cfg, steps, s) && s.running && !s.publisher.pc.Ended() && !s.publisher.pc.Popping?
    requires WastesNothing(cfg, s.publisher, PublisherNext(cfg.retries, true, Head(s.exports.queue), s.publisher, writeOk, Unavailable))
    ensures Came(cfg, more, t)
    ensures t == s.(publisher := PublisherNext(cfg.retries, true, Head(s.exports.queue), s.publisher, writeOk, Unavailable))
  {
    more, t := Goes(cfg, steps, s, Publish(writeOk, Unavailable));
  }

  /** Inside an RPC a packet arrives and is popped. */
  lemma Fetches(cfg: Config, steps: seq<Step>, s: State) returns (more: seq<Step>, t: State)
    requires cfg.Valid() && Came(cfg, steps, s) && AtRest(s) && s.publisher.pc.InRpc?
    ensures Came(cfg, more, t) && AtRest(t)
    ensures t.publisher == s.publisher.(pc := Writing(s.publisher.pc.k, s.publisher.pc.wrote, s.imports.accepted))
  {
    more, t := Arrives(cfg, steps, s);
    more, t := Publishes(cfg, more, t, false);
    more, t := Goes(cfg, more, t, Publish(false, Unavailable));
  }

  lemma Opens(cfg: Config, steps: seq<Step>, s: State) returns (more: seq<Step>, t: State)
    requires Came(cfg, steps, s) && AtRest(s) && s.publisher.pc.AtTop? && -1 <= s.publisher.pc.k < cfg.retries
    ensures Came(cfg, more, t) && AtRest(t) && t.publisher.pc == InRpc(s.publisher.pc.k, false)
    ensures t.publisher == s.publisher.(pc := t.publisher.pc, waits := t.publisher.waits, rpcs := s.publisher.rpcs + 1)
  {
    more, t := Publishes(cfg, steps, s, false);
    if s.publisher.pc.k >= 0 {
      more, t := Publishes(cfg, more, t, false);
    }
    more, t := Publishes(cfg, more, t, false);
  }

  /** Write refuses the packet, and the loop goes on with its next attempt. */
  lemma Breaks(cfg: Config, steps: seq<Step>, s: State) returns (more: seq<Step>, t: State)
    requires Came(cfg, steps, s) && AtRest(s) && s.publisher.pc.Writing? && -1 <= s.publisher.pc.k
    ensures Came(cfg, more, t) && AtRest(t)
    ensures t.publisher.pc == AtTop(if s.publisher.pc.wrote then 0 else s.publisher.pc.k + 1)
    ensures t.publisher.rpcs == s.publisher.rpcs && t.publisher.successes == s.publisher.successes
    ensures |t.publisher.lost| == |s.publisher.lost| + 1
  {
    more, t := Publishes(cfg, steps, s, false);
    more, t := Publishes(cfg, more, t, false);
  }

  lemma Fails(cfg: Config, steps: seq<Step>, s: State) returns (more: seq<Step>, t: State)
    requires cfg.Valid() && Came(cfg, steps, s) && AtRest(s) && s.publisher.pc.AtTop? && -1 <= s.publisher.pc.k < cfg.retries
    ensures Came(cfg, more, t) && AtRest(t) && t.publisher.pc == AtTop(s.publisher.pc.k + 1)
    ensures t.publisher.rpcs == s.publisher.rpcs + 1 && t.publisher.successes == s.publisher.successes
    ensures |t.publisher.lost| == |s.publisher.lost| + 1
  {
    more, t := Opens(cfg, steps, s);
    more, t := Fetches(cfg, more, t);
    more, t := Breaks(cfg, more, t);
  }

  /** On the last attempt, an RPC that writes one packet and breaks on the next. */
  lemma Succeeds(cfg: Config, steps: seq<Step>, s: State) returns (more: seq<Step>, t: State)
    requires cfg.Valid() && Came(cfg, steps, s) && AtRest(s) && s.publisher.pc == AtTop(cfg.retries - 1)
    ensures Came(cfg, more, t) && AtRest(t) && t.publisher.pc == AtTop(0)
    ensures t.publisher.rpcs == s.publisher.rpcs + 1 && t.publisher.successes == s.publisher.successes + 1
    ensures |t.publisher.lost| == |s.publisher.lost| + 1
  {
    more, t := Opens(cfg, steps, s);
    more, t := Fetches(cfg, more, t);
    more, t := Publishes(cfg, more, t, true);
    more, t := Fetches(cfg, more, t);
    more, t := Breaks(cfg, more, t);
  }

  lemma FailsUpTo(cfg: Config, steps: seq<Step>, s: State, k: int) returns (more: seq<Step>, t: State)
    requires cfg.Valid() && Came(cfg, steps, s) && AtRest(s) && s.publisher.pc.AtTop? && -1 <= s.publisher.pc.k <= k <= cfg.retries
    ensures Came(cfg, more, t) && AtRest(t) && t.publisher.pc == AtTop(k)
    ensures t.publisher.rpcs == s.publisher.rpcs + (k - s.publisher.pc.k) && t.publisher.successes == s.publisher.successes
    ensures |t.publisher.lost| == |s.publisher.lost| + (k - s.publisher.pc.k)
    decreases k - s.publisher.pc.k
  {
    more, t := steps, s;
    if s.publisher.pc.k < k {
      more, t := Fails(cfg, more, t);
      more, t := FailsUpTo(cfg, more, t, k);
    }
  }

  lemma {:induction false} SucceedsLate(cfg: Config, successes: nat) returns (steps: seq<Step>, s: State)
    requires cfg.Valid() && (cfg.retries > 0 || successes <= 1)
    ensures Came(cfg, steps, s) && AtRest(s) && s.publisher.pc == AtTop(if successes == 0 then -1 else 0)
    ensures s.publisher.rpcs == (if successes == 0 then 0 else Budget(cfg.retries, successes - 1))
    ensures s.publisher.successes == successes && |s.publisher.lost| == s.publisher.rpcs
  {
    if successes == 0 {
      steps, s := [], START;
    } else {
      steps, s := SucceedsLate(cfg, successes - 1);
      steps, s := FailsUpTo(cfg, steps, s, cfg.retries - 1);
      steps, s := Succeeds(cfg, steps, s);
    }
  }

  /** All these bounds are attained, by a run of the whole relay: for every schedule
      and number of successes there is one in which the flag stays set, every success
      comes on the last attempt, every RPC loses a packet, the schedule and the
      patience are used up, and the publisher throws. */
  lemma BoundIsAttained(cfg: Config, successes: nat) returns (steps: seq<Step>)
    requires cfg.Valid() && (cfg.retries > 0 || successes <= 1)
    ensures CanRun(cfg, START, steps)
    ensures var s := After(cfg, START, steps); var p, n := s.publisher, cfg.retries;
      && s.running && p.pc.Threw? && p.successes == successes
      && p.rpcs == (n + 1) + successes * n && |p.lost| == p.rpcs
      && VisitsOf(cfg, AtTheTop, START, steps) == p.rpcs + 1
      && VisitsOf(cfg, InRetryLoop, START, steps) == 4 * n + 5 + 4 * (successes * n)
  {
    var s;
    steps, s := SucceedsLate(cfg, successes);
    steps, s := FailsUpTo(cfg, steps, s, cfg.retries);
    steps, s := Throws(cfg, steps, s);
    BudgetClosedForm(cfg.retries, successes);
    RenewedClosedForm(cfg.retries, successes);
  }

  lemma Throws(cfg: Config, steps: seq<Step>, s: State) returns (more: seq<Step>, t: State)
    requires Came(cfg, steps, s) && s.running && s.publisher.pc == AtTop(cfg.retries)
    ensures Came(cfg, more, t) && t == s.(publisher := s.publisher.(pc := Threw))
  {
    more, t := Publishes(cfg, steps, s, false);
    more, t := Publishes(cfg, more, t, false);
  }

  // ----- Shutdown -----

  /** Own statements the publisher has left once mKeepRunning is false. */
  function PublisherDistance(pc: PublisherPc): nat {
    match pc
    case Popping(_, _) => 6
    case Writing(_, _, _) => 5
    case Opening(_) => 5
    case InRpc(_, _) => 4
    case Finishing(_, _) => 3
    case AtTop(_) => 2
    case Waiting(_) => 2
    case Leaving => 1
    case Returned => 0
    case Threw => 0
  }

  function TabulatorDistance(s: State): int {
    if s.tabulator.Exited? then 0
    else match s.exports.producer
      case Idle => if s.tabulator.AtPop? then 6 else 1
      case Checking(_, e) => 5 - 2 * e
      case Evicting(_, _) => 4
      case Pushing(_, _) => 2
  }

  function StepsOf(thread: Thread, steps: seq<Step>): nat {
    if steps == [] then 0
    else (if steps[0].Owner() == thread then 1 else 0) + StepsOf(thread, steps[1..])
  }

  /** Packets the publisher may still write, RPCs it may still open. */
  function WritesPending(pc: PublisherPc): nat {
    if pc.Popping? || pc.Writing? then 1 else 0
  }

  function OpensPending(pc: PublisherPc): nat {
    if pc.Opening? then 1 else 0
  }

  ghost predicate WindsDown(s: State, t: State, publisherSteps: nat, tabulatorSteps: nat) {
    && !t.running
    && publisherSteps + PublisherDistance(t.publisher.pc) <= PublisherDistance(s.publisher.pc)
    && tabulatorSteps + TabulatorDistance(t) <= TabulatorDistance(s)
    && t.publisher.rpcs + OpensPending(t.publisher.pc) <= s.publisher.rpcs + OpensPending(s.publisher.pc)
    && |t.publisher.written| + WritesPending(t.publisher.pc) <= |s.publisher.written| + WritesPending(s.publisher.pc)
  }

  /** Both queues' invariants and the tabulator's rest between pushes. */
  ghost predicate Winding(cfg: Config, s: State) {
    && !s.running
    && StageInv(cfg.importCapacity, s.imports) && StageInv(cfg.exportCapacity, s.exports)
    && (s.exports.producer.Idle? || s.tabulator.AtCheck?)
  }

  lemma StepWindsDown(cfg: Config, s: State, step: Step)
    requires cfg.Valid() && Winding(cfg, s) && Enabled(s, step)
    ensures var t := Apply(cfg, s, step);
      && Winding(cfg, t)
      && WindsDown(s, t, if step.Publish? then 1 else 0,
                   if step.Tabulate? || step.Export? then 1 else 0)
  {
    StepKeepsStages(cfg, s, step);
  }

  lemma {:induction false} RunWindsDown(cfg: Config, s: State, steps: seq<Step>)
    requires cfg.Valid() && Winding(cfg, s) && CanRun(cfg, s, steps)
    ensures Winding(cfg, After(cfg, s, steps))
    ensures WindsDown(s, After(cfg, s, steps),
                      StepsOf(PublisherThread, steps), StepsOf(TabulatorThread, steps))
    decreases |steps|
  {
    if steps != [] {
      StepWindsDown(cfg, s, steps[0]);
      RunWindsDown(cfg, Apply(cfg, s, steps[0]), steps[1..]);
    }
  }

  lemma {:induction false} RunKeepsEnd(cfg: Config, s: State, steps: seq<Step>)
    requires CanRun(cfg, s, steps) && !s.running
    ensures After(cfg, s, steps).publisher.pc.Threw? ==> s.publisher.pc.Threw?
    decreases |steps|
  {
    if steps != [] {
      RunKeepsEnd(cfg, Apply(cfg, s, steps[0]), steps[1..]);
    }
  }

  lemma ReachableWinds(cfg: Config, steps: seq<Step>)
    requires cfg.Valid() && CanRun(cfg, START, steps) && !After(cfg, START, steps).running
    ensures Winding(cfg, After(cfg, START, steps))
  {
    ReachableInv(cfg, steps);
  }

  /** Six statements are the most; none are left exactly when the thread has ended. */
  lemma DistancesAreShort(cfg: Config, s: State)
    requires cfg.Valid() && Winding(cfg, s)
    ensures PublisherDistance(s.publisher.pc) <= 6
    ensures PublisherDistance(s.publisher.pc) == 0 <==> s.publisher.pc.Ended()
    ensures 0 <= TabulatorDistance(s) <= 6
    ensures TabulatorDistance(s) == 0 <==> s.tabulator.Exited?
  {
  }

  /** Once mKeepRunning is false, the publisher and the tabulator each take at most
      six more statements of their own, however the threads interleave: no more than
      their distances, and when they have taken those they have ended, the publisher
      without an exception unless it had thrown before.  A publisher already past
      its check may open one RPC and write one packet, and nothing more. */
  lemma StopsPromptly(cfg: Config, before: seq<Step>, rest: seq<Step>)
    requires cfg.Valid() && CanRun(cfg, START, before)
    requires !After(cfg, START, before).running && CanRun(cfg, After(cfg, START, before), rest)
    ensures var s := After(cfg, START, before); var t := After(cfg, s, rest);
      && StepsOf(PublisherThread, rest) <= PublisherDistance(s.publisher.pc) <= 6
      && StepsOf(TabulatorThread, rest) <= TabulatorDistance(s) <= 6
      && (StepsOf(PublisherThread, rest) == PublisherDistance(s.publisher.pc) ==> t.publisher.pc.Ended())
      && (StepsOf(TabulatorThread, rest) == TabulatorDistance(s) ==> t.tabulator.Exited?)
      && (t.publisher.pc.Threw? ==> s.publisher.pc.Threw?)
      && t.publisher.rpcs <= s.publisher.rpcs + OpensPending(s.publisher.pc)
      && |t.publisher.written| <= |s.publisher.written| + WritesPending(s.publisher.pc)
  {
    var s := After(cfg, START, before);
    ReachableWinds(cfg, before);
    DistancesAreShort(cfg, s);
    RunWindsDown(cfg, s, rest);
    DistancesAreShort(cfg, After(cfg, s, rest));
    RunKeepsEnd(cfg, s, rest);
  }

  /** While mKeepRunning holds, neither the tabulator nor the publisher has ended
      without an exception. */
  lemma NoWorkerEndsSilently(cfg: Config, steps: seq<Step>)
    requires cfg.Valid() && CanRun(cfg, START, steps) && After(cfg, START, steps).running
    ensures var s := After(cfg, START, steps); !s.tabulator.Exited? && !s.publisher.pc.Returned?
  {
    ReachableInv(cfg, steps);
  }
}
