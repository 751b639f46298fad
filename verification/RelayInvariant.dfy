/** What every step of the relay keeps, and what follows for whole runs. */
module RelayInvariant {
  import opened Relay

  // ----- One bounded queue with one producer -----

  /** A call in progress has evicted at most one packet, and once it has, the
      queue stays below capacity until its push: nobody else pushes. */
  ghost predicate StageInv(capacity: nat, st: Stage) {
    && |st.queue| <= capacity
    && st.rejected == []
    && (match st.producer
        case Idle => |st.dropped| <= st.accepted
        case Checking(_, e) => e <= 1 && (e == 1 ==> |st.queue| < capacity) && |st.dropped| + 1 <= st.accepted + e
        case Evicting(_, e) => e == 0 && |st.dropped| + 1 <= st.accepted
        case Pushing(_, e) => e <= 1 && |st.queue| < capacity && |st.dropped| + 1 <= st.accepted + e)
  }

  lemma ProduceKeepsStage(capacity: nat, st: Stage)
    requires capacity > 0 && StageInv(capacity, st) && !st.producer.Idle?
    ensures StageInv(capacity, st.Produce(capacity))
  {
  }

  // ----- The packets in flight -----

  ghost predicate Increasing(s: seq<Packet>) {
    forall i, j :: 0 <= i < j < |s| ==> s[i] < s[j]
  }

  /** The packets on the export side, oldest first. */
  function ExportSide(s: State): seq<Packet> {
    s.publisher.written + s.publisher.pc.InHand() + s.exports.queue + s.exports.producer.InHand()
  }

  /** Everything not dropped or lost, from the written packets back to the one in
      the callback's hand. */
  function Flow(s: State): seq<Packet> {
    ExportSide(s) + s.imports.queue + s.imports.producer.InHand()
  }

  function Upto(n: nat): (u: seq<Packet>)
    ensures |u| == n
  {
    seq(n, i => i)
  }

  /** The packets that left the flow without being written. */
  function Gone(s: State): multiset<Packet> {
    multiset(s.imports.dropped) + multiset(s.exports.dropped) + multiset(s.publisher.lost)
  }

  ghost predicate Below(s: seq<Packet>, n: nat) {
    forall i :: 0 <= i < |s| ==> s[i] < n
  }

  /** The flow is in arrival order, and each of the first n packets is in exactly
      one place, once. */
  ghost predicate Conserved(flow: seq<Packet>, gone: multiset<Packet>, n: nat) {
    Increasing(flow) && Below(flow, n) && multiset(flow) + gone == multiset(Upto(n))
  }

  ghost predicate FlowInv(s: State) {
    Conserved(Flow(s), Gone(s), s.imports.accepted)
  }

  lemma RemoveKeepsConserved(a: seq<Packet>, x: Packet, b: seq<Packet>, gone: multiset<Packet>, n: nat)
    requires Conserved(a + [x] + b, gone, n)
    ensures Conserved(a + b, gone + multiset{x}, n)
  {
    var whole := a + [x] + b;
    assert forall i :: 0 <= i < |a + b| ==> (a + b)[i] == whole[if i < |a| then i else i + 1];
    assert multiset(whole) == multiset(a + b) + multiset{x};
  }

  lemma AppendKeepsConserved(flow: seq<Packet>, gone: multiset<Packet>, n: nat)
    requires Conserved(flow, gone, n)
    ensures Conserved(flow + [n], gone, n + 1)
  {
    assert Upto(n + 1) == Upto(n) + [n];
  }

  lemma HandFlow(cfg: Config, s: State)
    requires Enabled(s, Hand)
    ensures var t := Apply(cfg, s, Hand);
      && Flow(t) == Flow(s) + [s.imports.accepted]
      && Gone(t) == Gone(s)
      && t.imports.accepted == s.imports.accepted + 1
  {
  }

  lemma ImportFlow(cfg: Config, s: State)
    requires Enabled(s, Import)
    requires s.imports.rejected == Apply(cfg, s, Import).imports.rejected
    ensures var t, q := Apply(cfg, s, Import), s.imports.queue;
      if s.imports.producer.Evicting? && q != [] then
        && Flow(s) == ExportSide(s) + [q[0]] + (q[1..] + [s.imports.producer.packet])
        && Flow(t) == ExportSide(s) + (q[1..] + [s.imports.producer.packet])
        && Gone(t) == Gone(s) + multiset{q[0]}
      else Flow(t) == Flow(s) && Gone(t) == Gone(s)
  {
    var q := s.imports.queue;
    if s.imports.producer.Evicting? && q != [] {
      assert q == [q[0]] + q[1..];
    }
  }

  lemma TabulateFlow(cfg: Config, s: State)
    requires Enabled(s, Tabulate)
    ensures var t := Apply(cfg, s, Tabulate); Flow(t) == Flow(s) && Gone(t) == Gone(s)
  {
    var t := Apply(cfg, s, Tabulate);
    var q := s.imports.queue;
    if s.tabulator.AtPop? && q != [] {
      assert q == [q[0]] + q[1..];
      assert ExportSide(t) == ExportSide(s) + [q[0]];
    }
  }

  /** What stands before and after the export queue in the flow. */
  function Ahead(s: State): seq<Packet> {
    s.publisher.written + s.publisher.pc.InHand()
  }

  function Behind(s: State): seq<Packet> {
    s.exports.producer.InHand() + s.imports.queue + s.imports.producer.InHand()
  }

  lemma FlowSplit(s: State)
    ensures Flow(s) == Ahead(s) + s.exports.queue + Behind(s)
  {
  }

  lemma MoveAcross(a: seq<Packet>, q: seq<Packet>, b: seq<Packet>)
    requires q != []
    ensures a + q + b == a + [q[0]] + (q[1..] + b)
    ensures a + q + b == (a + [q[0]]) + q[1..] + b
  {
    assert q == [q[0]] + q[1..];
  }

  lemma EvictFlow(s: State, t: State)
    requires s.exports.producer.Evicting? && s.exports.queue != []
    requires t == s.(exports := s.exports.Produce(0))
    ensures var q := s.exports.queue;
      && Flow(s) == Ahead(s) + [q[0]] + (q[1..] + Behind(s))
      && Flow(t) == Ahead(s) + (q[1..] + Behind(s))
      && Gone(t) == Gone(s) + multiset{q[0]}
  {
    FlowSplit(s);
    FlowSplit(t);
    MoveAcross(Ahead(s), s.exports.queue, Behind(s));
    assert Behind(t) == Behind(s) && Ahead(t) == Ahead(s);
  }

  lemma ExportFlow(cfg: Config, s: State)
    requires Enabled(s, Export)
    requires s.exports.rejected == Apply(cfg, s, Export).exports.rejected
    ensures var t, q := Apply(cfg, s, Export), s.exports.queue;
      if s.exports.producer.Evicting? && q != [] then
        && Flow(s) == Ahead(s) + [q[0]] + (q[1..] + Behind(s))
        && Flow(t) == Ahead(s) + (q[1..] + Behind(s))
        && Gone(t) == Gone(s) + multiset{q[0]}
      else Flow(t) == Flow(s) && Gone(t) == Gone(s)
  {
    var t, q := Apply(cfg, s, Export), s.exports.queue;
    if s.exports.producer.Evicting? && q != [] {
      EvictFlow(s, t);
    } else {
      assert ExportSide(t) == ExportSide(s);
    }
  }

  lemma PopFlow(s: State, t: State)
    requires s.publisher.pc.Popping? && s.exports.queue != []
    requires t.imports == s.imports && t.exports == s.exports.Take()
    requires t.publisher.written == s.publisher.written && t.publisher.pc.InHand() == [s.exports.queue[0]]
    ensures Flow(t) == Flow(s)
  {
    FlowSplit(s);
    FlowSplit(t);
    MoveAcross(Ahead(s), s.exports.queue, Behind(s));
  }

  lemma LoseFlow(s: State, t: State)
    requires s.publisher.pc.Writing? && t.imports == s.imports && t.exports == s.exports
    requires t.publisher.written == s.publisher.written && t.publisher.pc.InHand() == []
    ensures Flow(s) == s.publisher.written + [s.publisher.pc.packet] + (s.exports.queue + Behind(s))
    ensures Flow(t) == s.publisher.written + (s.exports.queue + Behind(s))
  {
    FlowSplit(s);
    FlowSplit(t);
  }

  lemma QuietFlow(s: State, t: State)
    requires Ahead(t) == Ahead(s) && t.imports == s.imports && t.exports == s.exports
    ensures Flow(t) == Flow(s)
  {
    FlowSplit(s);
    FlowSplit(t);
  }

  lemma PublisherAhead(retries: nat, running: bool, head: seq<Packet>, p: Publisher, writeOk: bool, status: Status)
    requires !p.pc.Ended() && |head| <= 1 && (p.pc.Writing? ==> writeOk)
    ensures var q := PublisherNext(retries, running, head, p, writeOk, status);
      && q.lost == p.lost
      && q.written + q.pc.InHand() == p.written + p.pc.InHand() + (if p.pc.Popping? then head else [])
  {
  }

  lemma ImportKeepsFlow(cfg: Config, s: State)
    requires cfg.Valid() && Enabled(s, Import) && FlowInv(s) && StageInv(cfg.importCapacity, s.imports)
    ensures FlowInv(Apply(cfg, s, Import))
  {
    ImportFlow(cfg, s);
    var q := s.imports.queue;
    if s.imports.producer.Evicting? && q != [] {
      RemoveKeepsConserved(ExportSide(s), q[0], q[1..] + [s.imports.producer.packet], Gone(s), s.imports.accepted);
    }
  }

  lemma ExportKeepsFlow(cfg: Config, s: State)
    requires cfg.Valid() && Enabled(s, Export) && FlowInv(s) && StageInv(cfg.exportCapacity, s.exports)
    ensures FlowInv(Apply(cfg, s, Export))
  {
    ExportFlow(cfg, s);
    var q := s.exports.queue;
    if s.exports.producer.Evicting? && q != [] {
      RemoveKeepsConserved(Ahead(s), q[0], q[1..] + Behind(s), Gone(s), s.imports.accepted);
    }
  }

  lemma LoseKeepsFlow(s: State, t: State)
    requires FlowInv(s) && s.publisher.pc.Writing? && t.imports == s.imports && t.exports == s.exports
    requires t.publisher.written == s.publisher.written && t.publisher.pc.InHand() == []
    requires t.publisher.lost == s.publisher.lost + [s.publisher.pc.packet]
    ensures FlowInv(t)
  {
    LoseFlow(s, t);
    RemoveKeepsConserved(s.publisher.written, s.publisher.pc.packet, s.exports.queue + Behind(s),
                         Gone(s), s.imports.accepted);
    assert Gone(t) == Gone(s) + multiset{s.publisher.pc.packet};
  }

  lemma PublishKeepsFlow(cfg: Config, s: State, ok: bool, st: Status)
    requires Enabled(s, Publish(ok, st)) && FlowInv(s)
    ensures FlowInv(Apply(cfg, s, Publish(ok, st)))
  {
    var t := Apply(cfg, s, Publish(ok, st));
    if s.publisher.pc.Writing? && !ok {
      LoseKeepsFlow(s, t);
    } else {
      PublishFlow(cfg, s, ok, st);
      SameFlow(s, t);
    }
  }

  lemma PublishFlow(cfg: Config, s: State, ok: bool, st: Status)
    requires Enabled(s, Publish(ok, st)) && (s.publisher.pc.Writing? ==> ok)
    ensures var t := Apply(cfg, s, Publish(ok, st));
      Flow(t) == Flow(s) && Gone(t) == Gone(s) && t.imports.accepted == s.imports.accepted
  {
    var t := Apply(cfg, s, Publish(ok, st));
    PublisherAhead(cfg.retries, s.running, Head(s.exports.queue), s.publisher, ok, st);
    if s.publisher.pc.Popping? && s.exports.queue != [] {
      PopFlow(s, t);
    } else {
      QuietFlow(s, t);
    }
  }

  lemma SameFlow(s: State, t: State)
    requires FlowInv(s) && Flow(t) == Flow(s) && Gone(t) == Gone(s) && t.imports.accepted == s.imports.accepted
    ensures FlowInv(t)
  {
  }

  lemma TabulateKeepsFlow(cfg: Config, s: State)
    requires Enabled(s, Tabulate) && FlowInv(s)
    ensures FlowInv(Apply(cfg, s, Tabulate))
  {
    TabulateFlow(cfg, s);
    SameFlow(s, Apply(cfg, s, Tabulate));
  }

  lemma HandKeepsFlow(cfg: Config, s: State)
    requires Enabled(s, Hand) && FlowInv(s)
    ensures FlowInv(Apply(cfg, s, Hand))
  {
    HandFlow(cfg, s);
    AppendKeepsConserved(Flow(s), Gone(s), s.imports.accepted);
  }

  lemma StepKeepsFlow(cfg: Config, s: State, step: Step)
    requires cfg.Valid() && Enabled(s, step) && FlowInv(s)
    requires StageInv(cfg.importCapacity, s.imports) && StageInv(cfg.exportCapacity, s.exports)
    ensures FlowInv(Apply(cfg, s, step))
  {
    match step
    case RequestStop => SameFlow(s, s.(running := false));
    case Hand => HandKeepsFlow(cfg, s);
    case Import => ImportKeepsFlow(cfg, s);
    case Tabulate => TabulateKeepsFlow(cfg, s);
    case Export => ExportKeepsFlow(cfg, s);
    case Publish(ok, st) => PublishKeepsFlow(cfg, s, ok, st);
  }

  // ----- The retry loop -----

  /** RPCs the retry loop may still open before its next success. */
  function Remaining(retries: nat, pc: PublisherPc): int {
    match pc
    case AtTop(k) => retries - k
    case Waiting(k) => retries - k
    case Opening(k) => retries - k
    case InRpc(k, wrote) => if wrote then retries else retries - k - 1
    case Popping(k, wrote) => if wrote then retries else retries - k - 1
    case Writing(k, wrote, _) => if wrote then retries else retries - k - 1
    case Finishing(k, wrote) => if wrote then retries else retries - k - 1
    case _ => 0
  }

  /** RPCs a run with the given number of successes may open, n after each success. */
  function Budget(retries: nat, successes: nat): nat {
    if successes == 0 then retries + 1 else Budget(retries, successes - 1) + retries
  }

  lemma {:induction false} BudgetClosedForm(retries: nat, successes: nat)
    ensures Budget(retries, successes) == retries + 1 + successes * retries
  {
    if successes > 0 {
      BudgetClosedForm(retries, successes - 1);
      assert (successes - 1) * retries + retries == successes * retries;
    }
  }

  predicate InsideRpc(pc: PublisherPc) {
    pc.InRpc? || pc.Popping? || pc.Writing?
  }

  /** The schedule entries waited for since the last success, by position. */
  ghost predicate WaitsFit(retries: nat, pc: PublisherPc, waits: seq<int>) {
    match pc
    case AtTop(k) => -1 <= k <= retries && waits == Upto(if k < 0 then 0 else k)
    case Waiting(k) => 0 <= k < retries && waits == Upto(k + 1)
    case Opening(k) => -1 <= k < retries && waits == Upto(k + 1)
    case InRpc(k, _) => -1 <= k < retries && waits == Upto(k + 1)
    case Popping(k, _) => -1 <= k < retries && waits == Upto(k + 1)
    case Writing(k, _, _) => -1 <= k < retries && waits == Upto(k + 1)
    case Finishing(k, _) => -1 <= k < retries && waits == Upto(k + 1)
    case _ => |waits| <= retries && waits == Upto(|waits|)
  }

  /** At most one lost packet and one success per RPC. */
  ghost predicate OneAnRpc(p: Publisher) {
    && |p.lost| + (if InsideRpc(p.pc) then 1 else 0) <= p.rpcs
    && p.successes + (if InsideRpc(p.pc) && !p.pc.wrote then 1 else 0) <= p.rpcs
  }

  /** With a schedule of length n, at most n + 1 RPCs until the first success and
      n after each success; one lost packet per finished RPC; the waits since the
      last success are entries 0, 1, 2, ... of the schedule. */
  ghost predicate PublisherInv(retries: nat, running: bool, p: Publisher) {
    && WaitsFit(retries, p.pc, p.waits)
    && p.rpcs + Remaining(retries, p.pc) <= Budget(retries, p.successes)
    && OneAnRpc(p)
    && (p.pc.Returned? ==> !running)
  }

  lemma PublisherKeepsWaits(retries: nat, running: bool, head: seq<Packet>, p: Publisher, writeOk: bool, status: Status)
    requires WaitsFit(retries, p.pc, p.waits) && !p.pc.Ended() && |head| <= 1
    ensures var q := PublisherNext(retries, running, head, p, writeOk, status); WaitsFit(retries, q.pc, q.waits)
  {
    if p.pc.AtTop? && p.pc.k >= 0 {
      assert Upto(p.pc.k + 1) == Upto(p.pc.k) + [p.pc.k];
    }
  }

  lemma PublisherKeepsInv(retries: nat, running: bool, head: seq<Packet>, p: Publisher, writeOk: bool, status: Status)
    requires PublisherInv(retries, running, p) && !p.pc.Ended() && |head| <= 1
    ensures PublisherInv(retries, running, PublisherNext(retries, running, head, p, writeOk, status))
  {
    PublisherKeepsWaits(retries, running, head, p, writeOk, status);
    PublisherKeepsBudget(retries, running, head, p, writeOk, status);
    PublisherKeepsCounts(retries, running, head, p, writeOk, status);
  }

  lemma PublisherKeepsBudget(retries: nat, running: bool, head: seq<Packet>, p: Publisher, writeOk: bool, status: Status)
    requires WaitsFit(retries, p.pc, p.waits) && !p.pc.Ended() && |head| <= 1
    requires p.rpcs + Remaining(retries, p.pc) <= Budget(retries, p.successes)
    ensures var q := PublisherNext(retries, running, head, p, writeOk, status);
      q.rpcs + Remaining(retries, q.pc) <= Budget(retries, q.successes)
  {
  }

  lemma PublisherKeepsCounts(retries: nat, running: bool, head: seq<Packet>, p: Publisher, writeOk: bool, status: Status)
    requires !p.pc.Ended() && |head| <= 1 && OneAnRpc(p)
    ensures var q := PublisherNext(retries, running, head, p, writeOk, status);
      OneAnRpc(q) && (q.pc.Returned? ==> !running)
  {
  }

  // ----- The whole relay -----

  ghost predicate Inv(cfg: Config, s: State) {
    && StageInv(cfg.importCapacity, s.imports)
    && StageInv(cfg.exportCapacity, s.exports)
    && FlowInv(s)
    && PublisherInv(cfg.retries, s.running, s.publisher)
    && (s.tabulator.Exited? ==> !s.running)
    && (s.exports.producer.Idle? || s.tabulator.AtCheck?)
  }

  lemma StepKeepsStages(cfg: Config, s: State, step: Step)
    requires cfg.Valid() && Enabled(s, step)
    requires StageInv(cfg.importCapacity, s.imports) && StageInv(cfg.exportCapacity, s.exports)
    ensures var t := Apply(cfg, s, step);
      StageInv(cfg.importCapacity, t.imports) && StageInv(cfg.exportCapacity, t.exports)
  {
    if step.Import? {
      ProduceKeepsStage(cfg.importCapacity, s.imports);
    } else if step.Export? {
      ProduceKeepsStage(cfg.exportCapacity, s.exports);
    }
  }

  lemma StepKeepsPublisher(cfg: Config, s: State, step: Step)
    requires Enabled(s, step) && PublisherInv(cfg.retries, s.running, s.publisher)
    ensures var t := Apply(cfg, s, step); PublisherInv(cfg.retries, t.running, t.publisher)
  {
    if step.Publish? {
      PublisherKeepsInv(cfg.retries, s.running, Head(s.exports.queue), s.publisher, step.writeOk, step.status);
    }
  }

  lemma StepKeepsInv(cfg: Config, s: State, step: Step)
    requires cfg.Valid() && Inv(cfg, s) && Enabled(s, step)
    ensures Inv(cfg, Apply(cfg, s, step))
  {
    StepKeepsFlow(cfg, s, step);
    StepKeepsStages(cfg, s, step);
    StepKeepsPublisher(cfg, s, step);
  }

  lemma {:induction false} RunKeepsInv(cfg: Config, s: State, steps: seq<Step>)
    requires cfg.Valid() && Inv(cfg, s) && CanRun(cfg, s, steps)
    ensures Inv(cfg, After(cfg, s, steps))
    decreases |steps|
  {
    if steps != [] {
      StepKeepsInv(cfg, s, steps[0]);
      RunKeepsInv(cfg, Apply(cfg, s, steps[0]), steps[1..]);
    }
  }

  lemma StartInv(cfg: Config)
    ensures Inv(cfg, START)
  {
    assert Flow(START) == [] == Upto(0);
  }

  lemma ReachableInv(cfg: Config, steps: seq<Step>)
    requires cfg.Valid() && CanRun(cfg, START, steps)
    ensures Inv(cfg, After(cfg, START, steps))
  {
    StartInv(cfg);
    RunKeepsInv(cfg, START, steps);
  }

  /** Some run leads to s. */
  ghost predicate Reachable(cfg: Config, s: State) {
    exists steps :: CanRun(cfg, START, steps) && After(cfg, START, steps) == s
  }

  lemma {:induction false} RunExtends(cfg: Config, s: State, steps: seq<Step>, step: Step)
    requires CanRun(cfg, s, steps) && Enabled(After(cfg, s, steps), step)
    ensures CanRun(cfg, s, steps + [step])
    ensures After(cfg, s, steps + [step]) == Apply(cfg, After(cfg, s, steps), step)
    decreases |steps|
  {
    if steps == [] {
      assert steps + [step] == [step];
    } else {
      RunExtends(cfg, Apply(cfg, s, steps[0]), steps[1..], step);
      assert (steps + [step])[0] == steps[0] && (steps + [step])[1..] == steps[1..] + [step];
    }
  }

  lemma StartReachable(cfg: Config)
    ensures Reachable(cfg, START)
  {
    assert CanRun(cfg, START, []) && After(cfg, START, []) == START;
  }

  lemma StepReachable(cfg: Config, s: State, step: Step)
    requires Reachable(cfg, s) && Enabled(s, step)
    ensures Reachable(cfg, Apply(cfg, s, step))
  {
    var steps :| CanRun(cfg, START, steps) && After(cfg, START, steps) == s;
    RunExtends(cfg, START, steps, step);
  }

  lemma ReachableHasInv(cfg: Config, s: State)
    requires cfg.Valid() && Reachable(cfg, s)
    ensures Inv(cfg, s)
  {
    var steps :| CanRun(cfg, START, steps) && After(cfg, START, steps) == s;
    ReachableInv(cfg, steps);
  }

  lemma ReachableStages(cfg: Config, s: State)
    requires cfg.Valid() && Reachable(cfg, s)
    ensures StageInv(cfg.importCapacity, s.imports) && StageInv(cfg.exportCapacity, s.exports)
  {
    ReachableHasInv(cfg, s);
  }
}
