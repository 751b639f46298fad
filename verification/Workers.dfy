/** The worker threads as the main thread sees them through their futures: that none
  returns normally while it is to keep running follows from what is proved of each.
 */
module Workers {
  import opened Relay
  import opened Processes
  import opened SeedLinkClients
  import opened Supervisors
  import opened WindowedMetricsStore
  import opened Metrics

  // ----- Steps of the relay -----

  function TabulatorWorker(s: State): Worker {
    if s.tabulator.Exited? then Worker.Returned else Worker.Running
  }

  function PublisherWorker(s: State): Worker {
    match s.publisher.pc
    case Returned => Worker.Returned
    case Threw => Worker.Threw
    case _ => Worker.Running
  }

  function RelayWorkers(s: State): seq<Worker> {
    [TabulatorWorker(s), PublisherWorker(s)]
  }

  lemma StepProgresses(cfg: Config, s: State, step: Step)
    requires Enabled(s, step)
    ensures Progressed(RelayWorkers(s), RelayWorkers(Apply(cfg, s, step)), Apply(cfg, s, step).running)
    ensures Apply(cfg, s, step).running ==> s.running
  {
  }

  lemma ProgressAddsUp(a: seq<Worker>, b: seq<Worker>, c: seq<Worker>, earlier: bool, later: bool)
    requires Progressed(a, b, earlier) && Progressed(b, c, later) && (later ==> earlier)
    ensures Progressed(a, c, later)
  {
  }

  /** Over any run of the relay its two workers do only what the main thread allows
      for: end with an exception at any time, or normally once the flag is cleared. */
  lemma {:induction false} RunProgresses(cfg: Config, s: State, steps: seq<Step>)
    requires CanRun(cfg, s, steps)
    ensures var t := After(cfg, s, steps);
      Progressed(RelayWorkers(s), RelayWorkers(t), t.running) && (t.running ==> s.running)
    decreases |steps|
  {
    if steps != [] {
      var t := Apply(cfg, s, steps[0]);
      var u := After(cfg, s, steps);
      StepProgresses(cfg, s, steps[0]);
      RunProgresses(cfg, t, steps[1..]);
      ProgressAddsUp(RelayWorkers(s), RelayWorkers(t), RelayWorkers(u), t.running, u.running);
    }
  }

  // ----- The functions launched with std::async -----

  method RunTabulator(process: Process) returns (worker: Worker)
    requires process.Valid() && process.model.tabulator.AtCheck? && process.model.exports.producer.Idle?
    modifies process
    ensures worker == TabulatorWorker(process.model) && Progressed([Worker.Running], [worker], process.keepRunning)
  {
    process.TabulateMetricsAndPropagatePackets();
    worker := Worker.Returned;
  }

  method RunPublisher(process: Process) returns (worker: Worker)
    requires process.Valid() && process.model.publisher == START.publisher
    modifies process
    ensures worker == PublisherWorker(process.model) && Progressed([Worker.Running], [worker], process.keepRunning)
  {
    var threw := process.SendPacketsToProxy();
    worker := if threw then Worker.Threw else Worker.Returned;
  }

  /** mKeepRunning for a worker that only looks at it: it is seen set some number of
      times, any number, and then cleared for good. */
  class StopFlag {
    var keepRunning: bool
    var turnsUntilStop: nat

    constructor (turnsUntilStop: nat)
      ensures keepRunning && this.turnsUntilStop == turnsUntilStop
    {
      keepRunning, this.turnsUntilStop := true, turnsUntilStop;
    }

    method Look() returns (running: bool)
      modifies this
      ensures running == keepRunning && (keepRunning ==> old(keepRunning))
      ensures running ==> turnsUntilStop < old(turnsUntilStop)
    {
      if turnsUntilStop == 0 {
        keepRunning := false;
      } else {
        turnsUntilStop := turnsUntilStop - 1;
      }
      running := keepRunning;
    }
  }

  /** updateWindowedMetrics: sets the interval, which throws unless it is positive, and
      visits all streams until told to stop; ticks are the clock's answers. */
  method RunWindowedMetrics(flag: StopFlag, metrics: MetricsSingleton, interval: int)
      returns (worker: Worker, ghost ticks: seq<int>)
    requires metrics.WindowsValid()
    modifies flag, metrics`mUpdateInterval, metrics`mReported, metrics`lives, metrics.mWindows.Values
    ensures metrics.WindowsValid() && Progressed([Worker.Running], [worker], flag.keepRunning)
    ensures if interval > 0 then worker.Returned? && metrics.mUpdateInterval == interval else worker.Threw? && ticks == []
    ensures AllVisited(old(metrics.lives), metrics.lives, ticks)
    ensures old(metrics.Accounted()) ==> metrics.Accounted()
  {
    var accepted := metrics.SetUpdateInterval(interval);
    if !accepted {
      NoVisits(metrics.lives);
      return Worker.Threw, [];
    }
    ticks := VisitWhileRunning(flag, metrics);
    var running := flag.Look();
    worker := if running then Worker.Threw else Worker.Returned;
  }

  /** The loop of updateWindowedMetrics. */
  method VisitWhileRunning(flag: StopFlag, metrics: MetricsSingleton) returns (ghost ticks: seq<int>)
    requires metrics.WindowsValid()
    modifies flag, metrics`mReported, metrics`lives, metrics.mWindows.Values
    ensures metrics.WindowsValid() && !flag.keepRunning
    ensures AllVisited(old(metrics.lives), metrics.lives, ticks)
    ensures old(metrics.Accounted()) ==> metrics.Accounted()
  {
    ticks := [];
    NoVisits(metrics.lives);
    var running := flag.Look();
    while running
      invariant metrics.WindowsValid() && (!running ==> !flag.keepRunning)
      invariant AllVisited(old(metrics.lives), metrics.lives, ticks)
      decreases running, flag.turnsUntilStop
    {
      ticks, running := OneTurn(flag, metrics, old(metrics.lives), ticks);
    }
    if old(metrics.Accounted()) {
      VisitsAreAccounted(metrics.mReceived, old(metrics.lives), metrics.lives, ticks, metrics.failed, metrics.updating);
    }
  }

  /** One turn: a visit at whatever the clock says, and a look at the flag. */
  method OneTurn(flag: StopFlag, metrics: MetricsSingleton, ghost before: Lives, ghost ticks: seq<int>)
      returns (ghost after: seq<int>, running: bool)
    requires metrics.WindowsValid() && AllVisited(before, metrics.lives, ticks)
    modifies flag, metrics`mReported, metrics`lives, metrics.mWindows.Values
    ensures metrics.WindowsValid() && AllVisited(before, metrics.lives, after)
    ensures running == flag.keepRunning && (running ==> flag.turnsUntilStop < old(flag.turnsUntilStop))
  {
    var now: int := *;
    metrics.VisitAgain(before, ticks, now);
    after := ticks + [now];
    running := flag.Look();
  }

  /** The client has a flag of its own, cleared by stop alone, after the relay's. */
  method RunClient(client: SeedLinkClient, recovered: bool, fileExists: bool, removed: bool) returns (worker: Worker)
    requires client.Valid() && client.polls == [] && client.latePolls == 0 && client.batches == []
    requires client.delivered == [] && client.saves == 0
    modifies client
    ensures Progressed([Worker.Running], [worker], client.mKeepRunning)
  {
    var ending := client.PacketToCallback(recovered, fileExists, removed);
    worker := if ending.Normally? then Worker.Returned else Worker.Threw;
  }
}
