/** MetricsSingleton of src/modules/metrics.cppm: packet counters per stream and the
  streams' windows, behind one mutex taken and released several times per packet.
 */
module Metrics {
  import opened Wrappers
  import opened Text
  import opened SampleCodec
  import opened PacketConverter
  import opened Statistics
  import opened WindowedMetricsStore

  // ----- Keys -----

  /** toKeyName, which throws for an empty network, station or channel. */
  function KeyName(id: Identifier): Option<string> {
    if id.network == [] || id.station == [] || id.channel == [] then None
    else
      Some(ToLower(id.network + "_" + id.station + "_" + id.channel
                   + if id.locationCode == [] then "" else "_" + id.locationCode))
  }

  function LowerFields(id: Identifier): seq<string> {
    if id.locationCode == [] then [ToLower(id.network), ToLower(id.station), ToLower(id.channel)]
    else [ToLower(id.network), ToLower(id.station), ToLower(id.channel), ToLower(id.locationCode)]
  }

  lemma LowerOfJoined(a: string, b: string)
    ensures ToLower(a + "_" + b) == ToLower(a) + "_" + ToLower(b)
  {
  }

  /** A key is the lower-cased fields in order with an underscore between them; an empty
      location is left out. */
  lemma KeyIsWritten(id: Identifier)
    ensures KeyName(id).Some? <==> id.network != [] && id.station != [] && id.channel != []
    ensures KeyName(id).Some? ==>
              KeyName(id).value == Written(LowerFields(id), if id.locationCode == [] then "__" else "___")
  {
    if KeyName(id).Some? {
      var joined := id.network + "_" + id.station + "_" + id.channel;
      LowerOfJoined(id.network, id.station);
      LowerOfJoined(id.network + "_" + id.station, id.channel);
      if id.locationCode == [] {
        WrittenThree(ToLower(id.network), ToLower(id.station), ToLower(id.channel));
        assert joined + "" == joined;
      } else {
        LowerOfJoined(joined, id.locationCode);
        WrittenFour(ToLower(id.network), ToLower(id.station), ToLower(id.channel), ToLower(id.locationCode));
        assert joined + ("_" + id.locationCode) == joined + "_" + id.locationCode;
      }
    }
  }

  lemma WrittenThree(a: string, b: string, c: string)
    ensures Written([a, b, c], "__") == a + "_" + b + "_" + c
  {
    assert [a, b, c][1..] == [b, c] && [b, c][1..] == [c] && "__"[1..] == "_" && "_"[1..] == "";
    assert Written([b, c], "_") == b + "_" + c;
    assert a + "_" + (b + "_" + c) == a + "_" + b + "_" + c;
  }

  lemma WrittenFour(a: string, b: string, c: string, d: string)
    ensures Written([a, b, c, d], "___") == a + "_" + b + "_" + c + "_" + d
  {
    WrittenThree(b, c, d);
    assert [a, b, c, d][1..] == [b, c, d] && "___"[1..] == "__";
    assert a + "_" + (b + "_" + c + "_" + d) == a + "_" + b + "_" + c + "_" + d;
  }

  /** No field of id has an underscore in it. */
  ghost predicate Plain(id: Identifier) {
    '_' !in id.network && '_' !in id.station && '_' !in id.channel && '_' !in id.locationCode
  }

  lemma PlainKeySplits(id: Identifier)
    requires Plain(id) && KeyName(id).Some?
    ensures Split(KeyName(id).value, {'_'}) == LowerFields(id)
  {
    KeyIsWritten(id);
    NoneInLower(id.network);
    NoneInLower(id.station);
    NoneInLower(id.channel);
    NoneInLower(id.locationCode);
    SplitOfWritten(LowerFields(id), if id.locationCode == [] then "__" else "___", {'_'});
  }

  lemma NoneInLower(s: string)
    requires '_' !in s
    ensures NoneIn(ToLower(s), {'_'})
  {
    forall i | 0 <= i < |s| ensures ToLower(s)[i] != '_' {
      CharacterCodes(s, i);
      assert s[i] in s;
    }
  }

  /** Two streams without underscores in their fields share a key, and so counters and
      windows, exactly if all four fields agree up to case. */
  lemma KeysAgreeIff(a: Identifier, b: Identifier)
    requires Plain(a) && Plain(b) && KeyName(a).Some? && KeyName(b).Some?
    ensures KeyName(a) == KeyName(b) <==>
              && ToLower(a.network) == ToLower(b.network) && ToLower(a.station) == ToLower(b.station)
              && ToLower(a.channel) == ToLower(b.channel) && ToLower(a.locationCode) == ToLower(b.locationCode)
  {
    PlainKeySplits(a);
    PlainKeySplits(b);
    KeyIsWritten(a);
    KeyIsWritten(b);
    var f, g := LowerFields(a), LowerFields(b);
    if KeyName(a) == KeyName(b) {
      assert f[0] == g[0] && f[1] == g[1] && f[2] == g[2] && |f| == |g|;
      assert |f| == 4 ==> f[3] == g[3];
    }
  }

  /** Underscores let fields run together: then streams with one key agree in all fields
      exactly if network, station and channel are equally long, and some do not. */
  lemma SharedKeyIff(a: Identifier, b: Identifier)
    requires KeyName(a).Some? && KeyName(a) == KeyName(b)
    ensures ToLower(a.network) == ToLower(b.network) && ToLower(a.station) == ToLower(b.station)
            && ToLower(a.channel) == ToLower(b.channel) && ToLower(a.locationCode) == ToLower(b.locationCode)
            <==> |a.network| == |b.network| && |a.station| == |b.station| && |a.channel| == |b.channel|
  {
    KeyParts(a);
    KeyParts(b);
    if |a.network| == |b.network| && |a.station| == |b.station| && |a.channel| == |b.channel| {
      var k, n, s, c := KeyName(a).value, |a.network|, |a.station|, |a.channel|;
      assert |a.locationCode| == |b.locationCode|;
    }
  }

  /** Where the fields stand in a key. */
  lemma KeyParts(id: Identifier)
    requires KeyName(id).Some?
    ensures var k, n, s, c := KeyName(id).value, |id.network|, |id.station|, |id.channel|;
      && |k| == n + s + c + 2 + (if id.locationCode == [] then 0 else |id.locationCode| + 1)
      && k[..n] == ToLower(id.network) && k[n + 1..n + 1 + s] == ToLower(id.station)
      && k[n + s + 2..n + s + c + 2] == ToLower(id.channel)
      && ToLower(id.locationCode) == if id.locationCode == [] then [] else k[n + s + c + 3..]
  {
    var n, t, c, l := ToLower(id.network), ToLower(id.station), ToLower(id.channel), ToLower(id.locationCode);
    KeyIsWritten(id);
    if id.locationCode == [] {
      WrittenThree(n, t, c);
    } else {
      WrittenFour(n, t, c, l);
    }
  }

  /** For example a channel that ends like a location. */
  lemma KeysCanCollide()
    ensures var a, b := Identifier("UU", "FORK", "HHZ_01", ""), Identifier("UU", "FORK", "HHZ", "01");
      KeyName(a) == KeyName(b) == Some("uu_fork_hhz_01")
  {
    assert ToLower("UU_FORK_HHZ_01") == "uu_fork_hhz_01";
    assert "UU" + "_" + "FORK" + "_" + "HHZ_01" + "" == "UU_FORK_HHZ_01";
    assert "UU" + "_" + "FORK" + "_" + "HHZ" + ("_" + "01") == "UU_FORK_HHZ_01";
  }

  /** Converted packets have upper-case identifiers with a location, so those without
      underscores share a key only within one stream. */
  lemma ConvertedKeysAgreeIff(host: Endian, swapBytes: bool, q: Record, r: Record)
    requires Convert(host, q, swapBytes).Ok? && Convert(host, r, swapBytes).Ok?
    requires Plain(Convert(host, q, swapBytes).value.identifier) && Plain(Convert(host, r, swapBytes).value.identifier)
    ensures var a, b := Convert(host, q, swapBytes).value.identifier, Convert(host, r, swapBytes).value.identifier;
      KeyName(a).Some? && KeyName(b).Some? && (KeyName(a) == KeyName(b) <==> a == b)
  {
    var a, b := Convert(host, q, swapBytes).value.identifier, Convert(host, r, swapBytes).value.identifier;
    ConvertedFields(host, q, swapBytes);
    ConvertedFields(host, r, swapBytes);
    UpperFields(q.sid.value, a);
    UpperFields(r.sid.value, b);
    KeysAgreeIff(a, b);
    LowerOfUpper(a.network, b.network);
    LowerOfUpper(a.station, b.station);
    LowerOfUpper(a.channel, b.channel);
    LowerOfUpper(a.locationCode, b.locationCode);
  }

  lemma UpperFields(sid: Identifier, id: Identifier)
    requires IdentifierOf(sid, id)
    ensures ToUpper(id.network) == id.network && ToUpper(id.station) == id.station
    ensures ToUpper(id.channel) == id.channel && ToUpper(id.locationCode) == id.locationCode
  {
    CleanedIsUpper(sid.network, id.network);
    CleanedIsUpper(sid.station, id.station);
    CleanedIsUpper(sid.channel, id.channel);
    if !Blank(sid.locationCode) {
      CleanedIsUpper(sid.locationCode, id.locationCode);
    }
  }

  lemma CleanedIsUpper(field: string, cleaned: string)
    requires Cleaned(field, cleaned)
    ensures ToUpper(cleaned) == cleaned
  {
    var i, j :| CutAt(field, i, j) && cleaned == ToUpper(field[i..j]);
    LowerOfUpper(field[i..j], field[i..j]);
  }

  // ----- Classification by time -----

  const MICROS: int := 1000000
  const MAXIMUM_LATENCY: int := 180 * 86400 * 1000000
  const MAXIMUM_FUTURE_TIME: int := 0

  /** std::round of a positive value. */
  function Round(x: real): int {
    (x + 0.5).Floor
  }

  function StartMicros(p: Packet): int
    requires p.startTime.Some?
  {
    p.startTime.value / 1000
  }

  /** The end time, with the sampling period rounded to whole microseconds. */
  function EndMicros(p: Packet): int
    requires p.startTime.Some? && p.sampleRate > 0.0
  {
    StartMicros(p) + (if p.numberOfSamples > 1 then p.numberOfSamples - 1 else 0) * Round(1.0 / p.sampleRate * MICROS as real)
  }

  datatype Verdict = Rejected | Future | Expired | Timely(latency: int)

  /** tabulateMetrics between counting the packet and counting its class: the three
      exceptions, then the time tests in their order. */
  function Classify(p: Packet, now: int): Verdict {
    if p.numberOfSamples <= 0 || p.sampleRate <= 0.0 || p.startTime.None? then Rejected
    else ClassifyTimes(StartMicros(p), EndMicros(p), now)
  }

  function ClassifyTimes(start: int, end: int, now: int): Verdict {
    if end > now + MAXIMUM_FUTURE_TIME then Future
    else if start < now - MAXIMUM_LATENCY then Expired
    else Timely(if now - end < 0 then 0 else now - end)
  }

  lemma RoundError(x: real)
    ensures -0.5 < Round(x) as real - x <= 0.5
  {
  }

  /** Times are in microseconds, the start time rounded down from nanoseconds.  If the
      sampling period is a whole number of them, a packet is future until its last
      sample, expired once its first is 180 days old, and timely in between with the
      time since its last sample as latency. */
  lemma ClassifiesByTime(p: Packet, now: int, period: int)
    requires p.numberOfSamples >= 1 && p.sampleRate > 0.0 && p.startTime.Some?
    requires 1000000.0 / p.sampleRate == period as real
    ensures var first := p.startTime.value / 1000; var last := first + (p.numberOfSamples - 1) * period;
      && 1000 * first <= p.startTime.value < 1000 * (first + 1)
      && Classify(p, now) == if last > now then Future
                             else if now - first > 15552000000000 then Expired
                             else Timely(now - last)
  {
    PeriodIsWhole(p.sampleRate, period);
    assert EndMicros(p) == StartMicros(p) + (p.numberOfSamples - 1) * period by {
      if p.numberOfSamples == 1 {
        assert 0 * period == 0;
      }
    }
  }

  lemma PeriodIsWhole(rate: real, period: int)
    requires rate > 0.0 && 1000000.0 / rate == period as real
    ensures Round(1.0 / rate * MICROS as real) == period
  {
    assert 1.0 / rate * 1000000.0 == 1000000.0 / rate;
  }

  /** n samplings of rounded instead of period. */
  lemma {:induction false} ErrorGrows(n: nat, rounded: int, period: real)
    requires -0.5 <= rounded as real - period <= 0.5
    ensures -0.5 * n as real <= (n * rounded) as real - n as real * period <= 0.5 * n as real
  {
    if n > 0 {
      ErrorGrows(n - 1, rounded, period);
      OneMoreInterval(n, rounded, period);
      ErrorStep(((n - 1) * rounded) as real, (n * rounded) as real, rounded as real,
                (n - 1) as real * period, n as real * period, period, (n - 1) as real, n as real);
    }
  }

  lemma OneMoreInterval(n: nat, rounded: int, period: real)
    requires n > 0
    ensures (n * rounded) as real == ((n - 1) * rounded) as real + rounded as real
    ensures n as real * period == (n - 1) as real * period + period
  {
    assert n * rounded == (n - 1) * rounded + rounded;
    assert n as real == (n - 1) as real + 1.0;
  }

  lemma ErrorStep(a: real, a1: real, x: real, b: real, b1: real, y: real, n: real, n1: real)
    requires a1 == a + x && b1 == b + y && n1 == n + 1.0
    requires -0.5 * n <= a - b <= 0.5 * n && -0.5 <= x - y <= 0.5
    ensures -0.5 * n1 <= a1 - b1 <= 0.5 * n1
  {
  }

  lemma ShiftedError(start: int, product: int, other: real, most: real)
    requires -most <= product as real - other <= most
    ensures -most <= (start + product) as real - (start as real + other) <= most
  {
  }

  /** The computed end time is off the true one, start + (n - 1) / rate, by at most
      half a microsecond per sampling interval. */
  lemma EndTimeError(p: Packet)
    requires p.startTime.Some? && p.sampleRate > 0.0 && p.numberOfSamples >= 1
    ensures var intervals := p.numberOfSamples - 1;
      var error := EndMicros(p) as real - ((p.startTime.value / 1000) as real + intervals as real * (1.0 / p.sampleRate * 1000000.0));
      -0.5 * intervals as real <= error <= 0.5 * intervals as real
  {
    var intervals, period := p.numberOfSamples - 1, 1.0 / p.sampleRate * MICROS as real;
    var rounded := Round(period);
    RoundError(period);
    ErrorGrows(intervals, rounded, period);
    ShiftedError(StartMicros(p), intervals * rounded, intervals as real * period, 0.5 * intervals as real);
    assert EndMicros(p) == StartMicros(p) + intervals * rounded;
  }

  lemma PeriodIsPositive(rate: real)
    requires rate > 0.0
    ensures Round(1.0 / rate * MICROS as real) >= 0
  {
    var period := 1.0 / rate;
    assert period * rate == 1.0;
    SignOfProduct(period, rate);
  }

  /** A timely packet ended by now and started at most 180 days ago, so its latency
      is what has passed since its end, between 0 and 180 days: the clamp at 0 never
      acts. */
  lemma TimelyLatency(p: Packet, now: int)
    requires Classify(p, now).Timely?
    ensures Classify(p, now).latency == now - EndMicros(p)
    ensures 0 <= Classify(p, now).latency <= 15552000000000
  {
    PeriodIsPositive(p.sampleRate);
    NonNegativeProduct(if p.numberOfSamples > 1 then p.numberOfSamples - 1 else 0,
                       Round(1.0 / p.sampleRate * MICROS as real));
  }

  /** The order in which the classes follow each other. */
  function Age(verdict: Verdict): int {
    match verdict
    case Rejected => -1
    case Future => 0
    case Timely(_) => 1
    case Expired => 2
  }

  /** A packet with samples, rate and start time is future until its end, expired once
      its start is more than 180 days ago, and timely in between: as the clock goes
      on it only moves forward through these classes.  If it lasts longer than 180
      days it is never timely. */
  lemma ClassesFollowTheClock(p: Packet, earlier: int, later: int)
    requires p.numberOfSamples > 0 && p.sampleRate > 0.0 && p.startTime.Some? && earlier <= later
    ensures 0 <= Age(Classify(p, earlier)) <= Age(Classify(p, later))
    ensures Classify(p, earlier).Timely? && Classify(p, later).Timely? ==>
              Classify(p, later).latency - Classify(p, earlier).latency == later - earlier
    ensures Classify(p, later).Timely? ==> EndMicros(p) - StartMicros(p) <= MAXIMUM_LATENCY
  {
  }

  // ----- Counters -----

  type Counts = map<string, nat>

  function Count(m: Counts, key: string): nat {
    if key in m then m[key] else 0
  }

  /** find, then insert 1 or add 1. */
  function Bumped(m: Counts, key: string): Counts {
    if key in m then m[key := m[key] + 1] else m[key := 1]
  }

  /** Where the tabulator is with its packet. */
  datatype Phase = Idle | Entered | Counted(key: string)

  /** The counters at a moment when no lock is held.  rejected and unkeyed count the
      packets that left by an exception after and before they were counted. */
  datatype Counters = Counters(
    globalReceived: nat,
    total: Counts,
    received: Counts,
    future: Counts,
    expired: Counts,
    rejected: Counts,
    unkeyed: nat,
    phase: Phase)
  {
    /** What the class keeps in its fields. */
    function Read(): (nat, Counts, Counts, Counts, Counts) {
      (globalReceived, total, received, future, expired)
    }
  }

  const NO_COUNTS := Counters(0, map[], map[], map[], map[], map[], 0, Idle)

  datatype CounterStep = Enter | FailKey | CountTotal(key: string) | CountClass(verdict: Verdict)

  predicate CanCount(c: Counters, step: CounterStep) {
    match step
    case Enter => c.phase.Idle?
    case FailKey => c.phase.Entered?
    case CountTotal(_) => c.phase.Entered?
    case CountClass(_) => c.phase.Counted?
  }

  /** One critical section of the tabulator. */
  function AfterCount(c: Counters, step: CounterStep): Counters
    requires CanCount(c, step)
  {
    match step
    case Enter => c.(globalReceived := c.globalReceived + 1, phase := Entered)
    case FailKey => c.(unkeyed := c.unkeyed + 1, phase := Idle)
    case CountTotal(key) => c.(total := Bumped(c.total, key), phase := Counted(key))
    case CountClass(verdict) =>
      var key := c.phase.key;
      (match verdict
       case Rejected => c.(rejected := Bumped(c.rejected, key), phase := Idle)
       case Future => c.(future := Bumped(c.future, key), phase := Idle)
       case Expired => c.(expired := Bumped(c.expired, key), phase := Idle)
       case Timely(_) => c.(received := Bumped(c.received, key), phase := Idle))
  }

  /** The critical sections of one packet that has entered: it has no key, or it is
      counted in its stream's total and then in its class. */
  function AfterPacket(c: Counters, key: Option<string>, verdict: Verdict): Counters
    requires c.phase.Entered?
  {
    if key.None? then AfterCount(c, FailKey)
    else AfterCount(AfterCount(c, CountTotal(key.value)), CountClass(verdict))
  }

  ghost function SumOf(m: Counts): nat
    decreases |m|
  {
    if m == map[] then 0
    else
      var key :| key in m;
      m[key] + SumOf(m - {key})
  }

  lemma {:induction false} SumOfWithout(m: Counts, key: string)
    requires key in m
    ensures SumOf(m) == m[key] + SumOf(m - {key})
    decreases |m|
  {
    var k :| k in m && SumOf(m) == m[k] + SumOf(m - {k});
    if k != key {
      SumOfWithout(m - {k}, key);
      SumOfWithout(m - {key}, k);
      assert m - {k} - {key} == m - {key} - {k};
    }
  }

  lemma SumOfBumped(m: Counts, key: string)
    ensures SumOf(Bumped(m, key)) == SumOf(m) + 1
  {
    var b := Bumped(m, key);
    SumOfWithout(b, key);
    if key in m {
      SumOfWithout(m, key);
      assert b - {key} == m - {key};
    } else {
      assert b - {key} == m;
    }
  }

  /** A stream's total is the sum of its classes and the rejected packets, plus one
      for a packet counted and not yet classified. */
  predicate BalancedAt(c: Counters, key: string) {
    Count(c.total, key)
    == Count(c.received, key) + Count(c.future, key) + Count(c.expired, key) + Count(c.rejected, key)
       + (if c.phase == Counted(key) then 1 else 0)
  }

  /** That holds of every stream, and every packet received is in some total, had
      no key, or is still to be keyed. */
  ghost predicate Balanced(c: Counters) {
    && (forall key :: BalancedAt(c, key))
    && SumOf(c.total) + c.unkeyed + (if c.phase.Entered? then 1 else 0) == c.globalReceived
  }

  lemma CountOfBumped(m: Counts, key: string, other: string)
    ensures Count(Bumped(m, key), other) == Count(m, other) + if other == key then 1 else 0
  {
  }

  lemma StepKeepsBalanceAt(c: Counters, step: CounterStep, key: string)
    requires BalancedAt(c, key) && CanCount(c, step)
    ensures BalancedAt(AfterCount(c, step), key)
  {
    if step.CountTotal? {
      CountOfBumped(c.total, step.key, key);
    } else if step.CountClass? {
      ClassKeepsBalanceAt(c, step.verdict, key);
    }
  }

  lemma ClassKeepsBalanceAt(c: Counters, verdict: Verdict, key: string)
    requires BalancedAt(c, key) && c.phase.Counted?
    ensures BalancedAt(AfterCount(c, CountClass(verdict)), key)
  {
    var counted := c.phase.key;
    match verdict
    case Rejected => CountOfBumped(c.rejected, counted, key);
    case Future => CountOfBumped(c.future, counted, key);
    case Expired => CountOfBumped(c.expired, counted, key);
    case Timely(_) => CountOfBumped(c.received, counted, key);
  }

  lemma StepKeepsBalance(c: Counters, step: CounterStep)
    requires Balanced(c) && CanCount(c, step)
    ensures Balanced(AfterCount(c, step))
  {
    forall key ensures BalancedAt(AfterCount(c, step), key) {
      StepKeepsBalanceAt(c, step, key);
    }
    if step.CountTotal? {
      SumOfBumped(c.total, step.key);
    }
  }

  /** No counter of a stream decreases. */
  predicate GrowsAt(c: Counters, d: Counters, key: string) {
    && Count(c.total, key) <= Count(d.total, key) && Count(c.received, key) <= Count(d.received, key)
    && Count(c.future, key) <= Count(d.future, key) && Count(c.expired, key) <= Count(d.expired, key)
  }

  lemma StepGrows(c: Counters, step: CounterStep, key: string)
    requires CanCount(c, step)
    ensures GrowsAt(c, AfterCount(c, step), key)
  {
  }

  /** The values at the lock releases of a run of the tabulator. */
  ghost predicate CounterRun(states: seq<Counters>, steps: seq<CounterStep>)
    decreases |steps|, 1
  {
    |states| == |steps| + 1 && if steps == [] then states[0] == NO_COUNTS else LastStepCounts(states, steps)
  }

  ghost predicate LastStepCounts(states: seq<Counters>, steps: seq<CounterStep>)
    requires |states| == |steps| + 1 > 1
    decreases |steps|, 0
  {
    var n := |steps| - 1;
    && CounterRun(states[..n + 1], steps[..n])
    && CanCount(states[n], steps[n]) && states[n + 1] == AfterCount(states[n], steps[n])
  }

  lemma {:induction false} CounterRunExtends(states: seq<Counters>, steps: seq<CounterStep>, step: CounterStep)
    requires CounterRun(states, steps) && CanCount(states[|steps|], step)
    ensures CounterRun(states + [AfterCount(states[|steps|], step)], steps + [step])
  {
    var more, all := states + [AfterCount(states[|steps|], step)], steps + [step];
    assert more[..|steps| + 1] == states && all[..|steps|] == steps;
    assert LastStepCounts(more, all);
  }

  lemma {:induction false} StepOfRun(states: seq<Counters>, steps: seq<CounterStep>, i: nat)
    requires CounterRun(states, steps) && i <= |steps|
    ensures states[0] == NO_COUNTS
    ensures i < |steps| ==> CanCount(states[i], steps[i]) && states[i + 1] == AfterCount(states[i], steps[i])
    decreases |steps|
  {
    if steps != [] {
      var n := |steps| - 1;
      assert LastStepCounts(states, steps);
      StepOfRun(states[..n + 1], steps[..n], if i < n then i else n);
    }
  }

  lemma {:induction false} RunIsBalanced(states: seq<Counters>, steps: seq<CounterStep>, i: nat)
    requires CounterRun(states, steps) && i < |states|
    ensures Balanced(states[i])
  {
    if i == 0 {
      StepOfRun(states, steps, 0);
    } else {
      RunIsBalanced(states, steps, i - 1);
      StepOfRun(states, steps, i - 1);
      StepKeepsBalance(states[i - 1], steps[i - 1]);
    }
  }

  lemma {:induction false} RunGrows(states: seq<Counters>, steps: seq<CounterStep>, i: nat, j: nat, key: string)
    requires CounterRun(states, steps) && i <= j < |states|
    ensures GrowsAt(states[i], states[j], key)
    decreases j - i
  {
    if i < j {
      RunGrows(states, steps, i, j - 1, key);
      RunGrowsOnce(states, steps, j - 1, key);
      GrowsOn(states[i], states[j - 1], states[j], key);
    }
  }

  lemma GrowsOn(c: Counters, d: Counters, e: Counters, key: string)
    requires GrowsAt(c, d, key) && GrowsAt(d, e, key)
    ensures GrowsAt(c, e, key)
  {
  }

  lemma RunGrowsOnce(states: seq<Counters>, steps: seq<CounterStep>, i: nat, key: string)
    requires CounterRun(states, steps) && i < |steps|
    ensures GrowsAt(states[i], states[i + 1], key)
  {
    StepOfRun(states, steps, i);
    StepGrows(states[i], steps[i], key);
  }

  /** A reader that takes the three class counters of a stream at any moments, and
      the total no earlier than any of them, never sees their sum exceed it; and
      the totals never exceed the packets received. */
  lemma ReadersSeeNoExcess(states: seq<Counters>, steps: seq<CounterStep>, key: string, r: nat, f: nat, e: nat, t: nat)
    requires CounterRun(states, steps) && r <= t && f <= t && e <= t < |states|
    ensures Count(states[r].received, key) + Count(states[f].future, key) + Count(states[e].expired, key)
            <= Count(states[t].total, key)
    ensures SumOf(states[t].total) <= states[t].globalReceived
  {
    RunGrows(states, steps, r, t, key);
    RunGrows(states, steps, f, t, key);
    RunGrows(states, steps, e, t, key);
    RunIsBalanced(states, steps, t);
    assert BalancedAt(states[t], key);
  }

  /** The counter of a class. */
  function ClassCount(c: Counters, verdict: Verdict, key: string): nat {
    match verdict
    case Rejected => Count(c.rejected, key)
    case Future => Count(c.future, key)
    case Expired => Count(c.expired, key)
    case Timely(_) => Count(c.received, key)
  }

  /** The order matters for each of the three counters: a reader that takes the total
      before the counter of a class can see an excess in any stream, already with one
      packet. */
  lemma TotalFirstSeesExcess(key: string, verdict: Verdict) returns (states: seq<Counters>, steps: seq<CounterStep>)
    ensures CounterRun(states, steps) && |states| == 4
    ensures ClassCount(states[3], verdict, key) > Count(states[0].total, key)
  {
    steps := [Enter, CountTotal(key), CountClass(verdict)];
    var one := AfterCount(NO_COUNTS, Enter);
    var two := AfterCount(one, CountTotal(key));
    states := [NO_COUNTS, one, two, AfterCount(two, CountClass(verdict))];
    CounterRunExtends([NO_COUNTS], [], Enter);
    assert [NO_COUNTS] + [one] == [NO_COUNTS, one] && [] + [Enter] == [Enter];
    CounterRunExtends([NO_COUNTS, one], [Enter], CountTotal(key));
    assert [NO_COUNTS, one] + [two] == [NO_COUNTS, one, two] && [Enter] + [CountTotal(key)] == [Enter, CountTotal(key)];
    CounterRunExtends([NO_COUNTS, one, two], [Enter, CountTotal(key)], CountClass(verdict));
    assert [NO_COUNTS, one, two] + [states[3]] == states && [Enter, CountTotal(key)] + [CountClass(verdict)] == steps;
  }

  /** A packet of the pipeline is never rejected and always has a key, so the sums
      are the only step left that can throw. */
  lemma CarriedIsNeverRejected(host: Endian, a: Arithmetic, p: Packet, swapBytes: bool, now: int)
    requires Carried(host, a, p, swapBytes)
    ensures KeyName(p.identifier).Some? && !Classify(p, now).Rejected? && !p.dataType.Unrecognized?
  {
  }

  // ----- The lives of all streams -----

  /** The lives of the streams that have a window. */
  type Lives = map<string, Life>

  function LifeOf(lives: Lives, key: string): Life {
    if key in lives then lives[key] else New
  }

  /** A packet has entered stream key. */
  function WithPacket(lives: Lives, key: string, c: Contribution): Lives {
    lives[key := Then(LifeOf(lives, key), Added(c))]
  }

  /** Every stream has got its visits at the given clock times, and nothing else. */
  ghost predicate AllVisited(before: Lives, after: Lives, ticks: seq<int>) {
    after.Keys == before.Keys && forall k :: k in before ==> after[k] == AfterVisits(before[k], ticks)
  }

  /** Every stream has got its visits, and then a packet has entered stream key, which
      may be new. */
  ghost predicate VisitedAndEntered(before: Lives, after: Lives, ticks: seq<int>, key: string, c: Contribution) {
    && after.Keys == before.Keys + {key}
    && (forall k :: k in before && k != key ==> after[k] == AfterVisits(before[k], ticks))
    && after[key] == Then(if key in before then AfterVisits(before[key], ticks) else New, Added(c))
  }

  /** Every stream has got its visits, and then the entry, if any, has been made. */
  ghost predicate TookIn(before: Lives, after: Lives, ticks: seq<int>, entry: Option<(string, Contribution)>) {
    match entry
    case None => AllVisited(before, after, ticks)
    case Some((key, c)) => VisitedAndEntered(before, after, ticks, key, c)
  }

  lemma VisitsThenEntry(before: Lives, mid: Lives, ticks: seq<int>, key: string, c: Contribution)
    requires AllVisited(before, mid, ticks)
    ensures VisitedAndEntered(before, WithPacket(mid, key, c), ticks, key, c)
  {
  }

  lemma NoVisits(lives: Lives)
    ensures AllVisited(lives, lives, [])
  {
  }

  lemma OneMoreVisit(before: Lives, mid: Lives, after: Lives, ticks: seq<int>, tick: int)
    requires AllVisited(before, mid, ticks) && AllVisited(mid, after, [tick])
    ensures AllVisited(before, after, ticks + [tick])
  {
    forall k | k in before ensures after[k] == AfterVisits(before[k], ticks + [tick]) {
      AfterOneMoreVisit(before[k], ticks, tick);
      AfterOneMoreVisit(mid[k], [], tick);
      assert [] + [tick] == [tick];
    }
  }

  /** Some streams of the timer's round are still to come. */
  ghost predicate PartlyVisited(before: Lives, after: Lives, rest: set<string>, tick: int) {
    && after.Keys == before.Keys
    && forall k :: k in before ==> after[k] == if k in rest then before[k] else Then(before[k], Visited(tick))
  }

  lemma RoundStarts(lives: Lives, tick: int)
    ensures PartlyVisited(lives, lives, lives.Keys, tick)
  {
  }

  lemma RoundGoesOn(before: Lives, after: Lives, rest: set<string>, key: string, tick: int)
    requires PartlyVisited(before, after, rest, tick) && key in rest && key in before
    ensures key in after && PartlyVisited(before, after[key := Then(after[key], Visited(tick))], rest - {key}, tick)
  {
  }

  lemma RoundEnds(before: Lives, after: Lives, tick: int)
    requires PartlyVisited(before, after, {}, tick)
    ensures AllVisited(before, after, [tick])
  {
    forall k | k in before ensures after[k] == AfterVisits(before[k], [tick]) {
      AfterOneMoreVisit(before[k], [], tick);
      assert [] + [tick] == [tick];
    }
  }

  // ----- From the received counter to the windows -----

  predicate AccountedAt(received: Counts, lives: Lives, failed: Counts, updating: Option<string>, key: string) {
    Count(received, key) == AddedCount(LifeOf(lives, key)) + Count(failed, key) + (if updating == Some(key) then 1 else 0)
  }

  /** Every packet counted as received has entered its stream, has failed, or is still to
      enter; and those that entered were timely. */
  ghost predicate AllAccounted(received: Counts, lives: Lives, failed: Counts, updating: Option<string>) {
    && (forall k :: AccountedAt(received, lives, failed, updating, k))
    && (forall k :: k in lives ==> LifeWithin(lives[k], MAXIMUM_LATENCY))
  }

  lemma ReceivedIsAccounted(received: Counts, lives: Lives, failed: Counts, key: string)
    requires AllAccounted(received, lives, failed, None)
    ensures AllAccounted(Bumped(received, key), lives, failed, Some(key))
    ensures AllAccounted(Bumped(received, key), lives, Bumped(failed, key), None)
  {
    forall k
      ensures AccountedAt(Bumped(received, key), lives, failed, Some(key), k)
      ensures AccountedAt(Bumped(received, key), lives, Bumped(failed, key), None, k)
    {
      CountOfBumped(received, key, k);
      CountOfBumped(failed, key, k);
      assert AccountedAt(received, lives, failed, None, k);
    }
  }

  lemma EntryIsAccounted(received: Counts, lives: Lives, failed: Counts, key: string, c: Contribution)
    requires AllAccounted(received, lives, failed, Some(key)) && 0 <= c.latency <= MAXIMUM_LATENCY
    ensures AllAccounted(received, WithPacket(lives, key, c), failed, None)
  {
    forall k ensures AccountedAt(received, WithPacket(lives, key, c), failed, None, k) {
      assert AccountedAt(received, lives, failed, Some(key), k);
    }
  }

  lemma {:induction false} VisitsKeepLife(life: Life, ticks: seq<int>)
    ensures AddedCount(AfterVisits(life, ticks)) == AddedCount(life)
    ensures LifeWithin(AfterVisits(life, ticks), MAXIMUM_LATENCY) <==> LifeWithin(life, MAXIMUM_LATENCY)
    decreases |ticks|
  {
    if ticks != [] {
      VisitsKeepLife(life, ticks[..|ticks| - 1]);
    }
  }

  lemma VisitsAreAccounted(received: Counts, before: Lives, after: Lives, ticks: seq<int>, failed: Counts, updating: Option<string>)
    requires AllVisited(before, after, ticks) && AllAccounted(received, before, failed, updating)
    ensures AllAccounted(received, after, failed, updating)
  {
    forall k ensures AccountedAt(received, after, failed, updating, k) {
      VisitsKeepLife(LifeOf(before, k), ticks);
      assert AccountedAt(received, before, failed, updating, k);
    }
    forall k | k in after ensures LifeWithin(after[k], MAXIMUM_LATENCY) {
      VisitsKeepLife(before[k], ticks);
    }
  }

  // ----- The singleton -----

  class MetricsSingleton {
    const host: Endian
    const arithmetic: Arithmetic
    var mReceivedPacketsCounter: nat
    var mTotal: Counts
    var mReceived: Counts
    var mFuture: Counts
    var mExpired: Counts
    var mWindows: map<string, WindowedMetrics>
    /** The three maps of average latencies, average counts and spreads, which are
        written together. */
    var mReported: map<string, Report>
    var mUpdateInterval: int

    /** The counters' values at every lock release so far, and the steps between. */
    ghost var releases: seq<Counters>
    ghost var steps: seq<CounterStep>

    /** Per stream, its life and the packets whose sums cannot be computed, so that the
        update throws; and the stream of a packet counted as received whose update is still
        to complete, if there is one. */
    ghost var lives: Lives
    ghost var failed: Counts
    ghost var updating: Option<string>

    ghost predicate CountersValid()
      reads this`releases, this`steps, this`mReceivedPacketsCounter, this`mTotal, this`mReceived, this`mFuture, this`mExpired
    {
      && CounterRun(releases, steps)
      && Now().Read() == InFields()
    }

    /** The values of the counters. */
    ghost function InFields(): (nat, Counts, Counts, Counts, Counts)
      reads this`mReceivedPacketsCounter, this`mTotal, this`mReceived, this`mFuture, this`mExpired
    {
      (mReceivedPacketsCounter, mTotal, mReceived, mFuture, mExpired)
    }

    ghost function Now(): Counters
      requires releases != []
      reads this`releases
    {
      releases[|releases| - 1]
    }

    /** A window's fields match its life. */
    ghost predicate WindowValid(w: WindowedMetrics)
      reads w
    {
      w.Valid() && w.host == host && w.arithmetic == arithmetic
    }

    /** What a stream's last closed window reported is stored under its key. */
    ghost predicate Stored(key: string, w: WindowedMetrics)
      reads this`mReported, w`life
    {
      w.State().closed != [] ==> key in mReported && mReported[key] == w.State().shown
    }

    ghost predicate WindowsValid()
      reads this`mWindows, this`mReported, this`mUpdateInterval, this`lives, mWindows.Values
    {
      && mUpdateInterval > 0 && lives.Keys == mWindows.Keys
      && (forall k :: k in mWindows ==> StreamValid(k, mWindows[k]))
      && (forall j, k :: j in mWindows && k in mWindows && j != k ==> mWindows[j] != mWindows[k])
    }

    ghost predicate StreamValid(key: string, w: WindowedMetrics)
      reads this`mReported, this`lives, w
    {
      WindowValid(w) && Stored(key, w) && key in lives && lives[key] == w.life
    }

    /** Every packet counted as received has entered its stream's windows, has failed, or
        is still to be updated. */
    ghost predicate Accounted()
      reads this`mReceived, this`lives, this`failed, this`updating
    {
      AllAccounted(mReceived, lives, failed, updating)
    }

    /** The window of a stream, if there is a stream and it has one. */
    ghost function WindowOf(key: Option<string>): set<WindowedMetrics>
      reads this`mWindows
    {
      if key.Some? && key.value in mWindows then {mWindows[key.value]} else {}
    }

    constructor (host: Endian, arithmetic: Arithmetic)
      ensures CountersValid() && WindowsValid() && Accounted() && updating == None
      ensures Now() == NO_COUNTS && mWindows == map[] && mUpdateInterval == 120
    {
      this.host, this.arithmetic := host, arithmetic;
      mReceivedPacketsCounter := 0;
      mTotal, mReceived, mFuture, mExpired := map[], map[], map[], map[];
      mWindows, mReported := map[], map[];
      mUpdateInterval := 120;
      releases, steps := [NO_COUNTS], [];
      lives, failed, updating := map[], map[], None;
    }

    ghost method Released(step: CounterStep)
      requires releases != [] && CounterRun(releases, steps) && CanCount(Now(), step)
      modifies this`releases, this`steps
      ensures CounterRun(releases, steps) && Now() == AfterCount(old(Now()), step)
    {
      CounterRunExtends(releases, steps, step);
      releases, steps := releases + [AfterCount(Now(), step)], steps + [step];
    }

    method IncrementReceivedPacketsCounter()
      requires CountersValid() && Now().phase.Idle?
      modifies this`mReceivedPacketsCounter, this`releases, this`steps
      ensures CountersValid() && Now() == AfterCount(old(Now()), Enter)
    {
      mReceivedPacketsCounter := mReceivedPacketsCounter + 1;
      Released(Enter);
    }

    method IncrementTotalPacketsCounter(key: string)
      requires CountersValid() && Now().phase.Entered?
      modifies this`mTotal, this`releases, this`steps
      ensures CountersValid() && Now() == AfterCount(old(Now()), CountTotal(key))
    {
      if key !in mTotal {
        mTotal := mTotal[key := 1];
      } else {
        mTotal := mTotal[key := mTotal[key] + 1];
      }
      Released(CountTotal(key));
    }

    method IncrementFuturePacketsCounter(key: string)
      requires CountersValid() && Now().phase == Counted(key)
      modifies this`mFuture, this`releases, this`steps
      ensures CountersValid() && Now() == AfterCount(old(Now()), CountClass(Future))
    {
      if key !in mFuture {
        mFuture := mFuture[key := 1];
      } else {
        mFuture := mFuture[key := mFuture[key] + 1];
      }
      Released(CountClass(Future));
    }

    method IncrementExpiredPacketsCounter(key: string)
      requires CountersValid() && Now().phase == Counted(key)
      modifies this`mExpired, this`releases, this`steps
      ensures CountersValid() && Now() == AfterCount(old(Now()), CountClass(Expired))
    {
      if key !in mExpired {
        mExpired := mExpired[key := 1];
      } else {
        mExpired := mExpired[key := mExpired[key] + 1];
      }
      Released(CountClass(Expired));
    }

    method IncrementReceivedPacketsCounterOf(key: string, ghost latency: int)
      requires CountersValid() && Now().phase == Counted(key)
      modifies this`mReceived, this`releases, this`steps
      ensures CountersValid() && Now() == AfterCount(old(Now()), CountClass(Timely(latency)))
      ensures mReceived == Bumped(old(mReceived), key)
    {
      if key !in mReceived {
        mReceived := mReceived[key := 1];
      } else {
        mReceived := mReceived[key := mReceived[key] + 1];
      }
      Released(CountClass(Timely(latency)));
    }

    method CountTimely(key: string, ghost latency: int, ghost fails: bool)
      requires CountersValid() && Now().phase == Counted(key) && Accounted() && updating == None
      modifies this`mReceived, this`releases, this`steps, this`failed, this`updating
      ensures CountersValid() && Now() == AfterCount(old(Now()), CountClass(Timely(latency)))
      ensures Accounted() && updating == if fails then None else Some(key)
    {
      ghost var before := mReceived;
      IncrementReceivedPacketsCounterOf(key, latency);
      ExpectUpdate(key, fails, before);
    }

    /** From here on an update of the stream's window is to come, or known to fail. */
    ghost method ExpectUpdate(key: string, fails: bool, before: Counts)
      requires AllAccounted(before, lives, failed, None) && mReceived == Bumped(before, key) && updating == None
      modifies this`failed, this`updating
      ensures Accounted() && updating == if fails then None else Some(key)
    {
      ReceivedIsAccounted(before, lives, failed, key);
      if fails {
        failed := Bumped(failed, key);
      } else {
        updating := Some(key);
      }
    }

    /** tabulateMetrics between toKeyName and the window update: counts the packet in
        its stream's total and then in its class.  now is the clock's answer. */
    method CountPacket(key: Option<string>, p: Packet, now: int) returns (verdict: Verdict)
      requires CountersValid() && Now().phase.Entered? && Accounted() && updating == None
      modifies this`mTotal, this`mReceived, this`mFuture, this`mExpired, this`releases, this`steps, this`failed, this`updating
      ensures CountersValid() && Now().phase.Idle? && Accounted()
      ensures updating == if Enters(key, verdict) && !Fails(p) then key else None
      ensures key.Some? ==> verdict == Classify(p, now)
      ensures Now() == AfterPacket(old(Now()), key, verdict)
      ensures key.Some? && verdict.Timely? ==> p.numberOfSamples >= 1 && 0 <= verdict.latency <= MAXIMUM_LATENCY
    {
      verdict := Rejected;
      if key.None? {
        Released(FailKey);
        return;
      }
      IncrementTotalPacketsCounter(key.value);
      verdict := CountClassOf(p, key.value, now);
    }

    /** The checks and time tests of tabulateMetrics, and the class counter they
        choose. */
    method CountClassOf(p: Packet, key: string, now: int) returns (verdict: Verdict)
      requires CountersValid() && Now().phase == Counted(key) && Accounted() && updating == None
      modifies this`mReceived, this`mFuture, this`mExpired, this`releases, this`steps, this`failed, this`updating
      ensures CountersValid() && verdict == Classify(p, now) && Accounted()
      ensures updating == if verdict.Timely? && !Fails(p) then Some(key) else None
      ensures verdict.Timely? ==> p.numberOfSamples >= 1 && 0 <= verdict.latency <= MAXIMUM_LATENCY
      ensures Now() == AfterCount(old(Now()), CountClass(verdict))
    {
      if p.numberOfSamples <= 0 || p.sampleRate <= 0.0 || p.startTime.None? {
        Released(CountClass(Rejected));
        return Rejected;
      }
      verdict := CountByTime(p, key, StartMicros(p), EndMicros(p), now);
      if verdict.Timely? {
        TimelyLatency(p, now);
      }
    }

    /** The time tests of tabulateMetrics. */
    method CountByTime(p: Packet, key: string, startTimeMicroSeconds: int, endTimeMicroSeconds: int, now: int)
        returns (verdict: Verdict)
      requires CountersValid() && Now().phase == Counted(key) && Accounted() && updating == None
      modifies this`mReceived, this`mFuture, this`mExpired, this`releases, this`steps, this`failed, this`updating
      ensures CountersValid() && verdict == ClassifyTimes(startTimeMicroSeconds, endTimeMicroSeconds, now) && Accounted()
      ensures updating == if verdict.Timely? && !Fails(p) then Some(key) else None
      ensures Now() == AfterCount(old(Now()), CountClass(verdict))
    {
      if endTimeMicroSeconds > now + MAXIMUM_FUTURE_TIME {
        IncrementFuturePacketsCounter(key);
        return Future;
      } else if startTimeMicroSeconds < now - MAXIMUM_LATENCY {
        IncrementExpiredPacketsCounter(key);
        return Expired;
      }
      var latency := if now - endTimeMicroSeconds < 0 then 0 else now - endTimeMicroSeconds;
      CountTimely(key, latency, Fails(p));
      verdict := Timely(latency);
    }

    /** The packet's sums cannot be computed. */
    predicate Fails(p: Packet) {
      PacketSums(host, arithmetic, p, host.Big?).Err?
    }

    /** The last section of tabulateMetrics: adds a timely packet to its stream's
        window, creating the window at clock time created if there is none.  A
        packet whose sums throw changes nothing, not even the set of windows; no
        other stream's window is touched. */
    method AddToWindow(key: string, p: Packet, latency: int, created: int) returns (error: Option<SumsError>)
      requires WindowsValid() && Accounted() && updating == (if Fails(p) then None else Some(key)) && Exact(arithmetic)
      requires p.numberOfSamples >= 1 && 0 <= latency <= MAXIMUM_LATENCY
      modifies this`mWindows, this`lives, this`updating, WindowOf(Some(key))
      ensures WindowsValid() && Accounted() && updating == None
      ensures error.Some? <==> Fails(p)
      ensures error.Some? ==> NoWindowChanged(Some(key))
      ensures error.None? ==> EnteredWindow(key, Contribution(PacketValues(host, arithmetic, p), latency), created)
    {
      if !Fails(p) {
        EntryIsAccounted(mReceived, lives, failed, key, Contribution(PacketValues(host, arithmetic, p), latency));
      }
      if key !in mWindows {
        error := AddToNewStream(key, p, latency, created);
      } else {
        error := AddToOldStream(key, p, latency);
      }
    }

    method AddToOldStream(key: string, p: Packet, latency: int) returns (error: Option<SumsError>)
      requires WindowsValid() && key in mWindows
      requires Exact(arithmetic) && p.numberOfSamples >= 1 && 0 <= latency <= MAXIMUM_LATENCY
      modifies mWindows[key], this`lives, this`updating
      ensures WindowsValid()
      ensures error.Some? <==> Fails(p)
      ensures error.Some? ==> unchanged(mWindows[key]) && unchanged(this`lives, this`updating)
      ensures error.None? ==>
                && updating == None && lives == WithPacket(old(lives), key, Contribution(PacketValues(host, arithmetic, p), latency))
    {
      error := AddToPresent(key, mWindows[key], p, latency);
      OthersStayValid(key);
    }

    method AddToNewStream(key: string, p: Packet, latency: int, created: int) returns (error: Option<SumsError>)
      requires WindowsValid() && key !in mWindows
      requires Exact(arithmetic) && p.numberOfSamples >= 1 && 0 <= latency <= MAXIMUM_LATENCY
      modifies this`mWindows, this`lives, this`updating
      ensures WindowsValid()
      ensures error.Some? <==> Fails(p)
      ensures error.Some? ==> unchanged(this`mWindows, this`lives, this`updating)
      ensures error.None? ==>
                && updating == None && lives == WithPacket(old(lives), key, Contribution(PacketValues(host, arithmetic, p), latency))
                && WindowsKept(key, created)
    {
      error := AddToMissing(key, p, latency, created);
      if error.None? {
        NewStreamJoins(key, mWindows[key]);
        return;
      }
      WindowsStayValid();
    }

    twostate lemma WindowsStayValid()
      requires old(WindowsValid()) && unchanged(this`mWindows, this`mReported, this`mUpdateInterval, this`lives)
      requires forall k :: k in mWindows ==> unchanged(mWindows[k])
      ensures WindowsValid()
    {
      forall k | k in mWindows ensures StreamValid(k, mWindows[k]) {
        assert old(StreamValid(k, mWindows[k]));
      }
    }

    /** When at most stream key has changed, and it is valid, all streams are. */
    twostate lemma OthersStayValid(key: string)
      requires old(WindowsValid()) && unchanged(this`mWindows, this`mReported, this`mUpdateInterval)
      requires lives.Keys == mWindows.Keys
      requires forall k :: k in mWindows && k != key ==> lives[k] == old(lives)[k]
      requires key in mWindows ==> StreamValid(key, mWindows[key])
      requires forall k :: k in mWindows && k != key ==> unchanged(mWindows[k])
      ensures WindowsValid()
    {
      forall k | k in mWindows && k != key ensures StreamValid(k, mWindows[k]) {
        assert old(StreamValid(k, mWindows[k]));
      }
    }

    /** When stream key has come new, and it is valid, all streams are. */
    twostate lemma NewStreamJoins(key: string, new w: WindowedMetrics)
      requires old(WindowsValid()) && unchanged(this`mReported, this`mUpdateInterval)
      requires key !in old(mWindows) && mWindows == old(mWindows)[key := w] && fresh(w) && StreamValid(key, w)
      requires lives == old(lives)[key := w.life]
      requires forall k :: k in old(mWindows) ==> unchanged(old(mWindows[k]))
      ensures WindowsValid()
    {
      forall k | k in old(mWindows) ensures StreamValid(k, mWindows[k]) {
        assert old(StreamValid(k, mWindows[k]));
      }
    }

    method AddToPresent(key: string, window: WindowedMetrics, p: Packet, latency: int) returns (error: Option<SumsError>)
      requires StreamValid(key, window) && Exact(arithmetic) && p.numberOfSamples >= 1 && 0 <= latency <= MAXIMUM_LATENCY
      modifies window, this`lives, this`updating
      ensures StreamValid(key, window)
      ensures error.Some? <==> Fails(p)
      ensures error.Some? ==> unchanged(window) && unchanged(this`lives, this`updating)
      ensures error.None? ==>
                && updating == None && lives == WithPacket(old(lives), key, Contribution(PacketValues(host, arithmetic, p), latency))
    {
      error := AddToOldWindow(window, p, latency);
      if error.None? {
        lives := WithPacket(lives, key, Contribution(PacketValues(host, arithmetic, p), latency));
        updating := None;
      }
    }

    method AddToMissing(key: string, p: Packet, latency: int, created: int) returns (error: Option<SumsError>)
      requires key !in mWindows && key !in lives && mUpdateInterval > 0
      requires Exact(arithmetic) && p.numberOfSamples >= 1 && 0 <= latency <= MAXIMUM_LATENCY
      modifies this`mWindows, this`lives, this`updating
      ensures error.Some? <==> Fails(p)
      ensures error.Some? ==> unchanged(this`mWindows, this`lives, this`updating)
      ensures error.None? ==>
                && updating == None && lives == WithPacket(old(lives), key, Contribution(PacketValues(host, arithmetic, p), latency))
                && key in mWindows && fresh(mWindows[key]) && mWindows == old(mWindows)[key := mWindows[key]]
                && StreamValid(key, mWindows[key])
                && mWindows[key].updateInterval == mUpdateInterval && mWindows[key].created == created
    {
      var metrics;
      error, metrics := NewWindow(p, latency, created);
      if error.None? {
        mWindows := mWindows[key := metrics];
        lives := WithPacket(lives, key, Contribution(PacketValues(host, arithmetic, p), latency));
        updating := None;
      }
    }

    method AddToOldWindow(window: WindowedMetrics, p: Packet, latency: int) returns (error: Option<SumsError>)
      requires WindowValid(window) && Exact(arithmetic) && p.numberOfSamples >= 1 && 0 <= latency <= MAXIMUM_LATENCY
      modifies window
      ensures WindowValid(window)
      ensures error.Some? <==> Fails(p)
      ensures error.Some? ==> unchanged(window)
      ensures error.None? ==>
                && window.life == Then(old(window.life), Added(Contribution(PacketValues(host, arithmetic, p), latency)))
                && window.State().closed == old(window.State().closed) && window.State().shown == old(window.State().shown)
    {
      StreamAfterOne(window.updateInterval, window.created, window.life, Added(Contribution(PacketValues(host, arithmetic, p), latency)));
      error := window.Update(p, latency);
    }

    /** A new window holding one packet. */
    method NewWindow(p: Packet, latency: int, created: int) returns (error: Option<SumsError>, metrics: WindowedMetrics)
      requires mUpdateInterval > 0 && Exact(arithmetic) && p.numberOfSamples >= 1 && 0 <= latency <= MAXIMUM_LATENCY
      ensures fresh(metrics) && WindowValid(metrics) && metrics.State().closed == []
      ensures metrics.updateInterval == mUpdateInterval && metrics.created == created
      ensures error.Some? <==> Fails(p)
      ensures error.None? ==> metrics.life == Then(New, Added(Contribution(PacketValues(host, arithmetic, p), latency)))
    {
      metrics := new WindowedMetrics(host, arithmetic, mUpdateInterval, created);
      error := AddToOldWindow(metrics, p, latency);
    }

    /** tabulateMetrics of a packet received at clock time now.  It throws for a packet
        without a key, a rejected one, and one whose sums cannot be computed; such a
        packet, and one that is future or expired, changes no window.  Every other
        packet enters its stream's open window, and no other stream's is touched. */
    method TabulateMetrics(p: Packet, now: int, created: int) returns (key: Option<string>, verdict: Verdict, error: Option<SumsError>)
      requires CountersValid() && Now().phase.Entered? && WindowsValid() && Accounted() && updating == None && Exact(arithmetic)
      modifies this`mTotal, this`mReceived, this`mFuture, this`mExpired, this`releases, this`steps, this`updating,
               this`lives, this`failed, this`mWindows, WindowOf(KeyName(p.identifier))
      ensures CountersValid() && Now().phase.Idle? && WindowsValid() && Accounted() && updating == None
      ensures key == KeyName(p.identifier)
      ensures key.Some? ==> verdict == Classify(p, now)
      ensures Now() == AfterPacket(old(Now()), key, verdict)
      ensures error.Some? <==> Enters(key, verdict) && Fails(p)
      ensures !Enters(key, verdict) || error.Some? ==> NoWindowChanged(key)
      ensures Enters(key, verdict) && error.None? ==>
                EnteredWindow(key.value, Contribution(PacketValues(host, arithmetic, p), verdict.latency), created)
    {
      key := KeyName(p.identifier);
      verdict, error := TabulateKeyed(key, p, now, created);
    }

    /** The rest of tabulateMetrics after toKeyName. */
    method TabulateKeyed(key: Option<string>, p: Packet, now: int, created: int) returns (verdict: Verdict, error: Option<SumsError>)
      requires CountersValid() && Now().phase.Entered? && WindowsValid() && Accounted() && updating == None && Exact(arithmetic)
      modifies this`mTotal, this`mReceived, this`mFuture, this`mExpired, this`releases, this`steps, this`updating,
               this`lives, this`failed, this`mWindows, WindowOf(key)
      ensures CountersValid() && Now().phase.Idle? && WindowsValid() && Accounted() && updating == None
      ensures key.Some? ==> verdict == Classify(p, now)
      ensures Now() == AfterPacket(old(Now()), key, verdict)
      ensures error.Some? <==> Enters(key, verdict) && Fails(p)
      ensures !Enters(key, verdict) || error.Some? ==> NoWindowChanged(key)
      ensures Enters(key, verdict) && error.None? ==>
                EnteredWindow(key.value, Contribution(PacketValues(host, arithmetic, p), verdict.latency), created)
    {
      verdict := CountPacket(key, p, now);
      WindowsStayValid();
      ghost var counted := Now();
      error := AddIfTimely(key, verdict, p, created);
      assert Now() == counted;
    }

    /** What a packet adds to which stream, if it enters one and its sums are defined. */
    function EntryOf(key: Option<string>, verdict: Verdict, p: Packet): Option<(string, Contribution)> {
      if Enters(key, verdict) && !Fails(p) then
        Some((key.value, Contribution(PacketValues(host, arithmetic, p), verdict.latency)))
      else None
    }

    /** The timer's thread comes between the counting and the window update, any number of
        times: every stream gets its visits, and then the packet enters its window, if
        it is to, and no other changes. */
    method TabulateAroundTimer(key: Option<string>, p: Packet, now: int, ticks: seq<int>, created: int)
        returns (verdict: Verdict, error: Option<SumsError>)
      requires CountersValid() && Now().phase.Entered? && WindowsValid() && Accounted() && updating == None && Exact(arithmetic)
      modifies this`mTotal, this`mReceived, this`mFuture, this`mExpired, this`releases, this`steps, this`updating,
               this`lives, this`failed, this`mReported, this`mWindows, mWindows.Values
      ensures CountersValid() && Now().phase.Idle? && WindowsValid() && Accounted() && updating == None
      ensures key.Some? ==> verdict == Classify(p, now)
      ensures Now() == AfterPacket(old(Now()), key, verdict)
      ensures error.Some? <==> Enters(key, verdict) && Fails(p)
      ensures TookIn(old(lives), lives, ticks, EntryOf(key, verdict, p))
      ensures if EntryOf(key, verdict, p).Some? then WindowsKept(key.value, created) else mWindows == old(mWindows)
    {
      verdict := CountPacket(key, p, now);
      WindowsStayValid();
      ghost var counted := Now();
      error := AddAfterVisits(key, verdict, p, ticks, created);
      assert Now() == counted;
    }

    method AddAfterVisits(key: Option<string>, verdict: Verdict, p: Packet, ticks: seq<int>, created: int)
        returns (error: Option<SumsError>)
      requires WindowsValid() && Accounted() && Exact(arithmetic)
      requires updating == if Enters(key, verdict) && !Fails(p) then key else None
      requires Enters(key, verdict) ==> p.numberOfSamples >= 1 && 0 <= verdict.latency <= MAXIMUM_LATENCY
      modifies this`mWindows, this`mReported, this`lives, this`updating, mWindows.Values
      ensures WindowsValid() && Accounted() && updating == None
      ensures error.Some? <==> Enters(key, verdict) && Fails(p)
      ensures TookIn(old(lives), lives, ticks, EntryOf(key, verdict, p))
      ensures if EntryOf(key, verdict, p).Some? then WindowsKept(key.value, created) else mWindows == old(mWindows)
    {
      TimerRuns(ticks);
      VisitsAreAccounted(mReceived, old(lives), lives, ticks, failed, updating);
      if EntryOf(key, verdict, p).Some? {
        VisitsThenEntry(old(lives), lives, ticks, key.value, Contribution(PacketValues(host, arithmetic, p), verdict.latency));
      }
      error := AddIfTimely(key, verdict, p, created);
    }

    /** Every stream keeps its window; stream key has one, and if it is new it has the
        interval now configured. */
    twostate predicate WindowsKept(key: string, created: int)
      reads this`mWindows, this`mUpdateInterval, mWindows.Values
    {
      && key in mWindows
      && if key in old(mWindows) then mWindows == old(mWindows)
         else && fresh(mWindows[key]) && mWindows == old(mWindows)[key := mWindows[key]]
              && mWindows[key].updateInterval == mUpdateInterval && mWindows[key].created == created
    }

    /** The timer's thread visits all streams at each of the given clock times. */
    method TimerRuns(ticks: seq<int>)
      requires WindowsValid()
      modifies this`mReported, this`lives, mWindows.Values
      ensures WindowsValid() && AllVisited(old(lives), lives, ticks)
    {
      NoVisits(lives);
      assert ticks[..0] == [];
      for i := 0 to |ticks|
        invariant WindowsValid() && AllVisited(old(lives), lives, ticks[..i])
      {
        VisitAgain(old(lives), ticks[..i], ticks[i]);
        assert ticks[..i + 1] == ticks[..i] + [ticks[i]];
      }
      assert ticks[..|ticks|] == ticks;
    }

    /** One more visit to all streams. */
    method VisitAgain(ghost before: Lives, ghost ticks: seq<int>, tick: int)
      requires WindowsValid() && AllVisited(before, lives, ticks)
      modifies this`mReported, this`lives, mWindows.Values
      ensures WindowsValid() && AllVisited(before, lives, ticks + [tick])
    {
      ghost var mid := lives;
      UpdateAndResetWindowedMetrics(tick);
      OneMoreVisit(before, mid, lives, ticks, tick);
    }

    /** The rest of tabulateMetrics after the counting. */
    method AddIfTimely(key: Option<string>, verdict: Verdict, p: Packet, created: int) returns (error: Option<SumsError>)
      requires WindowsValid() && Accounted() && Exact(arithmetic)
      requires updating == if Enters(key, verdict) && !Fails(p) then key else None
      requires Enters(key, verdict) ==> p.numberOfSamples >= 1 && 0 <= verdict.latency <= MAXIMUM_LATENCY
      modifies this`mWindows, this`lives, this`updating, WindowOf(key)
      ensures WindowsValid() && Accounted() && updating == None
      ensures error.Some? <==> Enters(key, verdict) && Fails(p)
      ensures !Enters(key, verdict) || error.Some? ==> NoWindowChanged(key)
      ensures Enters(key, verdict) && error.None? ==>
                EnteredWindow(key.value, Contribution(PacketValues(host, arithmetic, p), verdict.latency), created)
    {
      error := None;
      if key.Some? && verdict.Timely? {
        error := AddToWindow(key.value, p, verdict.latency, created);
      }
    }

    /** Only a timely packet with a key is to enter a window. */
    predicate Enters(key: Option<string>, verdict: Verdict) {
      key.Some? && verdict.Timely?
    }

    /** The call has left the windows as they were. */
    twostate predicate NoWindowChanged(key: Option<string>)
      reads this`mWindows, this`lives, mWindows.Values
    {
      unchanged(this`mWindows, this`lives) && (key.Some? && key.value in mWindows ==> unchanged(mWindows[key.value]))
    }

    /** The call has added c at the end of the stream's open window, and to no other. */
    twostate predicate EnteredWindow(key: string, c: Contribution, created: int)
      reads this`mWindows, this`mUpdateInterval, this`lives, mWindows.Values
    {
      WindowsKept(key, created) && lives == WithPacket(old(lives), key, c)
    }

    /** setUpdateInterval: throws unless the interval is positive, and affects only
        windows made later. */
    method SetUpdateInterval(interval: int) returns (accepted: bool)
      requires WindowsValid()
      modifies this`mUpdateInterval
      ensures WindowsValid() && (accepted <==> interval > 0)
      ensures mUpdateInterval == if accepted then interval else old(mUpdateInterval)
    {
      accepted := interval > 0;
      if accepted {
        mUpdateInterval := interval;
      }
    }

    /** updateAndResetWindowedMetrics at clock time now: every stream gets one visit,
        which closes its window if the interval has passed, and what a closed window
        reports is stored under the stream's key.  It may come between the two
        sections of tabulateMetrics. */
    method UpdateAndResetWindowedMetrics(now: int)
      requires WindowsValid()
      modifies this`mReported, this`lives, mWindows.Values
      ensures WindowsValid() && AllVisited(old(lives), lives, [now])
      ensures old(Accounted()) ==> Accounted()
    {
      var keys := mWindows.Keys;
      RoundStarts(lives, now);
      while keys != {}
        invariant WindowsValid() && keys <= mWindows.Keys
        invariant PartlyVisited(old(lives), lives, keys, now)
        decreases keys
      {
        var key :| key in keys;
        RoundGoesOn(old(lives), lives, keys, key, now);
        TickOne(key, now);
        keys := keys - {key};
      }
      RoundEnds(old(lives), lives, now);
      if old(Accounted()) {
        VisitsAreAccounted(mReceived, old(lives), lives, [now], failed, updating);
      }
    }

    /** One round of the timer's loop. */
    method TickOne(key: string, now: int)
      requires WindowsValid() && key in mWindows
      modifies this`mReported, this`lives, mWindows[key]
      ensures WindowsValid() && lives == old(lives)[key := Then(old(lives)[key], Visited(now))]
    {
      Tick(key, mWindows[key], now);
      OthersStillStored(key);
    }

    /** When only stream key and what is stored for it have changed, and it is valid, all
        streams are. */
    twostate lemma OthersStillStored(key: string)
      requires old(WindowsValid()) && unchanged(this`mWindows, this`mUpdateInterval)
      requires lives.Keys == mWindows.Keys
      requires forall k :: k in mWindows && k != key ==> lives[k] == old(lives)[k]
      requires key in mWindows && StreamValid(key, mWindows[key])
      requires forall k :: k in mWindows && k != key ==> unchanged(mWindows[k])
      requires forall k :: k != key && k in old(mReported) ==> k in mReported && mReported[k] == old(mReported)[k]
      ensures WindowsValid()
    {
      forall k | k in mWindows && k != key ensures StreamValid(k, mWindows[k]) {
        assert old(StreamValid(k, mWindows[k]));
      }
    }

    method Tick(key: string, window: WindowedMetrics, now: int)
      requires StreamValid(key, window)
      modifies this`mReported, this`lives, window
      ensures StreamValid(key, window) && lives == old(lives)[key := Then(old(lives)[key], Visited(now))]
      ensures forall k :: k != key && k in old(mReported) ==> k in mReported && mReported[k] == old(mReported)[k]
    {
      StreamAfterOne(window.updateInterval, window.created, window.life, Visited(now));
      var updated := window.UpdateAndReset(now);
      lives := lives[key := Then(lives[key], Visited(now))];
      if updated {
        mReported := mReported[key := window.Shown()];
      }
    }

    /** Whatever calls have been made, of the packets counted as received in a stream
        those that completed are in its windows, once each and in order, and the
        windows' totals are those of these packets; the others have failed, or are
        still to be updated. */
    lemma ReceivedPacketsAreInWindows(key: string)
      requires WindowsValid() && Accounted() && key in mWindows
      ensures var s := mWindows[key].State(); var cs := AddedIn(mWindows[key].life);
        && Flatten(s.closed) + s.open == cs
        && Plus(ClosedTotals(s.closed), TotalsOf(s.open)) == TotalsOf(cs)
        && Count(mReceived, key) == |cs| + Count(failed, key) + (if updating == Some(key) then 1 else 0)
    {
      var w := mWindows[key];
      EveryPacketInItsWindow(w.updateInterval, w.created, w.life);
      StreamIsConserved(w.updateInterval, w.created, w.life);
      LifeCounts(w.life);
      assert StreamValid(key, w);
      assert AccountedAt(mReceived, lives, failed, updating, key);
    }

    /** What is stored for a stream whose last closed window had samples is that window's
        report: the means of its samples and latencies, the latter between 0 and 180 days
        (15552000 seconds), and a spread that satisfies its identity and is zero exactly when all samples are equal. */
    lemma StoredReportIsRight(key: string)
      requires WindowsValid() && Accounted() && key in mWindows && mWindows[key].State().closed != []
      ensures var w := mWindows[key]; var last := w.State().closed[|w.State().closed| - 1];
        && key in mReported && mReported[key] == ReportOf(last, w.updateInterval)
        && (|Samples(last)| > 0 ==>
              && 0.0 <= mReported[key].averageLatency <= 15552000.0 && MeansAreOf(mReported[key], last)
              && SpreadIsOf(mReported[key].spreadSquared, Samples(last)))
    {
      var w := mWindows[key];
      assert StreamValid(key, w);
      ShownIsLastReport(w.updateInterval, w.created, w.life);
      LifeWithinMeans(w.life, MAXIMUM_LATENCY);
      ShownLatencyInRange(w.updateInterval, w.created, w.life, MAXIMUM_LATENCY);
      ShownMeans(w.updateInterval, w.created, w.life);
      ShownSpread(w.updateInterval, w.created, w.life);
    }
  }
}
