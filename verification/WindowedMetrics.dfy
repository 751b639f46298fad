/** struct WindowedMetrics of src/modules/metrics.cppm: the sums of one stream's
  current window, closed and reported on a timer by another thread.

  update and updateAndReset hold the metrics mutex throughout, so an interleaving
  of the two threads is a sequence of calls.
 */
module WindowedMetricsStore {
  import opened Wrappers
  import opened SampleCodec
  import opened PacketConverter
  import opened Statistics

  // ----- What a packet contributes -----

  function Values(a: Arithmetic, format: Format, samples: seq<nat>): (v: seq<real>)
    ensures |v| == |samples|
  {
    if samples == [] then [] else [SampleValue(a, format, samples[0])] + Values(a, format, samples[1..])
  }

  function Zeros(n: nat): (z: seq<real>)
    ensures |z| == n
  {
    if n == 0 then [] else Zeros(n - 1) + [0.0]
  }

  /** The samples of a packet as the statistics see them. */
  function PacketValues(host: Endian, a: Arithmetic, p: Packet): seq<real> {
    var format := FormatOf(p.dataType);
    if format.Some? then Values(a, format.value, Patterns(host, p, host.Big?))
    else Zeros(if p.numberOfSamples < 0 then 0 else p.numberOfSamples)
  }

  lemma {:induction false} ValuesAt(a: Arithmetic, format: Format, samples: seq<nat>, i: nat)
    requires i < |samples|
    ensures Values(a, format, samples)[i] == SampleValue(a, format, samples[i])
  {
    if i > 0 {
      ValuesAt(a, format, samples[1..], i - 1);
    }
  }

  lemma {:induction false} ZerosAt(n: nat, i: nat)
    requires i < n
    ensures Zeros(n)[i] == 0.0
  {
    if i < n - 1 {
      ZerosAt(n - 1, i);
    }
  }

  /** The samples of a packet that stores some patterns in the host's order: the
      integers stored, the floats or doubles, and zeros for text and unknown samples. */
  lemma PacketValueAt(host: Endian, a: Arithmetic, p: Packet, samples: seq<nat>, i: nat)
    requires p.numberOfSamples == |samples| && i < |samples| && !p.dataType.Unrecognized?
    requires FormatOf(p.dataType).Some? ==>
               var width := if p.dataType == Integer32 || p.dataType == FloatSamples then 4 else 8;
               p.data == Packed(host, width, samples, host.Big?) && AllBelow(samples, Pow256(width))
    ensures |PacketValues(host, a, p)| == |samples|
    ensures p.dataType == Integer32 ==>
              forall v :: InRange(4, v) && v % Pow256(4) == samples[i] ==> PacketValues(host, a, p)[i] == v as real
    ensures p.dataType == Integer64 ==>
              forall v :: InRange(8, v) && v % Pow256(8) == samples[i] ==> PacketValues(host, a, p)[i] == a.round(v as real)
    ensures p.dataType == FloatSamples ==> PacketValues(host, a, p)[i] == a.float(samples[i])
    ensures p.dataType == DoubleSamples ==> PacketValues(host, a, p)[i] == a.double(samples[i])
    ensures p.dataType == TextSamples || p.dataType == Unknown ==> PacketValues(host, a, p)[i] == 0.0
  {
    if FormatOf(p.dataType).Some? {
      var format := FormatOf(p.dataType).value;
      UnpackInvertsPack(host, format.Width(), samples, host.Big?);
      ValuesAt(a, format, samples, i);
      if format.Int32? || format.Int64? {
        var w := PatternMeansInteger(a, format, samples[i]);
      }
    } else {
      ZerosAt(|samples|, i);
    }
  }

  /** The statistics see the samples of the record a packet was converted from. */
  lemma ConvertedValues(host: Endian, a: Arithmetic, r: Record, i: nat)
    requires WellFormed(r) && Convert(host, r, host.Big?).Ok? && i < Convert(host, r, host.Big?).value.numberOfSamples
    ensures var p := Convert(host, r, host.Big?).value; var values := PacketValues(host, a, p);
      && i < |values| == p.numberOfSamples <= |r.samples|
      && (r.sampleType == 'i' ==> forall v :: InRange(4, v) && v % Pow256(4) == r.samples[i] ==> values[i] == v as real)
      && (r.sampleType == 'f' ==> values[i] == a.float(r.samples[i]))
      && (r.sampleType == 'd' ==> values[i] == a.double(r.samples[i]))
      && (r.sampleType == 't' ==> values[i] == 0.0)
  {
    var p := Convert(host, r, host.Big?).value;
    ConvertedPacketsFit(host, a, r, host.Big?);
    ConvertedSamplesSurvive(host, r, host.Big?);
    PacketValueAt(host, a, p, r.samples[..p.numberOfSamples], i);
  }

  /** Rounding is not the point here: sums are exact. */
  ghost predicate Exact(a: Arithmetic) {
    forall x: real :: a.round(x) == x && a.roundFloat(x) == x
  }

  lemma {:induction false} ProductAsReal(x: nat, y: int)
    ensures (x * y) as real == x as real * y as real
  {
    if x > 0 {
      ProductAsReal(x - 1, y);
      assert x * y == (x - 1) * y + y;
      assert x as real == (x - 1) as real + 1.0;
      assert ((x - 1) as real + 1.0) * y as real == (x - 1) as real * y as real + y as real;
    }
  }

  lemma SquareAsReal(v: int)
    ensures (v * v) as real == v as real * v as real
  {
    if v >= 0 {
      ProductAsReal(v, v);
    } else {
      ProductAsReal(-v, -v);
      assert v * v == (-v) * (-v);
      assert v as real * v as real == (-v) as real * (-v) as real;
    }
  }

  lemma SampleSquareIsSquare(a: Arithmetic, format: Format, bits: nat)
    requires Exact(a)
    ensures SampleSquare(a, format, bits) == SampleValue(a, format, bits) * SampleValue(a, format, bits)
  {
    SquareAsReal(Signed(format.Width(), bits));
    assert a.round(SampleValue(a, format, bits)) == SampleValue(a, format, bits);
  }

  /** The terms the source adds to the sum of squares. */
  function Squares(a: Arithmetic, format: Format, samples: seq<nat>): (q: seq<real>)
    ensures |q| == |samples|
  {
    if samples == [] then [] else [SampleSquare(a, format, samples[0])] + Squares(a, format, samples[1..])
  }

  lemma {:induction false} SumOfSquares(a: Arithmetic, format: Format, samples: seq<nat>)
    requires Exact(a)
    ensures Sum(Squares(a, format, samples)) == SumSquares(Values(a, format, samples))
  {
    if samples != [] {
      SumOfSquares(a, format, samples[1..]);
      SampleSquareIsSquare(a, format, samples[0]);
      SumOfOne(SampleSquare(a, format, samples[0]), Squares(a, format, samples[1..]));
      SumSquaresOfOne(SampleValue(a, format, samples[0]), Values(a, format, samples[1..]));
    }
  }

  lemma SumOfOne(v: real, rest: seq<real>)
    ensures Sum([v] + rest) == v + Sum(rest)
  {
    SumsOfConcat([v], rest);
    assert [v][..0] == [];
  }

  lemma SumSquaresOfOne(v: real, rest: seq<real>)
    ensures SumSquares([v] + rest) == v * v + SumSquares(rest)
  {
    SumsOfConcat([v], rest);
    assert [v][..0] == [];
  }

  lemma {:induction false} FoldedAddsUp(a: Arithmetic, format: Format, acc: Sums, samples: seq<nat>)
    requires Exact(a) && Folded(a, format, acc, samples).Ok?
    ensures Folded(a, format, acc, samples).value
            == Sums(acc.sum + Sum(Values(a, format, samples)), acc.sumSquared + Sum(Squares(a, format, samples)))
    decreases |samples|
  {
    if samples != [] {
      FoldedAddsUp(a, format, Add(a, format, acc, samples[0]), samples[1..]);
      SumOfOne(SampleValue(a, format, samples[0]), Values(a, format, samples[1..]));
      SumOfOne(SampleSquare(a, format, samples[0]), Squares(a, format, samples[1..]));
    }
  }

  lemma {:induction false} ZerosSums(n: nat)
    ensures Sum(Zeros(n)) == 0.0 && SumSquares(Zeros(n)) == 0.0
  {
    if n > 0 {
      ZerosSums(n - 1);
      assert Zeros(n)[..n - 1] == Zeros(n - 1);
    }
  }

  lemma FoldedTotals(a: Arithmetic, format: Format, samples: seq<nat>)
    requires Exact(a) && Folded(a, format, Sums(0.0, 0.0), samples).Ok?
    ensures Folded(a, format, Sums(0.0, 0.0), samples)
            == Ok(Sums(Sum(Values(a, format, samples)), SumSquares(Values(a, format, samples))))
  {
    FoldedAddsUp(a, format, Sums(0.0, 0.0), samples);
    SumOfSquares(a, format, samples);
  }

  lemma NumericSums(host: Endian, a: Arithmetic, p: Packet, samples: seq<nat>)
    requires Exact(a) && p.numberOfSamples >= 1 && FormatOf(p.dataType).Some? && samples == Patterns(host, p, host.Big?)
    requires PacketSums(host, a, p, host.Big?).Ok?
    ensures |samples| == p.numberOfSamples
    ensures var values := Values(a, FormatOf(p.dataType).value, samples);
      PacketSums(host, a, p, host.Big?) == Ok(Sums(Sum(values), SumSquares(values)))
  {
    PatternsLength(host, p, host.Big?);
    FoldedTotals(a, FormatOf(p.dataType).value, samples);
  }

  /** The sums computed from a packet's bytes are those of its samples. */
  lemma PacketSumsAreSums(host: Endian, a: Arithmetic, p: Packet)
    requires Exact(a) && p.numberOfSamples >= 1 && PacketSums(host, a, p, host.Big?).Ok?
    ensures |PacketValues(host, a, p)| == p.numberOfSamples
    ensures PacketSums(host, a, p, host.Big?)
            == Ok(Sums(Sum(PacketValues(host, a, p)), SumSquares(PacketValues(host, a, p))))
  {
    if FormatOf(p.dataType).Some? {
      NumericSums(host, a, p, Patterns(host, p, host.Big?));
    } else {
      ZerosSums(p.numberOfSamples);
    }
  }

  // ----- Windows -----

  /** What one packet adds to a window. */
  datatype Contribution = Contribution(values: seq<real>, latency: int)

  function Samples(cs: seq<Contribution>): seq<real>
    decreases |cs|
  {
    if cs == [] then [] else Samples(cs[..|cs| - 1]) + cs[|cs| - 1].values
  }

  function TotalLatency(cs: seq<Contribution>): int
    decreases |cs|
  {
    if cs == [] then 0 else TotalLatency(cs[..|cs| - 1]) + cs[|cs| - 1].latency
  }

  function Flatten(windows: seq<seq<Contribution>>): seq<Contribution>
    decreases |windows|
  {
    if windows == [] then [] else Flatten(windows[..|windows| - 1]) + windows[|windows| - 1]
  }

  /** Sum, sum of squares, samples, packets and latency of a set of contributions. */
  datatype Totals = Totals(sum: real, sumSquared: real, samples: int, packets: int, latency: int)

  /** The running totals of the source's fields, packet by packet. */
  function TotalsOf(cs: seq<Contribution>): Totals
    decreases |cs|, 1
  {
    if cs == [] then Totals(0.0, 0.0, 0, 0, 0) else TotalsWithLast(cs)
  }

  function TotalsWithLast(cs: seq<Contribution>): Totals
    requires cs != []
    decreases |cs|, 0
  {
    Plus(TotalsOf(cs[..|cs| - 1]), OneTotals(cs[|cs| - 1]))
  }

  function OneTotals(c: Contribution): Totals {
    Totals(Sum(c.values), SumSquares(c.values), |c.values|, 1, c.latency)
  }

  function Plus(a: Totals, b: Totals): Totals {
    Totals(a.sum + b.sum, a.sumSquared + b.sumSquared, a.samples + b.samples, a.packets + b.packets, a.latency + b.latency)
  }

  function ClosedTotals(windows: seq<seq<Contribution>>): Totals
    decreases |windows|
  {
    if windows == [] then Totals(0.0, 0.0, 0, 0, 0)
    else Plus(ClosedTotals(windows[..|windows| - 1]), TotalsOf(windows[|windows| - 1]))
  }

  /** The running totals are the sums over all samples and latencies. */
  lemma {:induction false} TotalsAreSums(cs: seq<Contribution>)
    ensures TotalsOf(cs) == Totals(Sum(Samples(cs)), SumSquares(Samples(cs)), |Samples(cs)|, |cs|, TotalLatency(cs))
    decreases |cs|
  {
    if cs != [] {
      var n := |cs| - 1;
      TotalsAreSums(cs[..n]);
      SumsOfConcat(Samples(cs[..n]), cs[n].values);
    }
  }

  lemma {:induction false} TotalsOfConcat(a: seq<Contribution>, b: seq<Contribution>)
    ensures TotalsOf(a + b) == Plus(TotalsOf(a), TotalsOf(b))
    decreases |b|
  {
    if b == [] {
      assert a + b == a;
    } else {
      var n := |b| - 1;
      assert (a + b)[..|a| + n] == a + b[..n];
      assert (a + b)[|a| + n] == b[n];
      TotalsOfConcat(a, b[..n]);
    }
  }

  /** Closed windows and the open one add up to everything ever added: no packet's
      samples, count or latency is lost or reported twice. */
  lemma {:induction false} TotalsConserved(closed: seq<seq<Contribution>>, open: seq<Contribution>)
    ensures TotalsOf(Flatten(closed) + open) == Plus(ClosedTotals(closed), TotalsOf(open))
    decreases |closed|
  {
    TotalsOfConcat(Flatten(closed), open);
    if closed != [] {
      var n := |closed| - 1;
      TotalsConserved(closed[..n], closed[n]);
    }
  }

  /** Where contribution i of the flattened windows came from: exactly one window. */
  lemma {:induction false} InOneWindow(closed: seq<seq<Contribution>>, open: seq<Contribution>, i: nat)
      returns (w: nat, j: nat)
    requires i < |Flatten(closed) + open|
    ensures w <= |closed|
    ensures if w < |closed| then j < |closed[w]| && i == |Flatten(closed[..w])| + j && closed[w][j] == (Flatten(closed) + open)[i]
            else j < |open| && i == |Flatten(closed)| + j && open[j] == (Flatten(closed) + open)[i]
    decreases |closed|
  {
    if i >= |Flatten(closed)| {
      w, j := |closed|, i - |Flatten(closed)|;
    } else {
      var n := |closed| - 1;
      var all := Flatten(closed[..n]) + closed[n];
      assert all == Flatten(closed);
      w, j := InOneWindow(closed[..n], closed[n], i);
      assert (Flatten(closed) + open)[i] == all[i];
      assert closed[..n][..w] == closed[..w];
      if w < n {
        assert closed[..n][w] == closed[w];
      } else {
        assert closed[..n] == closed[..w];
      }
    }
  }

  const MICROS_PER_SECOND: int := 1000000

  /** The mean latency in seconds. */
  function MeanLatency(sumLatency: int, packetsCount: int): real
    requires packetsCount > 0
  {
    sumLatency as real / MICROS_PER_SECOND as real / packetsCount as real
  }

  function Mean(sum: real, samplesCount: int): real
    requires samplesCount > 0
  {
    sum / samplesCount as real
  }

  /** Mean latency in seconds, mean sample and squared standard deviation. */
  datatype Report = Report(averageLatency: real, averageCounts: real, spreadSquared: real)

  /** What a window of packets reports, or defaults if it had no samples. */
  function ReportOf(cs: seq<Contribution>, updateInterval: int): Report {
    var samples := Samples(cs);
    SamplesMeanPackets(cs);
    if samples == [] then Report(updateInterval as real, 0.0, 0.0)
    else
      Report(
        MeanLatency(TotalLatency(cs), |cs|),
        Mean(Sum(samples), |samples|),
        SpreadSquared(|samples|, Sum(samples), SumSquares(samples)))
  }

  /** Two closing times of one stream are at least an interval apart. */
  ghost predicate Spaced(times: seq<int>, updateInterval: int)
    decreases |times|
  {
    var n := |times|;
    n <= 1 || (Spaced(times[..n - 1], updateInterval) && Due(times[n - 2], updateInterval, times[n - 1]))
  }

  lemma SpacedSnoc(times: seq<int>, last: int, updateInterval: int, now: int)
    requires Spaced(times, updateInterval) && (times != [] ==> times[|times| - 1] == last) && Due(last, updateInterval, now)
    ensures Spaced(times + [now], updateInterval)
  {
    assert (times + [now])[..|times|] == times;
  }

  lemma {:induction false} SpacedApart(times: seq<int>, updateInterval: nat, i: nat, j: nat)
    requires Spaced(times, updateInterval) && i < j < |times|
    ensures times[j] >= times[i] + 1000000 * updateInterval
    decreases |times|
  {
    var n := |times| - 1;
    if j < n {
      SpacedApart(times[..n], updateInterval, i, j);
    } else if i < n - 1 {
      SpacedApart(times[..n], updateInterval, i, n - 1);
    }
  }

  predicate Due(lastUpdate: int, updateInterval: int, now: int) {
    now >= lastUpdate + MICROS_PER_SECOND * updateInterval
  }

  // ----- One stream under any interleaving of updates and visits -----

  /** What happens to a stream: a packet's update completes, or the timer visits it
      at clock time now. */
  datatype Event = Added(c: Contribution) | Visited(now: int)

  /** A stream's life so far. */
  datatype Life = New | Then(past: Life, event: Event)

  /** A life after visits at the given clock times. */
  function AfterVisits(life: Life, ticks: seq<int>): Life
    decreases |ticks|
  {
    if ticks == [] then life else Then(AfterVisits(life, ticks[..|ticks| - 1]), Visited(ticks[|ticks| - 1]))
  }

  lemma AfterOneMoreVisit(life: Life, ticks: seq<int>, tick: int)
    ensures AfterVisits(life, ticks + [tick]) == Then(AfterVisits(life, ticks), Visited(tick))
  {
    assert (ticks + [tick])[..|ticks|] == ticks;
  }

  /** The open window, the closed ones with the times they were closed, the time of the
      last close or of creation, and the values the getters read. */
  datatype Stream = Stream(
    open: seq<Contribution>,
    closed: seq<seq<Contribution>>,
    closeTimes: seq<int>,
    lastUpdate: int,
    shown: Report)

  function NewStream(updateInterval: int, created: int): Stream {
    Stream([], [], [], created, Report(updateInterval as real, 0.0, 0.0))
  }

  function AfterEvent(updateInterval: int, s: Stream, e: Event): Stream {
    match e
    case Added(c) => s.(open := s.open + [c])
    case Visited(now) =>
      if Due(s.lastUpdate, updateInterval, now) then
        Stream([], s.closed + [s.open], s.closeTimes + [now], now, ReportOf(s.open, updateInterval))
      else s
  }

  function StreamAfter(updateInterval: int, created: int, life: Life): Stream
    decreases life, 1
  {
    if life.New? then NewStream(updateInterval, created) else AfterLast(updateInterval, created, life)
  }

  function AfterLast(updateInterval: int, created: int, life: Life): Stream
    requires life.Then?
    decreases life, 0
  {
    AfterEvent(updateInterval, StreamAfter(updateInterval, created, life.past), life.event)
  }

  lemma StreamAfterOne(updateInterval: int, created: int, past: Life, e: Event)
    ensures StreamAfter(updateInterval, created, Then(past, e))
            == AfterEvent(updateInterval, StreamAfter(updateInterval, created, past), e)
  {
  }

  /** The packets whose updates completed, in order. */
  function AddedIn(life: Life): seq<Contribution> {
    match life
    case New => []
    case Then(past, Added(c)) => AddedIn(past) + [c]
    case Then(past, Visited(_)) => AddedIn(past)
  }

  function AddedCount(life: Life): nat {
    match life
    case New => 0
    case Then(past, Added(_)) => AddedCount(past) + 1
    case Then(past, Visited(_)) => AddedCount(past)
  }

  lemma {:induction false} LifeCounts(life: Life)
    ensures |AddedIn(life)| == AddedCount(life)
  {
    if life.Then? {
      LifeCounts(life.past);
    }
  }

  /** All latencies are between 0 and most. */
  predicate LifeWithin(life: Life, most: int) {
    match life
    case New => true
    case Then(past, Added(c)) => LifeWithin(past, most) && 0 <= c.latency <= most
    case Then(past, Visited(_)) => LifeWithin(past, most)
  }

  lemma {:induction false} LifeWithinMeans(life: Life, most: int)
    requires LifeWithin(life, most)
    ensures LatenciesWithin(AddedIn(life), most)
  {
    if life.Then? {
      LifeWithinMeans(life.past, most);
      if life.event.Added? {
        assert AddedIn(life)[..|AddedIn(life.past)|] == AddedIn(life.past);
      }
    }
  }

  /** However updates and visits interleave, the closed windows and the open one hold
      every packet whose update completed, once and in order. */
  lemma {:induction false} EveryPacketInItsWindow(updateInterval: int, created: int, life: Life)
    ensures var s := StreamAfter(updateInterval, created, life); Flatten(s.closed) + s.open == AddedIn(life)
  {
    if life.Then? {
      var s := StreamAfter(updateInterval, created, life.past);
      EveryPacketInItsWindow(updateInterval, created, life.past);
      match life.event
      case Added(c) => assert Flatten(s.closed) + (s.open + [c]) == Flatten(s.closed) + s.open + [c];
      case Visited(_) => CloseWindow(s.closed, s.open);
    }
  }

  /** So their sums, counts and latencies add up to those of all these packets. */
  lemma StreamIsConserved(updateInterval: int, created: int, life: Life)
    ensures var s := StreamAfter(updateInterval, created, life);
      Plus(ClosedTotals(s.closed), TotalsOf(s.open)) == TotalsOf(AddedIn(life))
  {
    var s := StreamAfter(updateInterval, created, life);
    EveryPacketInItsWindow(updateInterval, created, life);
    TotalsConserved(s.closed, s.open);
  }

  /** Windows are closed an interval apart at least. */
  lemma {:induction false} StreamIsSpaced(updateInterval: int, created: int, life: Life)
    ensures var s := StreamAfter(updateInterval, created, life);
      && |s.closeTimes| == |s.closed| && Spaced(s.closeTimes, updateInterval)
      && s.lastUpdate == (if s.closeTimes == [] then created else s.closeTimes[|s.closeTimes| - 1])
  {
    if life.Then? {
      StreamIsSpaced(updateInterval, created, life.past);
      if life.event.Visited? {
        var s := StreamAfter(updateInterval, created, life.past);
        if Due(s.lastUpdate, updateInterval, life.event.now) {
          SpacedSnoc(s.closeTimes, s.lastUpdate, updateInterval, life.event.now);
        }
      }
    }
  }

  /** What is shown is the report of the last closed window. */
  lemma {:induction false} ShownIsLastReport(updateInterval: int, created: int, life: Life)
    ensures var s := StreamAfter(updateInterval, created, life);
      s.shown == if s.closed == [] then Report(updateInterval as real, 0.0, 0.0)
                 else ReportOf(s.closed[|s.closed| - 1], updateInterval)
  {
    if life.Then? {
      ShownIsLastReport(updateInterval, created, life.past);
    }
  }

  ghost predicate AllWithin(windows: seq<seq<Contribution>>, most: int)
    decreases |windows|
  {
    windows == [] || (AllWithin(windows[..|windows| - 1], most) && LatenciesWithin(windows[|windows| - 1], most))
  }

  lemma {:induction false} StreamWithin(updateInterval: int, created: int, life: Life, most: int)
    requires LatenciesWithin(AddedIn(life), most)
    ensures var s := StreamAfter(updateInterval, created, life); AllWithin(s.closed, most) && LatenciesWithin(s.open, most)
  {
    if life.Then? {
      var s := StreamAfter(updateInterval, created, life.past);
      if life.event.Added? {
        assert AddedIn(life)[..|AddedIn(life.past)|] == AddedIn(life.past);
        StreamWithin(updateInterval, created, life.past, most);
        assert (s.open + [life.event.c])[..|s.open|] == s.open;
      } else {
        StreamWithin(updateInterval, created, life.past, most);
        assert (s.closed + [s.open])[..|s.closed|] == s.closed;
      }
    }
  }

  /** If every latency is between 0 and most microseconds, so is the mean latency shown
      for a window with samples. */
  lemma ShownLatencyInRange(updateInterval: int, created: int, life: Life, most: int)
    requires LatenciesWithin(AddedIn(life), most)
    ensures var s := StreamAfter(updateInterval, created, life);
      s.closed != [] && |Samples(s.closed[|s.closed| - 1])| > 0 ==>
        0.0 <= s.shown.averageLatency <= most as real / 1000000.0
  {
    var s := StreamAfter(updateInterval, created, life);
    StreamWithin(updateInterval, created, life, most);
    ShownIsLastReport(updateInterval, created, life);
    if s.closed != [] && |Samples(s.closed[|s.closed| - 1])| > 0 {
      MeanLatencyInRange(s.closed[|s.closed| - 1], updateInterval, most);
    }
  }

  /** The spread shown for a window with samples: no clamp acts, it satisfies
      spread^2 * (n - 1)^2 == n * sum(x^2) - (sum x)^2 for n > 1, and it is zero exactly
      when all its samples are equal. */
  lemma ShownSpread(updateInterval: int, created: int, life: Life)
    ensures var s := StreamAfter(updateInterval, created, life);
      s.closed != [] && |Samples(s.closed[|s.closed| - 1])| > 0 ==>
        SpreadIsOf(s.shown.spreadSquared, Samples(s.closed[|s.closed| - 1]))
  {
    var s := StreamAfter(updateInterval, created, life);
    ShownIsLastReport(updateInterval, created, life);
    if s.closed != [] && |Samples(s.closed[|s.closed| - 1])| > 0 {
      ReportHasSpread(s.closed[|s.closed| - 1], updateInterval);
    }
  }

  lemma ReportHasSpread(cs: seq<Contribution>, updateInterval: int)
    requires |Samples(cs)| > 0
    ensures SpreadIsOf(ReportOf(cs, updateInterval).spreadSquared, Samples(cs))
  {
    var samples := Samples(cs);
    var reported := SpreadSquared(|samples|, Sum(samples), SumSquares(samples));
    SpreadIsReported(samples);
    assert ReportOf(cs, updateInterval).spreadSquared == reported;
  }

  /** A window's mean sample and mean latency, the latter in seconds. */
  ghost predicate MeansAreOf(report: Report, cs: seq<Contribution>) {
    && IsMean(report.averageCounts, |Samples(cs)|, Sum(Samples(cs)))
    && IsMean(report.averageLatency * 1000000.0, |cs|, TotalLatency(cs) as real)
    && forall least: real, most: real :: AllBetween(Samples(cs), least, most) ==> least <= report.averageCounts <= most
  }

  predicate IsMean(mean: real, n: nat, total: real) {
    mean * n as real == total
  }

  ghost predicate AllBetween(xs: seq<real>, least: real, most: real) {
    forall i :: 0 <= i < |xs| ==> least <= xs[i] <= most
  }

  lemma {:induction false} SumBetween(xs: seq<real>, least: real, most: real)
    requires AllBetween(xs, least, most)
    ensures least * |xs| as real <= Sum(xs) <= most * |xs| as real
    decreases |xs|
  {
    if xs != [] {
      var n := |xs| - 1;
      SumBetween(xs[..n], least, most);
      assert |xs| as real == n as real + 1.0;
      assert least * |xs| as real == least * n as real + least && most * |xs| as real == most * n as real + most;
    }
  }

  lemma MeanBetween(mean: real, xs: seq<real>, least: real, most: real)
    requires xs != [] && IsMean(mean, |xs|, Sum(xs)) && AllBetween(xs, least, most)
    ensures least <= mean <= most
  {
    var n := |xs| as real;
    SumBetween(xs, least, most);
    assert (mean - least) * n == mean * n - least * n && (most - mean) * n == most * n - mean * n;
    SignOfProduct(mean - least, n);
    SignOfProduct(most - mean, n);
  }

  lemma ReportHasMeans(cs: seq<Contribution>, updateInterval: int)
    requires |Samples(cs)| > 0
    ensures MeansAreOf(ReportOf(cs, updateInterval), cs)
  {
    var report, samples := ReportOf(cs, updateInterval), Samples(cs);
    SamplesMeanPackets(cs);
    MeanLatencyTimes(TotalLatency(cs), |cs|);
    MeanTimes(Sum(samples), |samples|);
    forall least: real, most: real | AllBetween(samples, least, most) ensures least <= report.averageCounts <= most {
      MeanBetween(report.averageCounts, samples, least, most);
    }
  }

  lemma MeanTimes(sum: real, n: nat)
    requires n > 0
    ensures IsMean(Mean(sum, n), n, sum)
  {
  }

  lemma MeanLatencyTimes(total: int, n: nat)
    requires n > 0
    ensures IsMean(MeanLatency(total, n) * 1000000.0, n, total as real)
  {
    var seconds := total as real / 1000000.0;
    assert MeanLatency(total, n) * n as real == seconds;
    assert MeanLatency(total, n) * 1000000.0 * n as real == MeanLatency(total, n) * n as real * 1000000.0;
  }

  /** The means shown for a window with samples: times their number they give the sum of
      the samples and the latency of the packets in microseconds, and the mean sample
      lies between the least sample and the greatest. */
  lemma ShownMeans(updateInterval: int, created: int, life: Life)
    ensures var s := StreamAfter(updateInterval, created, life);
      s.closed != [] && |Samples(s.closed[|s.closed| - 1])| > 0 ==> MeansAreOf(s.shown, s.closed[|s.closed| - 1])
  {
    var s := StreamAfter(updateInterval, created, life);
    ShownIsLastReport(updateInterval, created, life);
    if s.closed != [] && |Samples(s.closed[|s.closed| - 1])| > 0 {
      ReportHasMeans(s.closed[|s.closed| - 1], updateInterval);
    }
  }

  /** When a stream's window was opened. */
  function Opened(s: Stream, created: int): int {
    if s.closeTimes == [] then created else s.closeTimes[|s.closeTimes| - 1]
  }

  /** A visit closes the open window, empty or not, exactly if the interval, in seconds,
      has passed since it was opened, on a clock of microseconds; so after a visit no
      window is older than that. */
  lemma ClosesExactlyWhenDue(updateInterval: int, created: int, life: Life, now: int)
    ensures var s := StreamAfter(updateInterval, created, life);
      var t := StreamAfter(updateInterval, created, Then(life, Visited(now)));
      && (if now >= Opened(s, created) + 1000000 * updateInterval then
            t.closed == s.closed + [s.open] && t.open == [] && t.closeTimes == s.closeTimes + [now]
          else t == s)
      && (updateInterval > 0 ==> now < Opened(t, created) + 1000000 * updateInterval)
  {
    StreamIsSpaced(updateInterval, created, life);
    StreamAfterOne(updateInterval, created, life, Visited(now));
  }

  class WindowedMetrics {
    const host: Endian
    const arithmetic: Arithmetic
    const updateInterval: int
    var lastUpdate: int
    var sumLatency: int
    var sum: real
    var sumSquared: real
    var samplesCount: int
    var packetsCount: int
    var windowedAverageLatency: real
    var windowedAverageCounts: real
    /** The square of windowedStdCounts. */
    var windowedSpreadSquared: real

    /** When the stream was made, and what has happened to it since. */
    ghost const created: int
    ghost var life: Life

    /** What has become of the stream. */
    ghost function State(): Stream
      reads this`life
    {
      StreamAfter(updateInterval, created, life)
    }

    ghost predicate Valid()
      reads this
    {
      && updateInterval > 0
      && Running() == TotalsOf(State().open) && lastUpdate == State().lastUpdate && Shown() == State().shown
    }

    /** The running totals. */
    ghost function Running(): Totals
      reads this`sum, this`sumSquared, this`samplesCount, this`packetsCount, this`sumLatency
    {
      Totals(sum, sumSquared, samplesCount, packetsCount, sumLatency)
    }

    /** The values the getters read. */
    function Shown(): Report
      reads this`windowedAverageLatency, this`windowedAverageCounts, this`windowedSpreadSquared
    {
      Report(windowedAverageLatency, windowedAverageCounts, windowedSpreadSquared)
    }

    constructor (host: Endian, arithmetic: Arithmetic, updateInterval: int, now: int)
      requires updateInterval > 0
      ensures Valid() && life == New && created == now
      ensures this.updateInterval == updateInterval
      ensures this.host == host && this.arithmetic == arithmetic
    {
      this.host, this.arithmetic, this.updateInterval, lastUpdate := host, arithmetic, updateInterval, now;
      sumLatency, sum, sumSquared, samplesCount, packetsCount := 0, 0.0, 0.0, 0, 0;
      windowedAverageLatency, windowedAverageCounts, windowedSpreadSquared := updateInterval as real, 0.0, 0.0;
      created, life := now, New;
    }

    /** update: adds a packet to the open window.  If the packet's sums throw, and
        for an empty packet, nothing changes. */
    method Update(p: Packet, packetLatency: int) returns (error: Option<SumsError>)
      requires Valid() && Exact(arithmetic)
      modifies this`sum, this`sumSquared, this`samplesCount, this`packetsCount, this`sumLatency, this`life
      ensures Valid()
      ensures error.Some? <==> p.numberOfSamples >= 1 && PacketSums(host, arithmetic, p, host.Big?).Err?
      ensures error.Some? || p.numberOfSamples < 1 ==> unchanged(this)
      ensures error.None? && p.numberOfSamples >= 1 ==>
                && |PacketValues(host, arithmetic, p)| == p.numberOfSamples
                && life == Then(old(life), Added(Contribution(PacketValues(host, arithmetic, p), packetLatency)))
    {
      var nSamples := p.numberOfSamples;
      if nSamples < 1 {
        return None;
      }
      var sums := ComputePacketSums(host, arithmetic, p, host.Big?);
      if sums.Err? {
        return Some(sums.error);
      }
      ghost var c := Contribution(PacketValues(host, arithmetic, p), packetLatency);
      OnePacketMore(host, arithmetic, p, sums.value, State().open, c);
      StreamAfterOne(updateInterval, created, life, Added(c));
      AddSums(sums.value, nSamples, packetLatency);
      life := Then(life, Added(c));
      error := None;
    }

    /** The part of update under the mutex. */
    method AddSums(sums: Sums, nSamples: int, packetLatency: int)
      modifies this`sum, this`sumSquared, this`samplesCount, this`packetsCount, this`sumLatency
      ensures Running() == Plus(old(Running()), Totals(sums.sum, sums.sumSquared, nSamples, 1, packetLatency))
    {
      sum := sum + sums.sum;
      sumSquared := sumSquared + sums.sumSquared;
      samplesCount := samplesCount + nSamples;
      packetsCount := packetsCount + 1;
      sumLatency := sumLatency + packetLatency;
    }

    /** updateAndReset: a visit of the timer, which closes the window once the interval
        has passed. */
    method UpdateAndReset(now: int) returns (wasUpdated: bool)
      requires Valid()
      modifies this
      ensures Valid() && life == Then(old(life), Visited(now))
      ensures wasUpdated == Due(old(lastUpdate), updateInterval, now)
    {
      StreamAfterOne(updateInterval, created, life, Visited(now));
      wasUpdated := false;
      if now >= lastUpdate + MICROS_PER_SECOND * updateInterval {
        ReportOpen();
        Reset(now);
        wasUpdated := true;
      }
      life := Then(life, Visited(now));
    }

    method Reset(now: int)
      modifies this`lastUpdate, this`sumLatency, this`sum, this`sumSquared, this`samplesCount, this`packetsCount
      ensures Running() == TotalsOf([]) && lastUpdate == now
    {
      lastUpdate := now;
      sumLatency, sum, sumSquared, samplesCount, packetsCount := 0, 0.0, 0.0, 0, 0;
    }

    /** The values updateAndReset derives from the sums before it clears them. */
    method ReportOpen()
      requires Valid()
      modifies this`windowedAverageLatency, this`windowedAverageCounts, this`windowedSpreadSquared
      ensures Shown() == ReportOf(State().open, updateInterval)
    {
      TotalsAreSums(State().open);
      SamplesMeanPackets(State().open);
      var averageLatency, averageCounts, spreadSquared := updateInterval as real, 0.0, 0.0;
      if samplesCount > 0 {
        averageLatency := MeanLatency(sumLatency, packetsCount);
        averageCounts := Mean(sum, samplesCount);
        spreadSquared := SpreadSquared(samplesCount, sum, sumSquared);
      }
      windowedAverageLatency, windowedAverageCounts, windowedSpreadSquared := averageLatency, averageCounts, spreadSquared;
    }
  }

  lemma OneMore(open: seq<Contribution>, c: Contribution)
    ensures TotalsOf(open + [c]) == Plus(TotalsOf(open), OneTotals(c))
  {
    assert (open + [c])[..|open|] == open;
  }

  lemma OnePacketMore(host: Endian, a: Arithmetic, p: Packet, sums: Sums, open: seq<Contribution>, c: Contribution)
    requires Exact(a) && p.numberOfSamples >= 1 && PacketSums(host, a, p, host.Big?) == Ok(sums)
    requires c.values == PacketValues(host, a, p)
    ensures |c.values| == p.numberOfSamples
    ensures TotalsOf(open + [c]) == Plus(TotalsOf(open), Totals(sums.sum, sums.sumSquared, p.numberOfSamples, 1, c.latency))
  {
    PacketSumsAreSums(host, a, p);
    OneMore(open, c);
  }

  lemma SamplesMeanPackets(open: seq<Contribution>)
    ensures |Samples(open)| > 0 ==> |open| > 0
  {
  }

  lemma CloseWindow(closed: seq<seq<Contribution>>, open: seq<Contribution>)
    ensures Flatten(closed + [open]) + [] == Flatten(closed) + open
  {
    assert (closed + [open])[..|closed|] == closed;
  }

  // ----- Latency -----

  predicate LatenciesWithin(cs: seq<Contribution>, most: int)
    decreases |cs|
  {
    cs == [] || (LatenciesWithin(cs[..|cs| - 1], most) && 0 <= cs[|cs| - 1].latency <= most)
  }

  lemma {:induction false} LatencyBounds(cs: seq<Contribution>, most: int)
    requires LatenciesWithin(cs, most)
    ensures 0 <= TotalLatency(cs) <= most * |cs|
    decreases |cs|
  {
    if cs != [] {
      LatencyBounds(cs[..|cs| - 1], most);
      assert most * |cs| == most * (|cs| - 1) + most;
    }
  }

  lemma QuotientBounds(x: real, n: real, most: real)
    requires n > 0.0 && 0.0 <= x <= most * n
    ensures 0.0 <= x / n <= most
  {
    var d := most - x / n;
    assert d * n == most * n - x;
    SignOfProduct(d, n);
    SignOfProduct(x / n, n);
    assert x / n * n == x;
  }

  /** A window of packets with latencies between 0 and most microseconds reports a
      mean latency in that range. */
  lemma MeanLatencyInRange(cs: seq<Contribution>, updateInterval: int, most: int)
    requires |Samples(cs)| > 0
    requires LatenciesWithin(cs, most)
    ensures 0.0 <= ReportOf(cs, updateInterval).averageLatency <= most as real / MICROS_PER_SECOND as real
  {
    LatencyBounds(cs, most);
    SamplesMeanPackets(cs);
    MeanLatencyBounds(TotalLatency(cs), |cs|, most);
  }

  lemma MeanLatencyBounds(total: int, n: nat, most: int)
    requires n > 0 && 0 <= total <= most * n
    ensures 0.0 <= MeanLatency(total, n) <= most as real / MICROS_PER_SECOND as real
  {
    MostAsReal(most, n);
    QuotientBounds(total as real / MICROS_PER_SECOND as real, n as real, most as real / MICROS_PER_SECOND as real);
  }

  lemma MostAsReal(most: int, n: nat)
    ensures (most * n) as real == most as real * n as real
  {
    ProductAsReal(n, most);
  }
}
