# The SEEDLink to data-packet relay, verified

A SEEDLink thread turns miniSEED payloads into packets and pushes them into a
bounded import queue that drops its oldest packet when full. A tabulator thread
counts each packet per stream, adds its samples to windowed statistics, and
moves it into a second bounded queue. A publisher thread writes packets to an
RPC stream inside a retry loop. A main thread polls the workers' futures and
stops them. This project models these parts in Dafny and proves what they keep.

| file | what it models |
|---|---|
| `Relay.dfy`, `RelayInvariant.dfy`, `RelayProperties.dfy` | the three threads as a step machine: one step per queue access or flag access, so every interleaving is a run; the invariant; the theorems over all runs |
| `Process.dfy` | the worker methods of `Process` and `publishSynchronously` as imperative code whose every shared access takes a step of that machine, with interference before it |
| `SampleCodec.dfy` | packing, unpacking, and the fused decode-and-accumulate loop |
| `RecordWalk.dfy`, `PacketConverter.dfy` | the walk over a buffer of records with a wrapping 64-bit offset, and the conversion of a record |
| `Statistics.dfy`, `WindowedMetrics.dfy`, `Metrics.dfy` | the spread in exact arithmetic, one stream's windows, and the counters and windows of all streams |
| `Text.dfy`, `StreamSelectors.dfy`, `SeedLinkClientOptions.dfy` | selector parsing and printing, the duplicate-free store, and the configuration loop that fills it |
| `SeedLinkClient.dfy` | the polling loop, deliveries, state saves, start and stop |
| `Supervisor.dfy`, `Workers.dfy` | the main thread: polling futures, stopping and joining; and the workers as it sees them |
| `Wrappers.dfy`, `Division.dfy`, `Permutations.dfy` | Option and Result, and facts about quotients and about reordered sequences |

How the parts meet: packets delivered by `SeedLinkClient.dfy` satisfy `Carried`
of `PacketConverter.dfy`, which `Metrics.dfy` uses to show that no packet is
rejected; the worker methods of `Process.dfy` and `SeedLinkClient.dfy` return
normally only when told to stop, which is what `Supervisor.dfy` takes of its
workers and `Workers.dfy` proves of them.

Assumed of what lies outside the repository: a bounded queue is a FIFO whose
operations are atomic; `msr3_parse` on success yields a record of at least one
byte lying within the bytes given; a record holds as many samples as it says;
`Write`, `Finish`, `sl_collect` and the file system answer anything; workers are
launched asynchronously. A loop that only another thread can end, by clearing a
flag or by a signal, sees it happen after some finite time (`turnsUntilStop`,
`turnsUntilSignal`), which is any number; these are the tabulator's loop, the
windowed-metrics loop, the polling inside one RPC, the client's polling loop and
the main thread's. The
retry loop needs no such help: it ends by its own schedule, given that only
finitely many RPCs write a packet (`successesLeft`, any number).

Where the code differs from its documentation, or from what its names promise,
the model follows the code:

- The Bessel factor n/(n-1) multiplies the standard deviation, not the variance,
  so spread^2 * (n-1)^2 = n * sum(x^2) - (sum x)^2
  (`Statistics.ReportedSpread`).
- An integer sample is squared in its own type. The square is defined exactly up
  to 46340 in magnitude for 32 bits and 3037000499 for 64
  (`SampleCodec.SquareDefinedIff`). Beyond, the behaviour of the source is
  undefined; the model makes that an error outcome, and packets with it do occur
  (`PacketConverter.LargeSampleFails`).
- A record of MINRECLEN bytes or fewer at the end of a payload is never looked
  at (`RecordWalk.ReachedAllIff`).
- The state is saved every interval + 1 payloads, not every interval
  (`SeedLinkClients.SavesAreQuotient`).
- A selector of one character skips the station, because the test is on the
  length of the string; it fails all the same, on its network.
- A comment in the configuration reader shows selectors with dots; the parser
  splits at blanks, so such a selector is one word and fails
  (`StreamSelectors.ParsesItsWords`).
- Two selectors print the same text exactly when they are of one type and location
  and channel, as printed, read the same when run together
  (`StreamSelectors.PrintedAlikeIff`). Such selectors have the same location and
  channel exactly when, besides, the printed locations are equally long and wild
  cards do not stand for a field that is empty in one and spelled out in the other
  (`StreamSelectors.FieldsAreUniqueIff`); no part of this can be left out
  (`StreamSelectors.FieldsCanCollide`), and for selectors that come from texts the
  lengths alone decide (`StreamSelectors.ParsedIsUniqueIff`). The texts
  `UU FORK 01HHZ D` and `UU FORK HHZ 01 D` parse to different selectors that print
  alike, and the store refuses the second as a duplicate
  (`SeedLinkClientOptions.KeysCanCollide`).
- Two streams whose fields contain underscores can share their counters and their
  window (`Metrics.KeysCanCollide`, `Metrics.SharedKeyIff`); without underscores
  they cannot (`Metrics.KeysAgreeIff`).
- A reader that takes a stream's total before any one of its class counters can
  see that counter exceed it (`Metrics.TotalFirstSeesExcess`).
- `getSentPacketsCount` returns the received counter; the sent counter of the
  model is the field `mSentPacketsCounter`.
- The configured state-file interval is read and checked but never stored.

## Model

| member | source | states |
|---|---|---|
| RelayInvariant.ReachableInv | src/main.cpp:208-416 | after every run of the three threads and the stop request: packet flow, both queues and the publisher satisfy the invariant |
| RelayInvariant.StepKeepsInv | src/main.cpp:208-416 | every single step of any thread keeps the invariant |
| RelayInvariant.ProduceKeepsStage | src/main.cpp:363-383 | size check, eviction pop and push keep a queue below capacity, refuse nothing and evict at most one packet a call |
| RelayProperties.InArrivalOrderAndConserved | src/main.cpp:336-416 | in every run written, in-hand and queued packets, publisher first, are in arrival order, and every packet handed to the callback is in exactly one place once: there, or dropped at one of the queues, or lost on a broken stream |
| RelayProperties.WrittenInOrder | src/modules/packetWriter.cppm:156-173 | packets reach the stream in strictly increasing arrival order, so none twice |
| RelayProperties.QueuesStayBounded | src/main.cpp:363-409 | neither queue exceeds its capacity, no push is ever refused, and a call evicts at most one packet |
| RelayProperties.EvictionSawFull | src/main.cpp:394-402 | an eviction at the import queue follows a size check of the same call that saw the queue full |
| RelayProperties.ExportEvictionSawFull | src/main.cpp:363-372 | the same at the export queue |
| RelayProperties.PublisherIsBounded | src/main.cpp:214-295 | with a schedule of n waits and s RPCs that wrote a packet, a run opens at most (n+1)+s*n RPCs and loses at most one packet per RPC; the waits since the last success are the schedule from entry 0; normal return only when told to stop |
| RelayProperties.PatienceRunsDown | src/main.cpp:215-288 | every statement of the retry loop takes from the attempts left in the schedule, and only an RPC's first accepted write renews them: the pair of future successes and attempts left decreases |
| RelayProperties.RetryLoopEnds | src/main.cpp:215-295 | the loop ends by itself: at most one pass more than RPCs, so at most (n+1)+s*n+1, and at most 4*n+5+4*s*n statements outside the RPCs' polling and writing; once they are used up it has ended, and with the flag set it has thrown; runs that use them up exist (BoundIsAttained) |
| RelayProperties.GivesUp | src/main.cpp:215-295 | from any moment on, while no RPC writes a packet, the attempts left in the schedule, at most 4*n+5 statements, bound what is left, and a publisher nobody stops that has used them up has thrown |
| RelayProperties.BoundIsAttained | src/main.cpp:214-295 | for every n > 0 and s a run of the whole relay, with the flag set throughout, uses up the bounds on RPCs, passes and statements, loses a packet in every RPC, and ends with the exception; for n = 0 the same with s at most 1 |
| RelayProperties.StopsPromptly | src/main.cpp:208-383 | once the flag is false publisher and tabulator take at most six statements of their own each, whatever the interleaving, with at most one more RPC and one more write; having taken as many as their positions leave they have ended, and the publisher throws only if it had already |
| RelayProperties.NoWorkerEndsSilently | src/main.cpp:290-296 | while the flag is set, neither tabulator nor publisher has returned normally |
| Processes.OthersKeepRely | src/main.cpp:336-416 | no run of the other threads breaks what a thread relies on between two statements |
| Processes.Process.AddPacketCallback | src/main.cpp:390-416 | the packet ends at the back of the import queue and at most one older packet was dropped for it |
| Processes.Process.TabulateMetricsAndPropagatePackets | src/main.cpp:336-387 | is a run of the tabulator, and ends only when the flag is false |
| Processes.Process.Propagate | src/main.cpp:363-378 | the popped packet ends at the back of the export queue and at most one older packet was dropped for it |
| Processes.Process.PublishSynchronously | src/modules/packetWriter.cppm:124-180 | opens one RPC, reports success exactly if the sent counter grew, loses at most one packet |
| Processes.Process.GoOnAfter | src/main.cpp:241-287 | which statuses go on to another attempt and which end the loop |
| Processes.Process.Attempt | src/main.cpp:215-288 | one pass of the retry loop: an RPC that wrote a packet starts the schedule over, any other moves on in it |
| Processes.Process.SendPacketsToProxy | src/main.cpp:208-297 | ends by its schedule and the finite number of successes, whether or not anybody stops it; throws exactly if the flag is still set at the end, and keeps the bounds on RPCs and lost packets |
| SampleCodec.Pack | src/modules/packetConverter.cppm:22-54 | the in-place loop stores the packed form of the first nSamples samples, nothing for fewer than one |
| SampleCodec.Unpack | src/modules/packetConverter.cppm:58-101 | nothing for fewer than one sample, an exception exactly for a wrong size, otherwise the decoded samples |
| SampleCodec.UnpackInvertsPack | src/modules/packetConverter.cppm:21-112 | unpack(pack(x)) = x in exactly width*n bytes, for every host, width and swap flag |
| SampleCodec.PackInvertsUnpack | src/modules/packetConverter.cppm:21-112 | and pack(unpack(b)) = b for any whole samples' worth of bytes |
| SampleCodec.PackedIsLittleEndian | uDataPacketImportAPI/v1/packet.proto:24-25 | byte k of the i-th stored sample v is v / 256^k mod 256, on a copying little-endian host and on a swapping big-endian one; a big-endian host that copied would store it the other way round |
| SampleCodec.ComputeSumAndSumSquared | src/modules/packetConverter.cppm:115-169 | the fused loop equals unpacking and then folding sum and sum of squares, each product rounded in the sample's own type, errors included |
| SampleCodec.PatternMeansInteger | src/modules/packetConverter.cppm:142-164 | every pattern counts as the one integer of the type that is congruent to it; FF FF FF FF as -1 |
| SampleCodec.OneMoreInteger | src/modules/packetConverter.cppm:142-164 | what folding one more integer v adds: v and v*v, or an error that stays if the type cannot hold the square |
| SampleCodec.OneMoreReal | src/modules/packetConverter.cppm:142-164 | what folding one more float or double x adds: x and x*x, the product rounded in its own type |
| SampleCodec.SquareDefinedIff | src/modules/packetConverter.cppm:142-164 | for an integer v of the type, stored in two's complement: its square is defined exactly up to 46340 in magnitude for 32 bits, 3037000499 for 64 |
| SampleCodec.FoldedDefinedIff | src/modules/packetConverter.cppm:142-164 | the sums of integer samples are defined exactly when no sample exceeds that |
| SampleCodec.IntegerSumsAreExact | src/modules/packetConverter.cppm:142-168 | the same for both integer types, any bound on the magnitudes, and any number of samples for which the sums of squares stay where doubles are exact |
| SampleCodec.FoldedIsExact | src/modules/packetConverter.cppm:142-168 | for up to 4194471 32-bit integers of at most 46340 in magnitude, the double sums of their patterns are exactly the sum of the integers and of their squares |
| RecordWalk.MiniSeedToPackets | src/modules/packetConverter.cppm:379-432 | the unsigned difference never wraps; a failed parse throws and returns nothing; otherwise the packets are the visited records' conversions in order, and packets and failures add up to the records |
| RecordWalk.PacketsComeFrom | src/modules/packetConverter.cppm:393-432 | which visited record each packet comes from: all that convert, each once, in order |
| RecordWalk.VisitsTile | src/modules/packetConverter.cppm:393-416 | visited records tile a prefix of the buffer with at most MINRECLEN bytes left |
| RecordWalk.WalkVisitsStored | src/modules/packetConverter.cppm:393-416 | over a concatenation of valid records the walk visits them in order up to the first with no more than MINRECLEN bytes left |
| RecordWalk.ReachedAllIff | src/modules/packetConverter.cppm:393-394 | it visits all of them exactly when the last is longer than MINRECLEN |
| PacketConverter.ComputePacketSums | src/modules/packetConverter.cppm:172-225 | sums by data type, zeros for text and unknown, an exception for any other |
| PacketConverter.ConvertFails | src/modules/packetConverter.cppm:240-374 | convert succeeds exactly if rate and count are positive, the identifier can be split, no field of it but the location is blank, and the sample type is known; else it throws for the first of these that fails |
| PacketConverter.ConvertedFields | src/modules/packetConverter.cppm:240-330 | rate, start time and count are the record's; the identifier's fields are cut at their ends and in upper case, with -- for a blank location |
| PacketConverter.TruncationShrinks | src/modules/packetConverter.cppm:249 | the count is the only 32-bit number congruent to the record's, so it is kept if it fits |
| PacketConverter.ConvertedPacketsFit | src/modules/packetConverter.cppm:240-374 | a converted packet has the data type of the record's sample type, width*n bytes, and names its stream, so the size and type checks downstream never fail; only an integer square can |
| PacketConverter.ConvertedSamplesSurvive | src/modules/packetConverter.cppm:290-374 | unpacking a converted packet gives the record's samples back, all of them if their number fits 32 bits; text comes as it was |
| PacketConverter.WalkedPacketsFit | src/modules/packetConverter.cppm:376-432 | the same of every packet made of a buffer |
| PacketConverter.SumsComputedIff | src/modules/packetConverter.cppm:171-225 | the sums of a packet of the right size are computed exactly when every integer sample's square is defined, and always for floating point and text |
| PacketConverter.ConvertedSumsIff | src/modules/packetConverter.cppm:114-374 | the same in terms of the record an integer packet was converted from |
| PacketConverter.ConvertedIntegerSums | src/modules/packetConverter.cppm:114-374 | for a record of 32-bit integers up to 46340 in magnitude, few enough for doubles, the packet's sums are exactly those of the integers and of their squares |
| PacketConverter.LargeSampleFails | src/modules/packetConverter.cppm:142-164 | a record with the one sample 46341 converts to a packet whose sums are not defined; up to 46340 they are |
| Statistics.DeviationsExpand | src/modules/metrics.cppm:294-295 | squared distances from any y in terms of count, sum and sum of squares |
| Statistics.ScatterSign | src/modules/metrics.cppm:294-298 | n*sum(x^2)-(sum x)^2 is never negative, and 0 exactly when all samples are equal |
| Statistics.ReportedSpread | src/modules/metrics.cppm:286-298 | the clamp at 0 is idle; spread^2*(n-1)^2 = n*sum(x^2)-(sum x)^2 for n > 1; the spread is 0 exactly when all samples are equal |
| WindowedMetricsStore.PacketSumsAreSums | src/modules/metrics.cppm:249-262 | the sums taken from a packet's bytes are the sum and sum of squares of its samples, text and unknown samples counting as zeros |
| WindowedMetricsStore.PacketValueAt | src/modules/packetConverter.cppm:172-225 | the samples the statistics see: the integers stored, the floats or doubles, zeros for text and unknown |
| WindowedMetricsStore.ConvertedValues | src/modules/packetConverter.cppm:290-374 | for a packet made by convert these are the samples of the record, by its sample type |
| WindowedMetricsStore.WindowedMetrics.Update | src/modules/metrics.cppm:249-270 | appends the packet's samples and latency to the stream's life; an update that throws, or of an empty packet, changes nothing |
| WindowedMetricsStore.WindowedMetrics.UpdateAndReset | src/modules/metrics.cppm:272-314 | a visit of the timer: the sums, the time of the last close and the values shown are those of the stream's life so far, and the window was closed exactly if the interval had passed |
| WindowedMetricsStore.EveryPacketInItsWindow | src/modules/metrics.cppm:249-314 | however updates and visits interleave, closed windows and the open one hold every completed update's contribution, once and in order |
| WindowedMetricsStore.StreamIsConserved | src/modules/metrics.cppm:249-314 | so their totals are those of all these contributions |
| WindowedMetricsStore.StreamIsSpaced | src/modules/metrics.cppm:275-277 | however they interleave, each close comes an interval after the one before |
| WindowedMetricsStore.ClosesExactlyWhenDue | src/modules/metrics.cppm:275-309 | a visit closes the open window exactly if 1000000 times the interval has passed since it was opened, so after a visit no window is older; otherwise it changes nothing |
| WindowedMetricsStore.ShownIsLastReport | src/modules/metrics.cppm:278-309 | the values shown are mean latency, mean and squared spread of the last closed window, or the defaults |
| WindowedMetricsStore.ShownLatencyInRange | src/modules/metrics.cppm:284-291 | if all latencies are within bounds, so is the mean latency shown for a window with samples |
| WindowedMetricsStore.ShownMeans | src/modules/metrics.cppm:284-292 | the means shown for a last closed window with samples, times their number, are the sum of the samples and the latency of the packets; the mean sample lies between the least and the greatest |
| WindowedMetricsStore.ShownSpread | src/modules/metrics.cppm:278-309 | the spread shown for a last closed window with samples needs no clamp, satisfies its identity in those samples, and is zero exactly when they are all equal |
| WindowedMetricsStore.TotalsAreSums | src/modules/metrics.cppm:263-269 | the running totals are the sums over all samples, packets and latencies of the window |
| WindowedMetricsStore.TotalsConserved | src/modules/metrics.cppm:249-314 | closed windows' totals plus the open sums are the totals of everything ever added |
| WindowedMetricsStore.InOneWindow | src/modules/metrics.cppm:249-314 | every contribution lies in exactly one window |
| WindowedMetricsStore.SpacedApart | src/modules/metrics.cppm:275-277 | any two closes of one stream are at least an interval apart |
| WindowedMetricsStore.MeanLatencyInRange | src/modules/metrics.cppm:291 | the mean latency of a window that got samples lies within the bounds of its packets' latencies |
| Metrics.KeyIsWritten | src/modules/metrics.cppm:356-372 | a key is the lower-cased network, station, channel and, if there is one, location, in order with underscores between them; there is none exactly if one of the first three is empty |
| Metrics.KeysAgreeIff | src/modules/metrics.cppm:356-372 | streams without underscores in their fields share a key, so counters and windows, exactly if all four fields agree up to case |
| Metrics.SharedKeyIff | src/modules/metrics.cppm:356-372 | with underscores, streams that share a key agree in all fields exactly if network, station and channel are equally long |
| Metrics.KeysCanCollide | src/modules/metrics.cppm:356-372 | channel HHZ_01 without a location shares the key of channel HHZ with location 01 |
| Metrics.ConvertedKeysAgreeIff | src/modules/metrics.cppm:356-372 | packets made by convert, without underscores, share a key exactly if their identifiers are equal |
| Metrics.EndTimeError | src/modules/metrics.cppm:408-423 | the computed end time is off by at most half a microsecond per sampling interval, counted from the start time in whole microseconds |
| Metrics.ClassifiesByTime | src/modules/metrics.cppm:415-447 | for a period of whole microseconds: future until the last sample, expired once the first is 180 days old, timely in between, with the time since the last sample as latency |
| Metrics.ClassesFollowTheClock | src/modules/metrics.cppm:430-448 | as the clock goes on a packet moves only forward from future through timely to expired, its latency growing with the clock; one that lasts over 180 days is never timely |
| Metrics.TimelyLatency | src/modules/metrics.cppm:445-447 | a timely packet's latency is between 0 and 180 days without the clamp |
| Metrics.StepKeepsBalance | src/modules/metrics.cppm:391-448 | every critical section keeps the balance of the counters |
| Metrics.RunIsBalanced | src/modules/metrics.cppm:513-600 | at every lock release a stream's total is received + future + expired + rejected, plus one for a packet between counting and classification; all totals, packets without a key and one not yet keyed make up the global received counter |
| Metrics.ReadersSeeNoExcess | src/modules/metrics.cppm:513-600 | class counters read no later than the total never exceed it, and totals never exceed the global counter |
| Metrics.TotalFirstSeesExcess | src/modules/metrics.cppm:513-600 | in the other order a reader can see an excess, for each class counter and in any stream |
| Metrics.CarriedIsNeverRejected | src/modules/metrics.cppm:391-413 | a packet that convert built always has a key and is never rejected |
| Metrics.MetricsSingleton.constructor | src/modules/metrics.cppm:626-660 | nothing counted, no stream, an interval of 120 seconds, and every invariant below |
| Metrics.MetricsSingleton.IncrementReceivedPacketsCounter | src/modules/metrics.cppm:597-600 | the step that takes a packet in: the global counter grows by one |
| Metrics.MetricsSingleton.IncrementTotalPacketsCounter | src/modules/metrics.cppm:576-595 | the step that counts a packet in its stream's total, inserting 1 for a new stream |
| Metrics.MetricsSingleton.IncrementFuturePacketsCounter | src/modules/metrics.cppm:534-553 | the step that classes it as future |
| Metrics.MetricsSingleton.IncrementExpiredPacketsCounter | src/modules/metrics.cppm:555-574 | the step that classes it as expired |
| Metrics.MetricsSingleton.IncrementReceivedPacketsCounterOf | src/modules/metrics.cppm:513-532 | the step that classes it as received |
| Metrics.MetricsSingleton.SetUpdateInterval | src/modules/metrics.cppm:617-624 | refuses exactly the intervals that are not positive |
| Metrics.MetricsSingleton.CountPacket | src/modules/metrics.cppm:391-448 | counts the packet in its stream's total and its class, in the order of the code's checks; from a timely packet on, an update of its stream's window is outstanding or known to fail |
| Metrics.MetricsSingleton.AddToWindow | src/modules/metrics.cppm:449-462 | the packet enters its stream's open window, one made with the configured interval if there is none; a failed update changes nothing, not even the set of windows; no other window is touched; the packet is accounted for |
| Metrics.MetricsSingleton.TabulateMetrics | src/modules/metrics.cppm:391-463 | counters and windows together: a timely packet is added at the end of its stream's life unless its sums cannot be computed; then, and for any other packet, no window changes; other streams' windows are never touched; and every packet counted as received stays accounted for |
| Metrics.MetricsSingleton.TabulateAroundTimer | src/modules/metrics.cppm:391-486 | the same when the timer's thread comes between the counting and the window update any number of times: every stream keeps its window and gets exactly those visits; then a timely packet whose sums can be computed is added at the end of its own stream's life, which alone may be new; any other packet changes nothing more |
| Metrics.MetricsSingleton.UpdateAndResetWindowedMetrics | src/modules/metrics.cppm:466-486 | every stream keeps its window and gets exactly one visit, what is stored for it is what its last closed window reported, and packets counted as received stay accounted for |
| Metrics.MetricsSingleton.ReceivedPacketsAreInWindows | src/modules/metrics.cppm:391-486 | after any calls, a stream's received counter is the number of packets in its windows, plus those that failed and one whose update is outstanding; those in its windows are there once, in order, and the windows' totals are theirs |
| Metrics.MetricsSingleton.StoredReportIsRight | src/modules/metrics.cppm:474-484 | what is stored for a stream is the report of its last closed window; if that had samples, its mean sample and mean latency are those of the window, the latter between 0 and 180 days, and its spread satisfies its identity |
| Text.TrimKeepsWords | src/streamSelector.cpp:275-276 | trimming keeps the words |
| Text.TrimCuts | src/streamSelector.cpp:275-276 | trimming cuts off all blanks at the ends and nothing else |
| Text.CharacterCodes | src/streamSelector.cpp:94-138 | which characters are white space, by code, and what upper and lower case do to each |
| Text.SplitOfWritten | src/streamSelector.cpp:292-293 | tokens written out with any of the separators between them are found again, empty ones included |
| Text.WrittenOfSplit | src/streamSelector.cpp:292-293 | every string is so written from the tokens it splits into |
| Text.WordsOfJoined | src/streamSelector.cpp:292-293 | words joined by spaces are found again |
| StreamSelectors.CollapsedHasNoPair | src/streamSelector.cpp:279-290 | no two adjacent spaces are left |
| StreamSelectors.SplitCollapsedIsWords | src/streamSelector.cpp:279-293 | collapsing and splitting a trimmed string gives its maximal non-blank words |
| StreamSelectors.ParsesItsWords | src/streamSelector.cpp:271-348 | the result depends on the words alone; parsing succeeds exactly with at least two words, the first of length two |
| StreamSelectors.ParsesWritten | src/streamSelector.cpp:271-348 | the same for words separated by single spaces or tabs |
| StreamSelectors.FiveWordsRoundTrip | src/streamSelector.cpp:321-327 | network, station, channel, location and letter written out parse back to location, upper-case channel, and .D or .* |
| StreamSelectors.FourWordsAmbiguity | src/streamSelector.cpp:328-342 | a fourth and last word is a location exactly when longer than one character |
| StreamSelectors.PrintedAlikeIff | src/streamSelector.cpp:155-269 | two selectors print alike exactly when they are of one type and location and channel read the same when run together |
| StreamSelectors.PrintedIsUniqueIff | src/streamSelector.cpp:155-269 | of selectors that print alike, location and channel as printed agree exactly when the printed locations are equally long |
| StreamSelectors.FieldsAreUniqueIff | src/streamSelector.cpp:155-269 | and the fields behind them agree exactly when, besides, the location codes are both empty or both given, and so are the channels |
| StreamSelectors.FieldsCanCollide | src/streamSelector.cpp:155-269 | for each of these three conditions, selectors that meet the other two and print alike with different fields |
| StreamSelectors.ParsedPrintsItsFields | src/streamSelector.cpp:155-348 | a selector parsed from a text with only spaces inside has the location and channel that it prints |
| StreamSelectors.ParsedIsUniqueIff | src/streamSelector.cpp:155-348 | so two such texts whose selectors print alike give the same location and channel exactly when their location codes are equally long |
| StreamSelectors.PrintedIsUnique | src/streamSelector.cpp:155-269 | in particular the printed form determines type, location and channel for two-character locations and non-empty channels |
| StreamSelectors.TextsCanCollide | src/streamSelector.cpp:155-348 | for every upper-case location there are texts that parse to different selectors and print alike |
| StreamSelectors.StreamSelector.CollapseSpaces | src/streamSelector.cpp:279-290 | the in-place erasing loop computes the collapsed string and ends |
| StreamSelectors.StreamSelector.SetNetwork | src/streamSelector.cpp:84-97 | refuses exactly a network whose length is not two, changing nothing |
| StreamSelectors.StreamSelector.SetStation | src/streamSelector.cpp:111-121 | refuses exactly an empty station, changing nothing |
| StreamSelectors.StreamSelector.SetSelector | src/streamSelector.cpp:129-139 | upper-case channel and no location code |
| StreamSelectors.StreamSelector.SetSelectorWithLocation | src/streamSelector.cpp:142-152 | upper-case channel with the location code as given |
| StreamSelectors.StreamSelector.GetSelector | src/streamSelector.cpp:155-269 | the printer's branches, as the function the lemmas are about |
| StreamSelectors.StreamSelector.FromString | src/streamSelector.cpp:271-348 | the parser's branches and exceptions, as the function the lemmas are about |
| SeedLinkClientOptions.FirstOccurrencesKeys | src/seedLinkClientOptions.cpp:202-229 | the stored selectors have distinct keys, and every key of a call is stored |
| SeedLinkClientOptions.AllKeptIffDistinct | src/seedLinkClientOptions.cpp:202-229 | all calls' selectors are stored exactly when their keys are distinct |
| SeedLinkClientOptions.KeysCanCollide | src/seedLinkClientOptions.cpp:202-229 | of such texts the store keeps the first and refuses the second |
| SeedLinkClientOptions.SameKeyIff | src/seedLinkClientOptions.cpp:212-217 | exactly when any two selectors share a key, those with neither location nor channel included, so that the store takes them for one |
| SeedLinkClientOptions.ClientOptions.AddStreamSelector | src/seedLinkClientOptions.cpp:202-229 | throws without a network, returns false exactly for a stored key, otherwise appends; the store stays the first occurrences of the calls |
| SeedLinkClientOptions.ListedAdds | src/modules/programOptions.cppm:206-220 | each entry lists the texts that are written in it with commas or bars between them, after those of the entries before it |
| SeedLinkClientOptions.EveryEntryIsWritten | src/modules/programOptions.cppm:206-220 | every entry is so written, in texts without commas and bars |
| SeedLinkClientOptions.LoadSelectors | src/modules/programOptions.cppm:196-281 | over entries 1 to 32768: succeeds exactly when every listed text parses and all keys are distinct, and then the store is the parsed list in order |
| SeedLinkClients.InsertedIsInOrder | src/seedLinkClient.cpp:357-361 | sorting by start time keeps the packets in start order as each is added |
| SeedLinkClients.SeedLinkClient.constructor | src/seedLinkClient.cpp:47-60 | a client whose initialization succeeded satisfies what all other methods require, with nothing polled, delivered or saved; without a state file the interval stays at 100 and nothing is deleted |
| SeedLinkClients.DeliveredAreCarried | src/seedLinkClient.cpp:335-376 | every packet the callback gets fits its data type and names its stream |
| SeedLinkClients.DeliveredRecords | src/seedLinkClient.cpp:335-376 | every record of a payload that converts reaches the callback exactly once, as its packet, in the order of the records' start times; none does if a parse step throws |
| SeedLinkClients.DeliveredInOrder | src/seedLinkClient.cpp:357-361 | so packets come with their start times set and not decreasing |
| SeedLinkClients.CadenceStep | src/seedLinkClient.cpp:392-398 | one more payload brings a save exactly when it is a multiple of interval + 1 |
| SeedLinkClients.SavesAreQuotient | src/seedLinkClient.cpp:392-398 | the code's counter brings N/(k+1) saves, rounded down, for N payloads and interval k |
| SeedLinkClients.SortByStartTime | src/seedLinkClient.cpp:357-361 | an ordered permutation |
| SeedLinkClients.SeedLinkClient.Stop | src/seedLinkClient.cpp:130-133 | clears the flag; stopping twice issues no second terminate command |
| SeedLinkClients.SeedLinkClient.DeliverPayload | src/seedLinkClient.cpp:335-389 | the callback gets a start-ordered permutation of all records that convert, or nothing if a parse step throws |
| SeedLinkClients.SeedLinkClient.SaveStateIfDue | src/seedLinkClient.cpp:390-399 | one payload more for the save counter |
| SeedLinkClients.SeedLinkClient.PacketToCallback | src/seedLinkClient.cpp:298-452 | over all polls: one delivery per miniSEED payload in order, N/(k+1) saves whatever polls come between, at most one poll after the flag is cleared, normal return only when told to stop, each exception exactly when its cause holds |
| SeedLinkClients.SeedLinkClient.SetRunning | src/seedLinkClient.cpp:113-128 | the terminate command is issued exactly on the change from running to stopped, if there is a connection |
| SeedLinkClients.SeedLinkClient.Start | src/seedLinkClient.cpp:488-495 | throws exactly without initialization, changing nothing; otherwise runs with the terminate flag cleared |
| SeedLinkClients.SeedLinkClient.StartImpl | src/seedLinkClient.cpp:99-111 | stops the client first, also when it then throws for want of initialization |
| Supervisors.Supervisor.CheckFuturesOkay | src/main.cpp:183-205 | false exactly when it read the future of a dead worker; every worker dead at the call is found; no future is read twice |
| Supervisors.Supervisor.Stop | src/main.cpp:171-178 | clears the flag and joins every worker whose future was not read, in order, up to the first exception, which leaves the rest unread |
| Supervisors.Supervisor.HandleMainThread | src/main.cpp:444-484 | leaves its loop only on a signal, with no future read, or on the first check that finds a dead worker, all checks before having answered true; then stops and joins the workers, with an exception only if one it had not read yet died |
| Workers.RunProgresses | src/main.cpp:208-387 | over any run of the relay its workers end only with an exception or after the flag is cleared, as the main thread assumes |
| Workers.RunTabulator | src/main.cpp:336-387 | so does the tabulator's function |
| Workers.RunPublisher | src/main.cpp:208-297 | so does the publisher's function |
| Workers.RunWindowedMetrics | src/main.cpp:302-333 | the windowed-metrics function throws before any visit exactly if the interval is not positive; otherwise it returns only with the flag cleared, having given every stream the same visits and nothing else |
| Workers.RunClient | src/seedLinkClient.cpp:298-452 | so does the client's polling function, by its own flag |

## Left out

- Channel, credentials and stub creation for the RPC; an RPC is its sequence of `Write` outcomes and the status of `Finish`.
- libslink set-up, ping and keep-alive, the content and deletion of state files: the poll result, the outcomes of recovery and removal, and a count of periodic saves remain.
- libmseed: decoding a record is a parameter, and so is MINRECLEN.
- Telemetry set-up and observers, loggers, the printed summary, and command-line and configuration reading other than the selector loop.
- SeedLinkClients.SeedLinkClient.constructor: initialization has succeeded; the exceptions it can throw instead belong to the set-up above.
- Workers.RunWindowedMetrics: the flag is seen by this worker alone, and only its own visits happen; an exception of the visit, which the code catches and logs, is not modelled.
- Sleeps, timeouts and condition variables: a step may happen at any time.
- Floating-point rounding and square roots in the statistics: sums are exact (`Exact`) and the spread is stated through its square. Float and double samples are bit patterns decoded by a parameter.
- WindowedMetricsStore.WindowedMetrics.Update: assumes `Exact` arithmetic, for that reason.
- The lock inside `WindowedMetrics` and the atomics read by its getters: the singleton's mutex already makes each update and each timed reset one call.
- Metrics.MetricsSingleton.UpdateAndResetWindowedMetrics: keeps the three maps of reported values as one map of triples, and visits the streams in any order.
- The width of counters and of the microsecond arithmetic in `tabulateMetrics`: unbounded integers.
- SeedLinkClients.SeedLinkClient.DeliverPayload: an exception of the callback is not modelled; the code catches it and goes on with the next packet.
- `std::sort` is an insertion sort, but the contract allows any ordered permutation.
- Processes.Process.Interfere: its body at most clears the flag; callers see its contract, which allows everything the other threads can do.
- Metrics.MetricsSingleton.TabulateMetrics: runs without the timer's thread in between; TabulateAroundTimer has it there.
- The commented-out older implementations in `src/main.cpp` and `src/modules/programOptions.cppm`.
