# Verified model of the live-CSV analysis

elbencho writes a live CSV: every interval, one `Rank=Total` row and one row per client with its
cumulative `DoneBytes`. The repository analyses such a file in three streaming passes with bounded
memory, and can store a delta-encoded sidecar from which the analysis is rebuilt without the CSV.
Every piece is a fast, stateful form of something that has a simple definition on the whole file.
This project states the simple definitions, models the fast forms with the loops and fields they
have, and proves that they agree; where they agree only under a condition, the condition is proved
to be exact.

* **Occurrences** (`Occurrences`): rows of a repeated phase are split into occurrences while they
  stream by. Every domain's interval runtimes strictly increase *if and only if* no client row goes
  back in time (`NoBackStep`); rows led by Total rows always satisfy that. `OccurrenceStarts` reads
  off the rows exactly when an occurrence starts.
* **Pass 1** (`LiveRows`, `ClientHistory`, `RateLaws`, `FirstPass`, `StreamingMedian`,
  `MarkerHeights`): intervals, per-client rates and online statistics equal the definitions on whole
  interval histories; the P² median markers never drift more than one rank, and their heights follow
  parabolas and lines.
* Re-streaming** (`IntervalSnapshots`): the snapshots seen by the later passes are pass 1's samples
  *if and only if* no interval with samples has its runtime repeated later (`NoEcho`). Strictly
  increasing runtimes imply it.
* **Pass 2** (`SnapshotRing`, `Fairness`, `SteadyStats`, `SteadyPass`, `SteadyTheorems`,
  `SteadyMeaning`, `SteadyReports`, `SteadyAnalysis`): a ring of `depth + 1` snapshots with one
  last-reset index per client answers window queries as the full history would; counts, steady bytes
  and classes are those of the history, snapshots after the steady window cannot change them; at
  most half of the clients fall short over the window, and at most half are transient.
* **Tails of files** (`StreamTail`): a late row can reach back, because it re-indexes its runtime. The
  snapshots streamed so far stay *if and only if* the tail spares the intervals they come from; rows
  that use no earlier runtime always do, so they change no client's report.
* **Pass 3** (`ClientWindows`, `ClientDetail`): pass 2 restricted to chosen clients, with the ratios
  pass 2 judged them by.
* **Sidecar** (`SidecarCodec`, `SidecarReplay`): encode, decode, replay through pass 1; the replay is
  the original *if and only if* `NoEcho`.
* **Smaller cores**: greedy size clustering (`SizeClusters`), average ranks (`RankWalk`), heatmap row
  selection (`HeatmapRows`, `HeatmapPriority`), pooled histogram percentiles (`Histograms`), batch
  manifest and batch document (`Numerals`, `BatchManifest`, `BatchDocument`).

`Ordering`, `Sums`, `Dictionaries` and `StableSort` hold shared definitions. Rates and other floats
are `real`; byte counts and milliseconds are `int`; Python's `round` is `Fairness.RoundHalfEven`.
Automatic induction is switched off on every lemma, so a proof is what its body says.
`dafny verify dfyconfig.toml` checks the project.

Where code and comments differ the code is followed: the diagnostic `invalid_samples` exists, but
whenever a sample is invalid one of the two more specific diagnostics is counted instead
(`DomainAccounting`), and the tracker's splitting keeps runtimes increasing only while client rows
do not go back in time (`IncreasingExactly`, with `BackStepEchoes` as the failing input). The
comment that resets in the excluded tail cannot invalidate steady results holds of snapshots; a tail
row that uses an earlier runtime again does invalidate them (`TailReachesBack`). A report's entry
whose identifier is not in the ledger leaves no trace in the document (`MatchedCanVanish`).

## Model

| member | source | states |
|---|---|---|
| StreamingMedian.AddTo | lib/elbencho_live_report.py:173-229 | an observation keeps the estimator sound: five strictly increasing ranks from 1 and sorted heights, so no update divides by zero |
| StreamingMedian.CellOf | lib/elbencho_live_report.py:201-211 | the chosen cell always brackets the value after an end marker is moved out, so the fall-through `return 3` is never the wrong answer |
| StreamingMedian.RunInvariant | lib/elbencho_live_report.py:173-229 | after any five or more observations ranks run from 1 to n, heights are sorted, end heights are exactly the minimum and maximum observed, desired ranks are 1 + (n-1)i/4 and the markers are on track |
| StreamingMedian.RoundStaysOnTrack | lib/elbencho_live_report.py:213-229 | one round of marker moves, blocked or not, keeps every marker on track whichever cell the value fell in |
| StreamingMedian.DriftBound | lib/elbencho_live_report.py:173-229 | every marker stays within one rank of 1 + (n-1)i/4, strictly except the median marker at n = 7, and exactly on it when n = 1 mod 4 |
| StreamingMedian.DriftBoundIsTight | lib/elbencho_live_report.py:213-229 | five values and two new maxima leave the median marker a whole rank behind |
| StreamingMedian.EstimateInRange | lib/elbencho_live_report.py:187-193 | the estimate lies between the smallest and largest observation |
| StreamingMedian.P2Median.Add | lib/elbencho_live_report.py:173-185 | the object's fields are the specified run over everything added |
| StreamingMedian.P2Median.Value | lib/elbencho_live_report.py:187-193 | the value of the specified run: 0 when empty, the exact interpolated median of up to four values, later the median marker's height, inside the observed range |
| StreamingMedian.StartupMedian | lib/elbencho_live_report.py:187-193 | one to four observations give their exact median, whatever order they came in |
| MarkerHeights.ParabolicMeaning | lib/elbencho_live_report.py:231-246 | whenever the marker and its neighbours lie on a parabola, the formula gives that parabola's height at the new rank |
| MarkerHeights.ParabolaThrough | lib/elbencho_live_report.py:231-246 | any three markers lie on a parabola, so that law says what every such height is |
| MarkerHeights.LinearMeaning | lib/elbencho_live_report.py:248-252 | whenever the marker and the neighbour it moves towards lie on a line, the fallback gives that line's height at the new rank |
| MarkerHeights.MovedHeight | lib/elbencho_live_report.py:213-225 | a marker that moves takes the parabola's height if that is strictly between its neighbours, else the line's, and no other height changes |
| MarkerHeights.KeptHeight | lib/elbencho_live_report.py:213-229 | a marker that stays changes nothing |
| MarkerHeights.AddSteps | lib/elbencho_live_report.py:173-213 | the sixth and every later value moves an end marker out to a new extreme and the ranks above its cell up by one, and then the three inner markers are adjusted in order |
| MarkerHeights.KnownEstimate | lib/elbencho_live_report.py:173-252 | the estimate after 0, 1, 2, 3, 4, 10, 20, 30 is 34/9 |
| Ordering.PercentileInRange | lib/elbencho_live_report.py:1114-1126 | an interpolated percentile never leaves the range of the values |
| Ordering.PercentileMonotone | lib/elbencho_live_report.py:1114-1126 | a larger percentile of the same values is never smaller |
| Ordering.MedianMeaning | lib/elbencho_live_report.py:1114-1126 | the 50th percentile is the middle value or the mean of the two middle ones |
| Ordering.PercentileIs | lib/elbencho_live_report.py:1114-1126 | at k + f of n - 1 steps from first to last, a percentile lies the fraction f of the way from value k to value k + 1 |
| Occurrences.Tracker.Key | lib/elbencho_live_report.py:466-494 | the tracker's key is the one the state after all rows read defines |
| Occurrences.IterParsedRows | lib/elbencho_live_report.py:905-920 | the streamed rows are the rows with their occurrence-qualified keys |
| Occurrences.OccurrencesNeverDecrease | lib/elbencho_live_report.py:466-519 | occurrence numbers never decrease along a phase and mix, in every stream |
| Occurrences.TotalNeverDrops | lib/elbencho_live_report.py:496-519 | Total DoneBytes never decreases inside one occurrence, in every stream |
| Occurrences.TotalsAdvance | lib/elbencho_live_report.py:496-519 | unless a client row steps back, Total rows inside one occurrence come at strictly increasing runtimes |
| Occurrences.JumpMeaning | lib/elbencho_live_report.py:522-547 | the rate jump restarts exactly when, within 100 ms, more bytes arrived than four times the reported rate, and than that rate plus 1 MiB/s, could move |
| OccurrenceStarts.StartsExactly | lib/elbencho_live_report.py:466-547 | a row's number is that of the last row of its phase and mix, plus one if and only if it is a Total row that goes back in time, repeats a runtime that already has a Total row, has fewer DoneBytes than the occurrence's last Total row, or jumps; all read off the rows |
| OccurrenceStarts.TrackerReads | lib/elbencho_live_report.py:466-494 | what the tracker remembers of a phase and mix is the last runtime, whether a Total row shares it, and the current occurrence's last Total DoneBytes |
| OccurrenceStarts.NumberedRow | lib/elbencho_live_report.py:905-920 | numbering changes nothing of a row but its occurrence |
| Occurrences.IncreasingExactly | lib/elbencho_live_report.py:466-519 | all domains have strictly increasing interval runtimes if and only if no client row steps back in runtime |
| Occurrences.TrackerKeepsLastRuntime | lib/elbencho_live_report.py:466-494 | the runtime that condition compares with is that of the last row of the phase and mix |
| Occurrences.LedByTotalNeverEchoes | lib/elbencho_live_report.py:466-519 | such a stream has increasing runtimes in every domain and echoes no interval, whichever clients are wanted |
| Occurrences.BackStepEchoes | lib/elbencho_live_report.py:496-519 | client rows at 10, 20, 10 ms without Total rows stay one domain whose first interval is echoed |
| LiveRows.NeighboursDiffer | lib/elbencho_live_report.py:939-950 | neighbouring intervals of a domain never share a runtime |
| ClientHistory.RateIsDerived | lib/elbencho_live_report.py:1043-1056 | the single prior sample kept per client gives exactly the rate the two intervals define, and tells adjacent samples from gaps |
| RateLaws.RateMeaning | lib/elbencho_live_report.py:1043-1056 | a rate times the elapsed milliseconds times 1048576 is 1000 times the bytes |
| RateLaws.HasRate | lib/elbencho_live_report.py:1043-1056 | a client has a rate over an interval exactly when both ends are sampled, time advanced and the counter did not go back |
| RateLaws.RatesGiveBytes | lib/elbencho_live_report.py:1043-1056 | where every interval of a stretch has a rate, the rates times their milliseconds add up to last DoneBytes minus first |
| ClientHistory.Welford | lib/elbencho_live_report.py:283-292 | the online mean and squared deviation equal the two-pass ones |
| ClientHistory.FirstProgressMeaning | lib/elbencho_live_report.py:272-281 | the first-progress interval is the first with DoneBytes above 0, or none exists |
| ClientHistory.FinishMeaning | lib/elbencho_live_report.py:272-281 | the finish time is the runtime at which the final DoneBytes was first reached for good |
| ClientHistory.InvalidSplits | lib/elbencho_live_report.py:1059-1071 | every invalid sample is a stalled clock or a counter reset, never both |
| ClientHistory.SampleAccounting | lib/elbencho_live_report.py:952-1056 | intervals = missing + first sample + valid + invalid + non-adjacent samples, for every client |
| FirstPass.IndexedInterval | lib/elbencho_live_report.py:952-961 | `runtime_to_interval` knows every interval's runtime and gives the last interval that has it |
| FirstPass.IndexInverts | lib/elbencho_live_report.py:952-961 | with strictly increasing runtimes it is the exact inverse of the interval list |
| FirstPass.MarkMissingClients | lib/elbencho_live_report.py:1004-1010 | exactly the known clients without a sample gain a missing count, and the diagnostics gain their number |
| FirstPass.DeriveIntervalRates | lib/elbencho_live_report.py:1013-1040 | rates, summaries, prior samples and diagnostics after one interval's samples, each per client |
| FirstPass.RecordFleetStatistics | lib/elbencho_live_report.py:1074-1106 | every client with a rate has it recorded against the fleet median, nobody else changes, and the interval's fleet point is added exactly when there is a rate |
| FirstPass.FleetPointBounds | lib/elbencho_live_report.py:1074-1106 | a fleet point's percentiles are in order inside the range of the rates, so is its mean, and its variance is 0 exactly when all rates are equal |
| FirstPass.FleetQuantiles | lib/elbencho_live_report.py:1074-1106 | p10, median and p90 stand a tenth, a half and nine tenths of the way through the sorted rates |
| FirstPass.FleetMoments | lib/elbencho_live_report.py:1074-1106 | mean times count is the sum of the rates, variance times count their squared distances from the mean |
| FirstPass.FlushCorrect | lib/elbencho_live_report.py:952-972 | flushing the analysis of a history gives the analysis of the history with one more interval: runtimes, index, every client summary, fleet points and every diagnostic |
| FirstPass.AdvanceBuffer | lib/elbencho_live_report.py:939-950 | the buffered state still describes all intervals once a row with another runtime arrives |
| FirstPass.AnalyzeLiveCsv | lib/elbencho_live_report.py:562-589 | one pass over interleaved domains analyses each exactly as its own intervals define |
| FirstPass.DomainAccounting | lib/elbencho_live_report.py:1004-1071 | missing_samples is the sum of client missing counts, resets plus non-positive elapsed times the sum of invalid counts, invalid_samples is 0 |
| IntervalSnapshots.IterIntervalSnapshots | lib/elbencho_live_steady.py:361-406 | in every stream, the snapshots are the specified ones, one per interval; they are pass 1's samples of the wanted clients if and only if no interval with wanted samples is echoed |
| IntervalSnapshots.StreamedExactly | lib/elbencho_live_steady.py:361-406 | the exact condition on the specification: faithful without echoes, otherwise an interval that had samples is handed on empty |
| IntervalSnapshots.NothingInvented | lib/elbencho_live_steady.py:361-406 | even with echoes, every sample handed on for an interval was reported by a row of the domain at that interval's runtime |
| SnapshotRing.ResetMeansDrop | lib/elbencho_live_steady.py:440-449 | a client sampled at `begin` has its one remembered reset after `begin` exactly when its counter drops somewhere in the window |
| SnapshotRing.GainedTelescopes | lib/elbencho_live_steady.py:409-428 | all increments in a window add up to the difference of the last sample and the first |
| SnapshotRing.RingAnswers | lib/elbencho_live_steady.py:409-428 | two snapshots and the remembered resets give the window's bytes from full history: present exactly when both ends are sampled and the counter never drops, equal to the sum of increments |
| SnapshotRing.WindowDeltas | lib/elbencho_live_steady.py:409-428 | the loop collects exactly those differences |
| SnapshotRing.Ring.Add | lib/elbencho_live_steady.py:440-449 | the ring keeps the last depth + 1 snapshots, every client's last sample and last reset |
| SnapshotRing.Ring.Deltas | lib/elbencho_live_steady.py:451-465 | an answer exactly when the baseline is kept, and then the full-history window |
| SnapshotRing.WindowPrefix | lib/elbencho_live_steady.py:409-428 | a window depends only on the snapshots up to its end |
| ClientWindows.RateMatchesWindow | lib/elbencho_live_report.py:1043-1056 | pass 2 has a one-interval delta exactly when pass 1 derived a rate, and the rate is that delta over the elapsed time |
| ClientWindows.RestrictedWindow | lib/elbencho_live_steady.py:897-917 | dropping other clients from every snapshot drops them from every window and changes nothing else |
| ClientWindows.ClientWindowDeltas | lib/elbencho_live_steady.py:897-917 | pass 3 gives, for exactly the requested window ends with a baseline, the full-history windows of the chosen clients' snapshots, and without echoes these are the chosen clients' part of pass 2's windows |
| ClientDetail.CollectWindowedDetail | lib/elbencho_live_steady.py:859-894 | each client asked for once, with one rate and one ratio per window of the series, from its bytes in that window's full history |
| ClientDetail.RatiosAgree | lib/elbencho_live_steady.py:859-894 | without echoes, the ratio shown for a chosen client in a window is the one pass 2 judged it by, and there is none where pass 2 had none |
| ClientDetail.DetailMeaning | lib/elbencho_live_steady.py:859-894 | each rate gives back the client's bytes in its window over the milliseconds between the window's ends, each ratio times the window's median is those bytes, and both exist exactly when they can be formed |
| Fairness.SpreadMeaning | lib/elbencho_live_steady.py:507-519 | n times the sum of squares minus the squared sum is never negative and is 0 exactly when all values are equal |
| Fairness.JainBounds | lib/elbencho_live_steady.py:507-519 | Jain's index lies in [1/n, 1] and is 1 exactly when all byte counts are equal |
| Fairness.JainMeaning | lib/elbencho_live_steady.py:507-519 | if k of n clients move the same bytes and the others none, the index is k/n |
| Fairness.JainRatio | lib/elbencho_live_steady.py:507-519 | in general it is the squared total as a share of n times the sum of squares |
| Fairness.MinorityAboveMedian | lib/elbencho_live_report.py:1114-1126 | at most half of the clients are strictly above the interpolated median |
| Fairness.MinorityBelowMedian | lib/elbencho_live_report.py:1114-1126 | at most half of the clients are strictly below the interpolated median |
| SteadyPass.RecordedPointBounds | lib/elbencho_live_steady.py:507-545 | every point of every series: as many clients as the window has, Jain bounds, slowest over median in [0, 1], and the block-size floor strictly between 0 and 1 |
| SteadyReports.PointMeaning | lib/elbencho_live_steady.py:507-545 | a point's place and time, whether its window lies between the steady bounds, its median, the slowest client as a share of it, when each column is empty, and the floor as the average in units of one block more |
| SteadyPass.RecordRatios | lib/elbencho_live_steady.py:560-585 | exactly the window's clients have their counts and worst ratio moved on |
| SteadyPass.ComputeDeltas | lib/elbencho_live_steady.py:599-615 | steady bytes for exactly the clients seen at both bounds, not reset between, with advancing time and counter |
| SteadyPass.Pass.Complete | lib/elbencho_live_steady.py:490-505 | after every interval all fields, counts and points are what the history so far defines |
| SteadyPass.Pass.Finish | lib/elbencho_live_steady.py:617-659 | every client's bytes, mean, ratio and class are those of the whole history |
| SteadyPass.FinishCorrect | lib/elbencho_live_steady.py:617-659 | assigning bytes and then classes gives each client the report its whole history defines |
| SteadyAnalysis.AnalyzeSteady | lib/elbencho_live_steady.py:662-693 | the second pass reports, per client and per window of all three series, what the streamed snapshots define, and without echoes what pass 1's intervals define; blank when nobody moved data |
| SteadyTheorems.TailCannotInterfere | lib/elbencho_live_steady.py:587-659 | two snapshot histories that agree up to the steady end give every client the same bytes, ratios, counts and class, whatever snapshots follow |
| StreamTail.NewRuntimesSpare | lib/elbencho_live_steady.py:361-406 | in any file, rows that use no earlier runtime of the domain leave the intervals and snapshots before them as they were |
| StreamTail.TailSparesExactly | lib/elbencho_live_steady.py:361-406 | after rows without echoes, a tail leaves their snapshots as they were if and only if in the longer file each of those intervals keeps the wanted samples it had: its runtime is not used again, or it had none, and the last interval gains none that survive |
| StreamTail.FirstSnapshots | lib/elbencho_live_steady.py:361-406 | while sampled intervals keep their runtimes to themselves, the first snapshots are what survives of the first intervals |
| StreamTail.ReusedIsEmpty | lib/elbencho_live_steady.py:361-406 | an interval whose runtime a later interval uses again is always handed on empty |
| SteadyAnalysis.SparedFilesAgree | lib/elbencho_live_steady.py:662-693 | two files with the same first rows, whose tails leave those rows' snapshots alone, report the same for every client they share, if the steady window ends before the tails |
| SteadyAnalysis.FileTailCannotInterfere | lib/elbencho_live_steady.py:662-693 | so do any two files whose tails use no runtime of the common rows again |
| Occurrences.TailReachesBack | lib/elbencho_live_steady.py:361-406 | after client rows at 10 and 20 ms, one more row at 10 ms empties both snapshots |
| SteadyTheorems.CountsFreeze | lib/elbencho_live_steady.py:507-585 | windows ending after the steady window count for nobody |
| SteadyMeaning.CountsBegin | lib/elbencho_live_steady.py:523-529 | windows beginning before the steady window count for nobody |
| SteadyMeaning.RatioAt | lib/elbencho_live_steady.py:523-545 | a client has a ratio in a window exactly when the window lies between the bounds, has a baseline and a median above 0, and holds the client |
| SteadyMeaning.RatioMeaning | lib/elbencho_live_steady.py:560-585 | a ratio times the median of the window's clients is the client's bytes |
| SteadyMeaning.CountsMeaning | lib/elbencho_live_steady.py:560-585 | windows, short and slow are the numbers of the client's ratios, of those below the short threshold, and for 5 s of those below the slow threshold |
| SteadyMeaning.ShortfallMeaning | lib/elbencho_live_steady.py:480-488 | a shortfall of p calls a window short when it misses more than p percent of the median, slow when it misses more than 2p percent |
| SteadyReports.SteadyBytesMeaning | lib/elbencho_live_steady.py:587-615 | a client with samples at or before both bounds has steady bytes exactly when its runtime advanced between the two, its counter is not lower and it did not go back after the start; they are the difference scaled to the window's span, to the nearest integer |
| SteadyReports.UnseenAtStart | lib/elbencho_live_steady.py:599-615 | a client without a sample at or before the start has none |
| SteadyReports.ReportMeaning | lib/elbencho_live_steady.py:631-643 | steady bytes, mean and ratio of every client: the mean times the span gives back the bytes, the ratio times the median does, and each exists exactly when it can be formed |
| SteadyMeaning.ClassMeaning | lib/elbencho_live_steady.py:645-659 | no class exactly without a ratio and 5 s windows; persistent exactly when short over the steady window or in half of the 30 s windows; transient exactly when not, but slow in at least the minimum of windows and in twice the median share; ok in every remaining case |
| SteadyMeaning.AtMostHalfTransient | lib/elbencho_live_steady.py:617-659 | for every minimum of one slow window or more, at most half of the clients with 5 s windows are transient |
| SteadyTheorems.ResetInsideNeverContributes | lib/elbencho_live_steady.py:599-615 | a client whose counter goes back inside the steady window has no steady bytes |
| SteadyTheorems.RememberedDrop | lib/elbencho_live_steady.py:587-597 | a client kept out as reset did have its counter go back inside the window |
| SteadyTheorems.AtMostHalfShort | lib/elbencho_live_steady.py:560-585 | over any prefix of any run, short windows of all clients are at most half of all counted windows, for 5 s and 30 s |
| SteadyTheorems.ShortfallLeavesHalf | lib/elbencho_live_steady.py:468-488 | the law for every shortfall percentage of 0 or more, over whole runs |
| SteadyAnalysis.ReportedHalf | lib/elbencho_live_steady.py:617-693 | the law over what the pass returns: short windows of all reported clients are at most half of their counted windows |
| SteadyAnalysis.FileHalf | lib/elbencho_live_steady.py:662-693 | the law for the report of every file, echoes or not, and every shortfall of 0 percent or more |
| SteadyTheorems.AtMostHalfFallShort | lib/elbencho_live_steady.py:617-659 | whoever falls short over the whole steady window is persistent, and at most half of the clients with steady bytes do |
| SteadyTheorems.WorstMeaning | lib/elbencho_live_steady.py:560-585 | a client has a worst ratio exactly when it has a counted window, and then it is the least of its ratios, with the end of the first window that had it |
| SidecarCodec.IntervalSamples.Emit | lib/elbencho_live_results.py:698-708 | the deltas emitted, the new base per column and the cleared interval |
| SidecarCodec.SumsAreLastDone | lib/elbencho_live_results.py:811-835 | running sums of an encoded column are the client's last sample |
| SidecarCodec.DecodeEncode | lib/elbencho_live_results.py:688-708 | decoding the encoding of any interval history gives it back: gaps, resets and empty intervals included |
| SidecarReplay.IterIntervalSamples | lib/elbencho_live_results.py:711-743 | the deltas written encode the streamed snapshots, one row per interval, and encode pass 1's samples if and only if nothing is echoed |
| SidecarReplay.ClientRows | lib/elbencho_live_results.py:811-835 | the in-place sums, and one row per present cell with its sum |
| SidecarReplay.DocumentRows | lib/elbencho_live_results.py:838-860 | the rows rebuilt from any document have exactly the intervals the sidecar stands for, neighbours of one runtime joined into one |
| SidecarReplay.CoalescedExactly | lib/elbencho_live_results.py:838-860 | joining changes nothing if and only if neighbouring intervals have different runtimes, as those of a written sidecar do |
| SidecarReplay.WriteAndReadBack | lib/elbencho_live_results.py:711-860 | the replayed rows have the intervals the sidecar says, and the original intervals and DoneBytes if and only if nothing is echoed, whatever Total rows the document has |
| SidecarReplay.AnalyzeDocumentLive | lib/elbencho_live_results.py:863-881 | pass 1 over the replay analyses what the sidecar says; without echoes that is the original analysis: intervals, rates, missing, invalid, finish and first-progress of every client, and the fleet points |
| SizeClusters.CategorizeSizes | utils/extract-elbencho.py:1762-1803 | the clusters are the sorted sizes cut in order, each with max at most ten times min, leaders more than ten times apart |
| SizeClusters.GreedyIsMinimal | utils/extract-elbencho.py:1762-1803 | no grouping of the sizes within the ratio bound, contiguous or not, uses fewer groups |
| RankWalk.AverageRanks | lib/elbencho_live_steady.py:776-792 | every value's rank is (count smaller) + (count equal + 1)/2 |
| RankWalk.RanksSum | lib/elbencho_live_steady.py:776-792 | ranks add up to n(n + 1)/2, ties or not |
| RankWalk.RanksPreserveOrder | lib/elbencho_live_steady.py:776-792 | one value is smaller than another exactly when its rank is |
| HeatmapRows.SpacingKeptApart | lib/elbencho_live_steady.py:843-856 | half-to-even rounding keeps all numbers at a spacing apart if and only if the spacing exceeds 1 |
| HeatmapRows.IndexIncreases | lib/elbencho_live_steady.py:843-856 | the rounded indices are strictly increasing |
| HeatmapRows.RepresentativesSpread | lib/elbencho_live_steady.py:843-856 | as many values as fit, none twice, and both ends whenever two fit |
| HeatmapRows.RankingMeaning | lib/elbencho_live_steady.py:800-819 | the ranking holds every persistent and transient client once and nobody else |
| HeatmapRows.RowsSelected | lib/elbencho_live_steady.py:822-840 | exactly min(limit, clients) distinct clients in steady-ratio order; all classified ones if they fit, and both ends of the rest if two more fit; otherwise exactly the first `limit` of the ranking |
| HeatmapPriority.CutLast | lib/elbencho_live_steady.py:800-840 | if a classified client is cut, every row shown is of a classified client, no transient one is shown while a persistent one is cut, no persistent one shown has a larger steady ratio than one cut, and no transient one a larger worst ratio |
| HeatmapPriority.RowOrder | lib/elbencho_live_steady.py:822-840 | rows stand in ascending steady ratio, those without one last, equal ratios in client order |
| HeatmapPriority.RowsFilled | lib/elbencho_live_steady.py:822-840 | when the classified clients fit, the rows are theirs and those of representatives of the rest |
| HeatmapPriority.RestMeaning | lib/elbencho_live_steady.py:822-840 | the rest are all other clients, in the same order |
| HeatmapPriority.RepresentativeAt | lib/elbencho_live_steady.py:843-856 | the middle value if one fits, otherwise the values nearest to even spacing from first to last |
| Histograms.CombineHistograms | utils/extract-mdtest-elbencho.py:538-552 | the nested loops merge the histograms bucket by bucket |
| Histograms.CombinedPermuted | utils/extract-mdtest-elbencho.py:538-552 | the order of merging does not matter |
| Histograms.PoolMeaning | utils/extract-mdtest-elbencho.py:504-535 | the pool walked through is the one ascending list of all samples counted |
| Histograms.PercentileNearest | utils/extract-mdtest-elbencho.py:504-535 | the walk returns the bucket of the nearest rank, for every percentile from 0 to 100 |
| Histograms.PooledPercentile | utils/extract-mdtest-elbencho.py:504-552 | for p above 0, the percentile of combined histograms is the sample of rank r, where r - 1 < pN/100 <= r, among all samples behind them |
| Histograms.NearestRankMonotone | utils/extract-mdtest-elbencho.py:504-535 | a larger percentile never gives a smaller latency |
| Histograms.PercentileInterpolated | utils/extract-netbench.py:357-393 | the walk returns the interpolation inside the bucket that reaches the target |
| Histograms.InterpolatedInBucket | utils/extract-netbench.py:357-393 | it lies between the preceding bucket (0 for the first) and the nearest-rank bucket |
| Histograms.InterpolatedMonotone | utils/extract-netbench.py:357-393 | it is monotone in the percentile |
| Histograms.InterpolatedMeaning | utils/extract-netbench.py:374-393 | it goes from the preceding bucket to the bucket in equal steps, as the target pN/100 goes from the count before to the count with it |
| Histograms.BucketReached | utils/extract-netbench.py:380-391 | it is the bucket itself exactly when the target is the cumulative count with it |
| Numerals.PaddedOrder | lib/filesystem_batch.py:258-270 | four-digit identifiers sort as strings the way they sort as numbers, up to 9999 |
| Numerals.PaddedOrderBreaks | lib/filesystem_batch.py:258-270 | identifier 10000 sorts before 9999, so the bound is needed |
| Numerals.BeforeMeaning | lib/filesystem_batch.py:258-285 | a string sorts before another exactly when it is a proper prefix of it or smaller at their first difference |
| BatchManifest.ValidateHeaders | lib/filesystem_batch.py:212-224 | accepted exactly when there are the three headers, version 1, the revision and a datestamp of eight digits, Z and six digits |
| BatchManifest.DatestampMeaning | lib/filesystem_batch.py:212-224 | a datestamp is eight digits, a Z and six digits |
| BatchManifest.ValidateGroups | lib/filesystem_batch.py:237-255 | accepted exactly when every group is sound and numbered by its place |
| BatchManifest.ValidateExecutions | lib/filesystem_batch.py:258-285 | accepted exactly when every execution passes its checks and every group has one |
| BatchManifest.ChecksAreExact | lib/filesystem_batch.py:258-285 | those checks hold exactly when executions are numbered and go through the groups in consecutive non-empty blocks, in order |
| BatchManifest.ReadManifest | lib/filesystem_batch.py:288-306 | a manifest is accepted if and only if it is committed in that sense and a seal, where there is one, is its digest |
| BatchManifest.GroupsBounded | lib/filesystem_batch.py:258-285 | a valid manifest has at least one group, at most as many as executions, hence at most 9999 |
| BatchManifest.InGroupsIsNumbers | lib/filesystem_batch.py:258-285 | the block an execution belongs to is determined by its group identifier |
| BatchManifest.GroupsPartition | lib/filesystem_batch.py:123-125 | the groups' executions, group after group, are all committed executions in committed order, and no group is empty |
| BatchDocument.MergeGroup | lib/filesystem_results.py:747-779 | one record per ledger entry, then one per unmatched entry where there is no ledger; the report's diagnostics, then the missing ledger or the unmatched entries |
| BatchDocument.UnmatchedShown | lib/filesystem_results.py:747-779 | an entry without an identifier always shows: beside a ledger as a diagnostic, otherwise as a record with state unknown and the entry's results |
| BatchDocument.NotesMeaning | lib/filesystem_results.py:747-779 | a group's diagnostics: each one its report gives, under the group's name and in order, then the missing ledger or one per unmatched entry |
| BatchDocument.StatusMeaning | lib/filesystem_batch.py:309-324 | each of the six contents of a status file gives its state, and anything else, or no file, unknown |
| BatchDocument.MatchedReaches | lib/filesystem_results.py:747-779 | an entry with an identifier reaches a record if and only if the ledger has that identifier and no later entry has it |
| BatchDocument.MatchedCanVanish | lib/filesystem_results.py:747-779 | one entry with an identifier and an empty ledger give no record and no diagnostic |
| BatchDocument.Compose | lib/filesystem_results.py:782-834 | the document's executions are a permutation of all merged records, ordered by group, identifier and coordinate, and its diagnostics all groups' in order, for any groups |
| BatchDocument.KeyMeaning | lib/filesystem_results.py:782-789 | the key orders by group, then by identifier with missing ones last, then by coordinate |
| BatchDocument.AssembleBatch | lib/filesystem_results.py:873-942 | exactly one record per committed execution, in committed order, with its group's kind, its ledger state and what its group's report says of it, whichever groups were selected, failed or reported |
| BatchDocument.BatchOutcome | lib/filesystem_results.py:792-809 | the total, for every state the number of records in it, complete exactly when there are executions and all succeeded with complete results, and both group lists sorted, every group in exactly one of them |
| BatchDocument.CountsAddUp | lib/filesystem_results.py:792-809 | state counts sum to the total if and only if every state is a listed one |
| BatchDocument.OutcomeConserved | lib/filesystem_results.py:792-809 | in a batch document with known result states, ledger counts and result counts each sum to the committed executions |
| BatchDocument.CompleteMeansAll | lib/filesystem_results.py:792-809 | a complete document means every execution succeeded, its group's report has a complete entry for it, and no group is listed as not reported |

## Left out

- Floating-point rounding error: rates, ratios and percentiles are exact reals.
- CSV, JSON, YAML and zstd reading and writing, hashing, paths, clocks: parsed rows, records and identifiers are inputs, and the file checks on groups and executions are one Boolean each.
- Interval times in seconds: they stay in milliseconds, so the passes' `round(seconds * 1000)` is not modelled.
- Objects held in dictionaries: `ClientSummary`, `_DomainState`, `ClientSteady` and the domain analysis are values that loops replace; aliasing between them is not captured. `P2Median`, `_OccurrenceTracker`, `_SnapshotRing`, `_SteadyPass` and `_IntervalSamples` are classes.
- The P² estimator inside a client summary: represented by the rates it was given; the estimator itself is `StreamingMedian.P2Median`.
- FirstPass.RecordFleetStatistics: the fleet point holds the variance, not its square root, and no timestamp.
- FirstPass.FlushCorrect: leaves out the aggregate point that an interval's Total row adds, with its throughput, operations and latencies; exported documents round them, so they do not replay exactly.
- FirstPass.AnalyzeLiveCsv: leaves out aggregate points likewise, and malformed rows with their diagnostics, since rows arrive parsed.
- SteadyPass.Pass.Complete: leaves out the 5 s percentile band and the list of steady 5 s windows kept for the latency correlation.
- SteadyAnalysis.AnalyzeSteady: takes the steady window's bounds, the interval length and the window lengths as settings, and leaves out the latency summary and Spearman's coefficient beyond the ranks.
- SidecarCodec.IntervalSamples.Emit: leaves out the rounded rates stored beside the deltas; a client's second row in one interval overwrites its stored rate with none, while DoneBytes needs no such restriction.
- SidecarReplay.IterIntervalSamples: leaves out the same stored rates.
- SnapshotRing.Ring.Deltas: has no `previous` argument, which no window query of pass 2 or 3 sets.
- BatchManifest.ReadManifest: takes parsed records, so the refusal of duplicate headers and malformed lines is outside, and each file check is one Boolean.
- HeatmapRows.RowsSelected: `client_sort_key` itself is not modelled; a place in the order stands for the key, so ties between equal keys are broken by dictionary order only. The same holds for natural keys in batch documents.
- Batch documents: rewritten paths, live sidecars, group records and the wording of diagnostics; of an execution's problems only a failed report.
- `collect_selected_client_detail`, which lists chosen clients' rates per interval.
- `_match_pairs`, which assigns result files to executions by coordinates, the newest datestamp winning, and `_elbencho_dedupe_latest_operation_metrics`, which keeps the last attempt of resumed operations: not modelled.
- Plots, tables, reports, argument parsing, process pools, bootstrap and release tooling.
