/** What the second pass must report, stated on the whole history of interval snapshots. */
module SteadyStats {
  import opened LiveRows
  import opened Dictionaries
  import opened Ordering
  import opened Sums
  import opened Fairness
  import opened SnapshotRing

  /** First and last interval of the steady window, with their runtimes. */
  datatype Bounds = Bounds(start: nat, end: nat, startMs: int, endMs: int)

  /** What is fixed before the pass: the bounds (None when unavailable), the runtime of each
      interval, the two window lengths, the short and slow thresholds and the slow-window
      minimum. */
  datatype Settings = Settings(window: Option<Bounds>, runtimes: seq<int>, length5s: nat, length30s: nat,
                               shortBelow: real, slowBelow: real, minSlowWindows: nat)

  /** The thresholds that a shortfall percentage sets. */
  function WithShortfall(p: Settings, percent: real): Settings {
    var fraction := percent / 100.0;
    p.(shortBelow := 1.0 - fraction, slowBelow := 1.0 - 2.0 * fraction)
  }

  /** The two window sizes that feed client ratios. */
  datatype Size = FiveSeconds | ThirtySeconds

  function Length(p: Settings, size: Size): nat {
    match size case FiveSeconds => p.length5s case ThirtySeconds => p.length30s
  }

  /** A window of `length` intervals ending at `t` lies wholly inside the steady window. */
  predicate InSteady(p: Settings, length: nat, t: int) {
    p.window.Some? && t - length >= p.window.value.start && t <= p.window.value.end
  }

  function Reals(bytes: Snapshot): (r: map<ClientId, real>)
    ensures r.Keys == bytes.Keys
  {
    map c | c in bytes.Keys :: bytes[c] as real
  }

  /** The fleet median of a window, 0 for one without clients. */
  ghost function MedianOf(bytes: Snapshot): real {
    Percentile(SortedValues(Reals(bytes)), 50.0)
  }

  /** One client's ratio to the fleet median, in windows where that median is not 0. */
  ghost function RatioIn(bytes: Snapshot, c: ClientId): Option<real> {
    if c in bytes && MedianOf(bytes) != 0.0 then Some(bytes[c] as real / MedianOf(bytes)) else None
  }

  /** Window counts of one client and size, and its worst ratio with the first window that
      had it.  Only 5 s windows count as slow. */
  datatype RatioStats = RatioStats(windows: nat, short: nat, slow: nat, worst: Option<real>, worstMs: Option<int>)
  {
    function Note(ratio: real, endMs: int, shortBelow: real, slowBelow: Option<real>): RatioStats {
      var isWorse := worst.None? || ratio < worst.value;
      RatioStats(windows + 1,
                 short + (if ratio < shortBelow then 1 else 0),
                 slow + (if slowBelow.Some? && ratio < slowBelow.value then 1 else 0),
                 if isWorse then Some(ratio) else worst,
                 if isWorse then Some(endMs) else worstMs)
    }
  }

  const NoWindows := RatioStats(0, 0, 0, None, None)

  function SlowThreshold(p: Settings, size: Size): Option<real> {
    if size.FiveSeconds? then Some(p.slowBelow) else None
  }

  /** The bytes of the ratio window of this size ending at `t`, when there is one. */
  ghost function SteadyBytesAt(h: seq<Snapshot>, p: Settings, size: Size, t: int): Snapshot
    requires 0 <= t < |h|
  {
    var length := Length(p, size);
    if length <= t && InSteady(p, length, t) then WindowEnding(h, length, t) else map[]
  }

  /** Counts after one more window, whose bytes are given. */
  ghost function NextStats(earlier: RatioStats, bytes: Snapshot, c: ClientId, endMs: int, shortBelow: real,
                           slowBelow: Option<real>): RatioStats {
    var ratio := RatioIn(bytes, c);
    if ratio.None? then earlier else earlier.Note(ratio.value, endMs, shortBelow, slowBelow)
  }

  /** One client's window counts over the windows ending before `n`. */
  ghost function StatsBefore(h: seq<Snapshot>, p: Settings, size: Size, n: nat, c: ClientId): RatioStats
    requires n <= |h| && n <= |p.runtimes|
  {
    if n == 0 then NoWindows
    else NextStats(StatsBefore(h, p, size, n - 1, c), SteadyBytesAt(h, p, size, n - 1), c,
                   p.runtimes[n - 1], p.shortBelow, SlowThreshold(p, size))
  }

  // ----- the steady window as a whole -----

  datatype Sighting = Sighting(doneBytes: int, runtimeMs: int)

  type Seen = map<ClientId, Sighting>

  ghost function Sightings(snapshot: Snapshot, runtimeMs: int): Seen {
    map c | c in snapshot :: Sighting(snapshot[c], runtimeMs)
  }

  /** Every client's last sample, with its runtime, in the first `n` intervals. */
  ghost function LastSeen(h: seq<Snapshot>, runtimes: seq<int>, n: nat): Seen
    requires n <= |h| && n <= |runtimes|
  {
    if n == 0 then map[] else LastSeen(h, runtimes, n - 1) + Sightings(h[n - 1], runtimes[n - 1])
  }

  /** Clients whose counter went back inside the window, after its first interval. */
  ghost function ResetSince(h: seq<Snapshot>, start: nat): set<ClientId> {
    set c | c in ResetAt(h) && ResetAt(h)[c] > start
  }

  /** Steady-window bytes from a client's samples at both bounds, scaled to the window's span. */
  function Scaled(first: Sighting, last: Sighting, b: Bounds): int
    requires last.runtimeMs > first.runtimeMs
  {
    RoundHalfEven(Mul((last.doneBytes - first.doneBytes) as real, (b.endMs - b.startMs) as real)
                  / (last.runtimeMs - first.runtimeMs) as real)
  }

  ghost function DeltasOf(first: Seen, last: Seen, resets: set<ClientId>, b: Bounds): Snapshot {
    map c | c in last && c in first && c !in resets
            && last[c].runtimeMs > first[c].runtimeMs && last[c].doneBytes >= first[c].doneBytes
      :: Scaled(first[c], last[c], b)
  }

  /** Steady-window bytes per client, from the intervals up to the window's end. */
  ghost function SteadyDeltas(h: seq<Snapshot>, p: Settings): Snapshot
    requires p.window.Some? && p.window.value.start <= p.window.value.end < |h| && |p.runtimes| == |h|
  {
    var b := p.window.value;
    DeltasOf(LastSeen(h, p.runtimes, b.start + 1), LastSeen(h, p.runtimes, b.end + 1),
             ResetSince(h[..b.end + 1], b.start), b)
  }

  // ----- classes -----

  datatype Class = Persistent | Transient | Ok

  /** Everything the pass reports about one client. */
  datatype ClientSteady = ClientSteady(
    five: RatioStats, thirty: RatioStats, steadyBytes: Option<int>, steadyMean: Option<real>,
    steadyRatio: Option<real>, classification: Option<Class>)

  function Classify(s: ClientSteady, p: Settings, fleetShare: real): Option<Class> {
    if s.steadyRatio.None? && s.five.windows == 0 then None
    else if (s.steadyRatio.Some? && s.steadyRatio.value < p.shortBelow)
            || (s.thirty.windows != 0 && s.thirty.short as real >= 0.5 * s.thirty.windows as real)
    then Some(Persistent)
    else if s.five.slow >= p.minSlowWindows
            && s.five.slow as real >= 2.0 * fleetShare * s.five.windows as real
    then Some(Transient)
    else Some(Ok)
  }

  /** The share of slow 5 s windows of every client that has any. */
  ghost function SlowShares(five: map<ClientId, RatioStats>): map<ClientId, real> {
    map c | c in five && five[c].windows > 0 :: five[c].slow as real / five[c].windows as real
  }

  ghost function FleetShare(five: map<ClientId, RatioStats>): real {
    Percentile(SortedValues(SlowShares(five)), 50.0)
  }

  ghost function FiveMap(h: seq<Snapshot>, p: Settings, clients: set<ClientId>): map<ClientId, RatioStats>
    requires |p.runtimes| == |h|
  {
    map c | c in clients :: StatsBefore(h, p, FiveSeconds, |h|, c)
  }

  /** One client's report from its counts, everyone's steady bytes and the fleet's share. */
  ghost function Report(p: Settings, b: Bounds, five: RatioStats, thirty: RatioStats, deltas: Snapshot,
                        fleetShare: real, c: ClientId): ClientSteady {
    var seconds := (b.endMs - b.startMs) as real / 1000.0;
    var bytes := Get(deltas, c);
    var s := ClientSteady(
      five, thirty, bytes,
      if bytes.Some? && seconds > 0.0 then Some(bytes.value as real / seconds / MIB) else None,
      if bytes.Some? && MedianOf(deltas) > 0.0 then Some(bytes.value as real / MedianOf(deltas)) else None,
      None);
    s.(classification := Classify(s, p, fleetShare))
  }

  /** One client's final report, from the whole history. */
  ghost function FinalOf(h: seq<Snapshot>, p: Settings, clients: set<ClientId>, c: ClientId): ClientSteady
    requires p.window.Some? && p.window.value.start <= p.window.value.end < |h| && |p.runtimes| == |h|
  {
    Report(p.(runtimes := []), p.window.value, StatsBefore(h, p, FiveSeconds, |h|, c),
           StatsBefore(h, p, ThirtySeconds, |h|, c), SteadyDeltas(h, p), FleetShare(FiveMap(h, p, clients)), c)
  }
}
