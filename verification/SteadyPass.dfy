/** The second pass: a ring of snapshots, the bounds captured in mid-stream and the counts
    per client, updated interval by interval. */
module SteadyPass {
  import opened LiveRows
  import opened Dictionaries
  import opened Ordering
  import opened Sums
  import opened Fairness
  import opened SnapshotRing
  import opened SteadyStats
  import opened SteadyTheorems

  // ----- window points -----

  /** One window of a series. */
  datatype WindowPoint = WindowPoint(
    end: int, endMs: int, clients: nat, jain: Option<real>, median: Option<real>,
    minOverMedian: Option<real>, floor: Option<real>, inSteady: bool)

  function PointFrom(values: seq<real>, end: int, endMs: int, inSteady: bool, blockSize: Option<int>): WindowPoint {
    var count := |values|;
    var total := Sum(values);
    var median := if count > 0 then Some(Percentile(values, 50.0)) else None;
    var jain := Jain(values);
    var minOverMedian := if jain.Some? && median.value > 0.0 then Some(values[0] / median.value) else None;
    var floor := if blockSize.Some? && blockSize.value != 0 && count > 0 && total > 0.0 then
                   var perWindow := total / count as real / blockSize.value as real;
                   if perWindow + 1.0 == 0.0 then None else Some(perWindow / (perWindow + 1.0))
                 else None;
    WindowPoint(end, endMs, count, jain, median, minOverMedian, floor, inSteady)
  }

  lemma {:induction false} ValuesNonNegative(m: map<ClientId, real>)
    requires forall c :: c in m ==> m[c] >= 0.0
    ensures NonNegative(SortedValues(m))
  {
    SortedBag(m);
    var s := SortedValues(m);
    forall i | 0 <= i < |s|
      ensures s[i] >= 0.0
    {
      assert s[i] in multiset(s);
      BagMember(m, s[i]);
    }
  }

  /** Every recorded point is fair to its window: Jain's index lies in `[1/n, 1]` and is 1
      exactly for equal counts, and the slowest client is between 0 and the median. */
  lemma {:induction false} PointBounds(bytes: Snapshot, end: int, endMs: int, inSteady: bool, blockSize: Option<int>)
    requires forall c :: c in bytes ==> bytes[c] >= 0
    ensures var values := SortedValues(Reals(bytes));
            var point := PointFrom(values, end, endMs, inSteady, blockSize);
            && point.clients == |bytes|
            && (point.jain.Some? ==>
                  && 1.0 / |bytes| as real <= point.jain.value <= 1.0
                  && (point.jain.value == 1.0 <==> AllEqual(values)))
            && (point.minOverMedian.Some? ==> 0.0 <= point.minOverMedian.value <= 1.0)
            && (point.floor.Some? && blockSize.value > 0 ==> 0.0 < point.floor.value < 1.0)
  {
    FloorBounds(SortedValues(Reals(bytes)), end, endMs, inSteady, blockSize);
    var values := SortedValues(Reals(bytes));
    SortedBag(Reals(bytes));
    assert |Reals(bytes)| == |Reals(bytes).Keys| == |bytes|;
    ValuesNonNegative(Reals(bytes));
    if Jain(values).Some? {
      JainBounds(values);
      PercentileInRange(values, 50.0);
      if Percentile(values, 50.0) > 0.0 {
        UnitRatio(values[0], Percentile(values, 50.0));
      }
    }
  }

  /** So is every point a series holds: its bytes are those of a window. */
  lemma {:induction false} RecordedPointBounds(h: seq<Snapshot>, p: Settings, blockSize: Option<int>, length: nat,
                                               t: int)
    requires length <= t < |h| && t < |p.runtimes|
    ensures var bytes, point := WindowEnding(h, length, t), PointAt(h, p, blockSize, length, t);
            && point.clients == |bytes|
            && (point.jain.Some? ==>
                  && 1.0 / |bytes| as real <= point.jain.value <= 1.0
                  && (point.jain.value == 1.0 <==> AllEqual(SortedValues(Reals(bytes)))))
            && (point.minOverMedian.Some? ==> 0.0 <= point.minOverMedian.value <= 1.0)
            && (point.floor.Some? && blockSize.value > 0 ==> 0.0 < point.floor.value < 1.0)
  {
    forall c | c in WindowEnding(h, length, t)
      ensures WindowEnding(h, length, t)[c] >= 0
    {
      WindowNonNegative(h, t - length, t, c);
    }
    PointBounds(WindowEnding(h, length, t), t, p.runtimes[t], InSteady(p, length, t), blockSize);
  }

  /** The fairness floor of one block of difference lies strictly between 0 and 1. */
  lemma {:induction false} FloorBounds(values: seq<real>, end: int, endMs: int, inSteady: bool,
                                       blockSize: Option<int>)
    ensures var floor := PointFrom(values, end, endMs, inSteady, blockSize).floor;
            floor.Some? && blockSize.value > 0 ==> 0.0 < floor.value < 1.0
  {
    if blockSize.Some? && blockSize.value > 0 && values != [] && Sum(values) > 0.0 {
      PositiveQuotient(Sum(values), |values| as real);
      PositiveQuotient(Sum(values) / |values| as real, blockSize.value as real);
      ShareBounds(Sum(values) / |values| as real / blockSize.value as real);
    }
  }

  lemma {:induction false} PositiveQuotient(a: real, b: real)
    requires a > 0.0 && b > 0.0
    ensures a / b > 0.0
  {}

  lemma {:induction false} ShareBounds(x: real)
    requires x > 0.0
    ensures 0.0 < x / (x + 1.0) < 1.0
  {
    var q := x / (x + 1.0);
    assert q * (x + 1.0) == x;
    assert (q - 1.0) * (x + 1.0) == -1.0;
    if q >= 1.0 {
      Product(q - 1.0, x + 1.0);
    }
  }

  lemma {:induction false} UnitRatio(a: real, b: real)
    requires 0.0 <= a <= b && b > 0.0
    ensures 0.0 <= a / b <= 1.0
  {
    var q := a / b;
    assert q * b == a;
    assert Mul(-q, b) == -a && Mul(q - 1.0, b) == a - b;
    if q < 0.0 {
      MulPositive(-q, b);
    } else if q > 1.0 {
      MulPositive(q - 1.0, b);
    }
  }

  // ----- ratios per client -----

  const NewClient := ClientSteady(NoWindows, NoWindows, None, None, None, None)

  function StatsFor(clients: map<ClientId, ClientSteady>, c: ClientId): ClientSteady {
    if c in clients then clients[c] else NewClient
  }

  function Noted(s: ClientSteady, size: Size, ratio: real, endMs: int, p: Settings): ClientSteady {
    match size
    case FiveSeconds => s.(five := s.five.Note(ratio, endMs, p.shortBelow, Some(p.slowBelow)))
    case ThirtySeconds => s.(thirty := s.thirty.Note(ratio, endMs, p.shortBelow, None))
  }

  ghost function NotedAll(clients: map<ClientId, ClientSteady>, size: Size, bytes: Snapshot, median: real, endMs: int,
                          p: Settings): (r: map<ClientId, ClientSteady>)
    requires median != 0.0
    ensures r.Keys == bytes.Keys
  {
    map c | c in bytes.Keys :: Noted(StatsFor(clients, c), size, bytes[c] as real / median, endMs, p)
  }

  method RecordRatios(clients: map<ClientId, ClientSteady>, size: Size, bytes: Snapshot, median: real, endMs: int,
                      p: Settings)
    returns (r: map<ClientId, ClientSteady>)
    requires median != 0.0
    ensures r == Overlay(clients, NotedAll(clients, size, bytes, median, endMs, p), bytes.Keys)
  {
    r := clients;
    var todo := bytes.Keys;
    ghost var done, target := {}, NotedAll(clients, size, bytes, median, endMs, p);
    while todo != {}
      invariant done !! todo && done + todo == bytes.Keys
      invariant r == Overlay(clients, target, done)
    {
      var c :| c in todo;
      OverlayStep(clients, target, done, c);
      var stats := StatsFor(r, c);
      r := r[c := Noted(stats, size, bytes[c] as real / median, endMs, p)];
      MoveOne(done, todo, c);
      todo, done := todo - {c}, done + {c};
    }
    assert done == bytes.Keys;
  }

  function Counts(s: ClientSteady, size: Size): RatioStats {
    match size case FiveSeconds => s.five case ThirtySeconds => s.thirty
  }

  function OtherSize(size: Size): Size {
    match size case FiveSeconds => ThirtySeconds case ThirtySeconds => FiveSeconds
  }

  /** Recording a window moves each client's counts of that size on, and nothing else. */
  ghost predicate Advances(before: map<ClientId, ClientSteady>, after: map<ClientId, ClientSteady>, size: Size,
                           bytes: Snapshot, endMs: int, p: Settings) {
    forall c ::
      && Counts(StatsFor(after, c), size)
         == NextStats(Counts(StatsFor(before, c), size), bytes, c, endMs, p.shortBelow, SlowThreshold(p, size))
      && Counts(StatsFor(after, c), OtherSize(size)) == Counts(StatsFor(before, c), OtherSize(size))
  }

  ghost predicate Unfinished(clients: map<ClientId, ClientSteady>) {
    forall c :: c in clients ==> clients[c] == ClientSteady(clients[c].five, clients[c].thirty, None, None, None, None)
  }

  lemma {:induction false} RecordAdvances(clients: map<ClientId, ClientSteady>, size: Size, bytes: Snapshot,
                                          median: real, endMs: int, p: Settings, r: map<ClientId, ClientSteady>)
    requires median == MedianOf(bytes) != 0.0 && Unfinished(clients)
    requires r == Overlay(clients, NotedAll(clients, size, bytes, median, endMs, p), bytes.Keys)
    ensures Advances(clients, r, size, bytes, endMs, p) && Unfinished(r)
  {
    var target := NotedAll(clients, size, bytes, median, endMs, p);
    forall c
      ensures StatsFor(r, c) == if c in bytes then target[c] else StatsFor(clients, c)
    {}
    forall c | c in r
      ensures r[c] == ClientSteady(r[c].five, r[c].thirty, None, None, None, None)
    {
      assert r[c] == StatsFor(r, c);
    }
  }

  lemma {:induction false} NoWindowAdvances(clients: map<ClientId, ClientSteady>, size: Size, bytes: Snapshot,
                                            endMs: int, p: Settings)
    requires bytes == map[] || MedianOf(bytes) == 0.0
    ensures Advances(clients, clients, size, bytes, endMs, p)
  {}

  /** The part of `_record` that feeds client ratios: nothing outside the steady window, nor
      when the fleet median is 0. */
  method RecordWindow(clients: map<ClientId, ClientSteady>, size: Size, bytes: Snapshot, values: seq<real>,
                      inSteady: bool, endMs: int, p: Settings)
    returns (r: map<ClientId, ClientSteady>)
    requires Unfinished(clients) && values == SortedValues(Reals(bytes))
    ensures Unfinished(r) && Advances(clients, r, size, if inSteady then bytes else map[], endMs, p)
    ensures clients.Keys <= r.Keys
  {
    r := clients;
    var median := Percentile(values, 50.0);
    if inSteady && |values| > 0 && median != 0.0 {
      r := RecordRatios(clients, size, bytes, median, endMs, p);
      RecordAdvances(clients, size, bytes, median, endMs, p, r);
    } else {
      NoWindowAdvances(clients, size, if inSteady then bytes else map[], endMs, p);
    }
  }

  // ----- bounds captured in mid-stream -----

  /** Each client's last sample at the bounds, and who was reset between them. */
  datatype Captured = Captured(atStart: Option<Seen>, atEnd: Option<Seen>, resets: set<ClientId>)

  /** What must have been captured once `n` intervals are complete. */
  ghost function CapturedAfter(h: seq<Snapshot>, p: Settings, n: nat): Captured
    requires n <= |h| && n <= |p.runtimes|
  {
    if p.window.None? then Captured(None, None, {})
    else
      var b := p.window.value;
      Captured(if n > b.start then Some(LastSeen(h, p.runtimes, b.start + 1)) else None,
               if n > b.end then Some(LastSeen(h, p.runtimes, b.end + 1)) else None,
               if n > b.end then ResetSince(h[..b.end + 1], b.start) else {})
  }

  /** `r` is `c` after capturing whichever bound `completed` has reached for the first time. */
  ghost predicate Captures(c: Captured, r: Captured, completed: int, lastSeen: Seen, resets: set<ClientId>, b: Bounds) {
    && r.atStart == (if c.atStart.None? && completed >= b.start then Some(lastSeen) else c.atStart)
    && r.atEnd == (if c.atEnd.None? && completed >= b.end then Some(lastSeen) else c.atEnd)
    && r.resets == (if c.atEnd.None? && completed >= b.end then resets else c.resets)
  }

  function ResetAfter(resetAt: map<ClientId, int>, start: nat): set<ClientId> {
    set k | k in resetAt && resetAt[k] > start
  }

  /** `_capture_bounds` once interval `completed` is complete. */
  method CaptureBounds(c: Captured, completed: int, lastSeen: Seen, resetAt: map<ClientId, int>, b: Bounds)
    returns (r: Captured)
    ensures Captures(c, r, completed, lastSeen, ResetAfter(resetAt, b.start), b)
  {
    r := c;
    if c.atStart.None? && completed >= b.start {
      r := r.(atStart := Some(lastSeen));
    }
    if c.atEnd.None? && completed >= b.end {
      r := r.(atEnd := Some(lastSeen), resets := ResetAfter(resetAt, b.start));
    }
  }

  /** Capturing again before the interval is read changes nothing. */
  lemma {:induction false} CaptureIdle(h: seq<Snapshot>, p: Settings, n: nat, r: Captured, lastSeen: Seen,
                                       resets: set<ClientId>)
    requires n <= |h| && n <= |p.runtimes| && p.window.Some?
    requires Captures(CapturedAfter(h, p, n), r, n - 1, lastSeen, resets, p.window.value)
    ensures r == CapturedAfter(h, p, n)
  {}

  lemma {:induction false} CaptureStep(h: seq<Snapshot>, p: Settings, n: nat, r: Captured)
    requires n < |h| && n < |p.runtimes| && p.window.Some?
    requires Captures(CapturedAfter(h, p, n), r, n, LastSeen(h, p.runtimes, n + 1),
                      ResetSince(h[..n + 1], p.window.value.start), p.window.value)
    ensures r == CapturedAfter(h, p, n + 1)
  {
    var b := p.window.value;
    CaptureMoves(CapturedAfter(h, p, n), r, n, b, LastSeen(h, p.runtimes, n + 1), ResetSince(h[..n + 1], b.start),
                 if n >= b.start then LastSeen(h, p.runtimes, b.start + 1) else map[],
                 if n >= b.end then LastSeen(h, p.runtimes, b.end + 1) else map[],
                 if n >= b.end then ResetSince(h[..b.end + 1], b.start) else {});
  }

  /** The same on values: `first`, `last` and `since` are what the bounds must have captured. */
  lemma {:induction false} CaptureMoves(before: Captured, r: Captured, n: nat, b: Bounds, seen: Seen,
                                        resets: set<ClientId>, first: Seen, last: Seen, since: set<ClientId>)
    requires before == CapturedBy(n, b, first, last, since)
    requires n == b.start ==> seen == first
    requires n == b.end ==> seen == last && resets == since
    requires Captures(before, r, n, seen, resets, b)
    ensures r == CapturedBy(n + 1, b, first, last, since)
  {}

  ghost function CapturedBy(n: nat, b: Bounds, first: Seen, last: Seen, since: set<ClientId>): Captured {
    Captured(if n > b.start then Some(first) else None, if n > b.end then Some(last) else None,
             if n > b.end then since else {})
  }

  method NoteSeen(lastSeen: Seen, snapshot: Snapshot, runtimeMs: int) returns (r: Seen)
    ensures r == lastSeen + Sightings(snapshot, runtimeMs)
  {
    r := lastSeen;
    var todo := snapshot.Keys;
    ghost var done: set<ClientId> := {};
    while todo != {}
      invariant done !! todo && done + todo == snapshot.Keys
      invariant r == lastSeen + map c | c in done && c in snapshot :: Sighting(snapshot[c], runtimeMs)
    {
      var c :| c in todo;
      r := r[c := Sighting(snapshot[c], runtimeMs)];
      MoveOne(done, todo, c);
      todo, done := todo - {c}, done + {c};
    }
    assert done == snapshot.Keys;
  }

  // ----- the whole pass -----

  /** The point of the window of this length ending at `t`. */
  ghost function PointAt(h: seq<Snapshot>, p: Settings, blockSize: Option<int>, length: nat, t: int): WindowPoint
    requires length <= t < |h| && t < |p.runtimes|
  {
    PointFrom(SortedValues(Reals(WindowEnding(h, length, t))), t, p.runtimes[t], InSteady(p, length, t), blockSize)
  }

  /** One point per window ending before `n`, in order. */
  ghost function PointsBefore(h: seq<Snapshot>, p: Settings, blockSize: Option<int>, length: nat, n: nat)
    : seq<WindowPoint>
    requires n <= |h| && n <= |p.runtimes|
  {
    var count := if n <= length then 0 else n - length;
    seq(count, i requires 0 <= i < count => PointAt(h, p, blockSize, length, length + i))
  }

  lemma {:induction false} PointsStep(h: seq<Snapshot>, p: Settings, blockSize: Option<int>, length: nat, n: nat)
    requires 0 < n <= |h| && n <= |p.runtimes|
    ensures PointsBefore(h, p, blockSize, length, n)
            == if length <= n - 1
               then PointsBefore(h, p, blockSize, length, n - 1) + [PointAt(h, p, blockSize, length, n - 1)]
               else PointsBefore(h, p, blockSize, length, n - 1)
  {}

  /** Every client's counts are those of the first `n` intervals. */
  ghost predicate CountsMatch(clients: map<ClientId, ClientSteady>, h: seq<Snapshot>, p: Settings, size: Size, n: nat)
    requires n <= |h| && n <= |p.runtimes|
  {
    forall c :: Counts(StatsFor(clients, c), size) == StatsBefore(h, p, size, n, c)
  }

  lemma {:induction false} CountsStep(before: map<ClientId, ClientSteady>, after: map<ClientId, ClientSteady>,
                                      h: seq<Snapshot>, p: Settings, size: Size, n: nat)
    requires n < |h| && n < |p.runtimes| && CountsMatch(before, h, p, size, n)
    requires Advances(before, after, size, SteadyBytesAt(h, p, size, n), p.runtimes[n], p)
    ensures CountsMatch(after, h, p, size, n + 1)
  {}

  lemma {:induction false} OtherCountsKept(before: map<ClientId, ClientSteady>, after: map<ClientId, ClientSteady>,
                                           h: seq<Snapshot>, p: Settings, size: Size, bytes: Snapshot, endMs: int,
                                           n: nat)
    requires n <= |h| && n <= |p.runtimes| && CountsMatch(before, h, p, OtherSize(size), n)
    requires Advances(before, after, size, bytes, endMs, p)
    ensures CountsMatch(after, h, p, OtherSize(size), n)
  {}

  method RecordPoint(points: seq<WindowPoint>, deltas: Option<Snapshot>, end: int, length: nat, p: Settings,
                     blockSize: Option<int>)
    returns (r: seq<WindowPoint>, values: seq<real>)
    requires 0 <= end < |p.runtimes|
    ensures deltas.None? ==> r == points
    ensures deltas.Some? ==>
      && values == SortedValues(Reals(deltas.value))
      && r == points + [PointFrom(values, end, p.runtimes[end], InSteady(p, length, end), blockSize)]
  {
    r, values := points, [];
    if deltas.Some? {
      values := SortValues(Reals(deltas.value));
      r := points + [PointFrom(values, end, p.runtimes[end], InSteady(p, length, end), blockSize)];
    }
  }

  /** The 5 s and 30 s windows ending at the interval just added. */
  method RecordSized(clients: map<ClientId, ClientSteady>, points: seq<WindowPoint>, deltas: Option<Snapshot>,
                     size: Size, p: Settings, blockSize: Option<int>, ghost h: seq<Snapshot>, end: int)
    returns (r: map<ClientId, ClientSteady>, more: seq<WindowPoint>)
    requires 0 <= end < |h| && end < |p.runtimes| && Unfinished(clients)
    requires deltas.Some? <==> Length(p, size) <= end
    requires deltas.Some? ==> deltas.value == WindowEnding(h, Length(p, size), end)
    requires points == PointsBefore(h, p, blockSize, Length(p, size), end)
    requires CountsMatch(clients, h, p, size, end)
    ensures Unfinished(r) && clients.Keys <= r.Keys
    ensures CountsMatch(r, h, p, size, end + 1)
    ensures Advances(clients, r, size, SteadyBytesAt(h, p, size, end), p.runtimes[end], p)
    ensures more == PointsBefore(h, p, blockSize, Length(p, size), end + 1)
  {
    var length := Length(p, size);
    var values;
    more, values := RecordPoint(points, deltas, end, length, p, blockSize);
    r := clients;
    if deltas.Some? {
      r := RecordWindow(clients, size, deltas.value, values, InSteady(p, length, end), p.runtimes[end], p);
    } else {
      NoWindowAdvances(clients, size, map[], p.runtimes[end], p);
    }
    CountsStep(clients, r, h, p, size, end);
    PointsStep(h, p, blockSize, length, end + 1);
  }

  method ComputeDeltas(first: Seen, last: Seen, resets: set<ClientId>, b: Bounds) returns (deltas: Snapshot)
    ensures deltas == DeltasOf(first, last, resets, b)
  {
    deltas := map[];
    var todo := last.Keys;
    ghost var done: set<ClientId> := {};
    while todo != {}
      invariant done !! todo && done + todo == last.Keys
      invariant deltas == DeltasAmong(first, last, resets, b, done)
    {
      var c :| c in todo;
      DeltasAmongStep(first, last, resets, b, done, c);
      if c in first && c !in resets && last[c].runtimeMs > first[c].runtimeMs
         && last[c].doneBytes >= first[c].doneBytes {
        deltas := deltas[c := Scaled(first[c], last[c], b)];
      }
      MoveOne(done, todo, c);
      todo, done := todo - {c}, done + {c};
    }
    assert done == last.Keys;
  }

  ghost predicate HasDelta(first: Seen, last: Seen, resets: set<ClientId>, c: ClientId) {
    c in last && c in first && c !in resets
    && last[c].runtimeMs > first[c].runtimeMs && last[c].doneBytes >= first[c].doneBytes
  }

  ghost function DeltasAmong(first: Seen, last: Seen, resets: set<ClientId>, b: Bounds, done: set<ClientId>): Snapshot {
    map c | c in done && HasDelta(first, last, resets, c) :: Scaled(first[c], last[c], b)
  }

  lemma {:induction false} DeltasAmongStep(first: Seen, last: Seen, resets: set<ClientId>, b: Bounds,
                                           done: set<ClientId>, c: ClientId)
    requires c !in done
    ensures DeltasAmong(first, last, resets, b, done + {c})
            == if HasDelta(first, last, resets, c)
               then DeltasAmong(first, last, resets, b, done)[c := Scaled(first[c], last[c], b)]
               else DeltasAmong(first, last, resets, b, done)
  {}

  function WithBytes(s: ClientSteady, bytes: int, seconds: real, median: real): ClientSteady {
    s.(steadyBytes := Some(bytes),
       steadyMean := if seconds > 0.0 then Some(bytes as real / seconds / MIB) else s.steadyMean,
       steadyRatio := if median > 0.0 then Some(bytes as real / median) else s.steadyRatio)
  }

  ghost function BytesAssigned(clients: map<ClientId, ClientSteady>, deltas: Snapshot, seconds: real, median: real)
    : (r: map<ClientId, ClientSteady>)
    ensures r.Keys == deltas.Keys
  {
    map c | c in deltas.Keys :: WithBytes(StatsFor(clients, c), deltas[c], seconds, median)
  }

  method AssignSteadyBytes(clients: map<ClientId, ClientSteady>, deltas: Snapshot, b: Bounds)
    returns (r: map<ClientId, ClientSteady>)
    ensures var seconds := (b.endMs - b.startMs) as real / 1000.0;
            r == Overlay(clients, BytesAssigned(clients, deltas, seconds, MedianOf(deltas)), deltas.Keys)
  {
    var seconds := (b.endMs - b.startMs) as real / 1000.0;
    var values := SortValues(Reals(deltas));
    var median := Percentile(values, 50.0);
    r := clients;
    var todo := deltas.Keys;
    ghost var done, target := {}, BytesAssigned(clients, deltas, seconds, median);
    while todo != {}
      invariant done !! todo && done + todo == deltas.Keys
      invariant r == Overlay(clients, target, done)
    {
      var c :| c in todo;
      OverlayStep(clients, target, done, c);
      var stats := StatsFor(r, c);
      r := r[c := WithBytes(stats, deltas[c], seconds, median)];
      MoveOne(done, todo, c);
      todo, done := todo - {c}, done + {c};
    }
    assert done == deltas.Keys;
  }

  ghost function Fives(clients: map<ClientId, ClientSteady>): map<ClientId, RatioStats> {
    map c | c in clients :: clients[c].five
  }

  /** The classes, given everyone's counts and steady ratios. */
  method ClassifyAll(clients: map<ClientId, ClientSteady>, p: Settings) returns (r: map<ClientId, ClientSteady>)
    ensures r.Keys == clients.Keys
    ensures forall c :: c in r ==>
      r[c] == clients[c].(classification := Classify(clients[c], p, FleetShare(Fives(clients))))
  {
    var shares := map c | c in clients && clients[c].five.windows > 0
      :: clients[c].five.slow as real / clients[c].five.windows as real;
    assert shares == SlowShares(Fives(clients));
    var sorted := SortValues(shares);
    var fleetShare := Percentile(sorted, 50.0);
    r := map c | c in clients :: clients[c].(classification := Classify(clients[c], p, fleetShare));
  }

  lemma {:induction false} FinishCorrect(clients: map<ClientId, ClientSteady>, deltas: Snapshot,
                                         withBytes: map<ClientId, ClientSteady>, r: map<ClientId, ClientSteady>,
                                         h: seq<Snapshot>, p: Settings, b: Bounds)
    requires p.window == Some(b) && b.start <= b.end < |h| && |p.runtimes| == |h|
    requires Unfinished(clients) && deltas == SteadyDeltas(h, p)
    requires CountsMatch(clients, h, p, FiveSeconds, |h|) && CountsMatch(clients, h, p, ThirtySeconds, |h|)
    requires withBytes == Overlay(clients, BytesAssigned(clients, deltas, (b.endMs - b.startMs) as real / 1000.0,
                                                         MedianOf(deltas)), deltas.Keys)
    requires r.Keys == withBytes.Keys
    requires forall c :: c in r ==>
      r[c] == withBytes[c].(classification := Classify(withBytes[c], p, FleetShare(Fives(withBytes))))
    ensures r.Keys == clients.Keys + deltas.Keys
    ensures forall c :: c in r ==> r[c] == FinalOf(h, p, r.Keys, c)
  {
    BytesKeepCounts(clients, deltas, withBytes, h, p, (b.endMs - b.startMs) as real / 1000.0);
    forall c | c in r
      ensures r[c] == FinalOf(h, p, r.Keys, c)
    {
      ReportCorrect(clients, deltas, withBytes[c], p, b, FleetShare(FiveMap(h, p, r.Keys)), c);
    }
  }

  /** Assigning steady bytes leaves the counts alone. */
  lemma {:induction false} BytesKeepCounts(clients: map<ClientId, ClientSteady>, deltas: Snapshot,
                                           withBytes: map<ClientId, ClientSteady>, h: seq<Snapshot>, p: Settings,
                                           seconds: real)
    requires |h| == |p.runtimes|
    requires CountsMatch(clients, h, p, FiveSeconds, |h|) && CountsMatch(clients, h, p, ThirtySeconds, |h|)
    requires withBytes == Overlay(clients, BytesAssigned(clients, deltas, seconds, MedianOf(deltas)), deltas.Keys)
    ensures forall c :: c in withBytes ==>
      && withBytes[c].five == StatsBefore(h, p, FiveSeconds, |h|, c)
      && withBytes[c].thirty == StatsBefore(h, p, ThirtySeconds, |h|, c)
    ensures Fives(withBytes) == FiveMap(h, p, withBytes.Keys)
  {
    forall c | c in withBytes
      ensures withBytes[c].five == StatsBefore(h, p, FiveSeconds, |h|, c)
      ensures withBytes[c].thirty == StatsBefore(h, p, ThirtySeconds, |h|, c)
    {
      CountsOf(clients, h, p, c);
    }
  }

  /** Only known clients have counts. */
  lemma {:induction false} CountedIsKnown(clients: map<ClientId, ClientSteady>, h: seq<Snapshot>, p: Settings)
    requires |h| == |p.runtimes|
    requires CountsMatch(clients, h, p, FiveSeconds, |h|) && CountsMatch(clients, h, p, ThirtySeconds, |h|)
    ensures Covers(h, p, clients.Keys)
  {
    forall c | StatsBefore(h, p, FiveSeconds, |h|, c).windows > 0
      ensures c in clients
    {
      CountsOf(clients, h, p, c);
    }
  }

  lemma {:induction false} CountsOf(clients: map<ClientId, ClientSteady>, h: seq<Snapshot>, p: Settings, c: ClientId)
    requires |h| == |p.runtimes|
    requires CountsMatch(clients, h, p, FiveSeconds, |h|) && CountsMatch(clients, h, p, ThirtySeconds, |h|)
    ensures StatsFor(clients, c).five == StatsBefore(h, p, FiveSeconds, |h|, c)
    ensures StatsFor(clients, c).thirty == StatsBefore(h, p, ThirtySeconds, |h|, c)
  {
    assert Counts(StatsFor(clients, c), FiveSeconds) == StatsBefore(h, p, FiveSeconds, |h|, c);
    assert Counts(StatsFor(clients, c), ThirtySeconds) == StatsBefore(h, p, ThirtySeconds, |h|, c);
  }

  lemma {:induction false} ReportCorrect(clients: map<ClientId, ClientSteady>, deltas: Snapshot, s: ClientSteady,
                                         p: Settings, b: Bounds, share: real, c: ClientId)
    requires Unfinished(clients)
    requires var seconds := (b.endMs - b.startMs) as real / 1000.0;
             s == if c in deltas then WithBytes(StatsFor(clients, c), deltas[c], seconds, MedianOf(deltas))
                  else StatsFor(clients, c)
    ensures s.(classification := Classify(s, p, share))
            == Report(p.(runtimes := []), b, s.five, s.thirty, deltas, share, c)
  {}

  /** Accumulate window points, captured bounds and client counts interval by interval.  The
      ghost constant `full` is the whole history the pass is fed, one snapshot at a time. */
  class Pass {
    const p: Settings
    const blockSize: Option<int>
    const ring: Ring
    ghost const full: seq<Snapshot>
    var lastSeen: Seen
    var captured: Captured
    var clients: map<ClientId, ClientSteady>
    var pointsInterval: seq<WindowPoint>
    var points5s: seq<WindowPoint>
    var points30s: seq<WindowPoint>

    /** After `n` intervals every field is what the history of those intervals defines. */
    ghost predicate Valid(n: nat)
      reads this, ring
    {
      && n <= |full| == |p.runtimes|
      && ring.Valid() && ring.history == full[..n]
      && 1 <= ring.depth && p.length5s <= ring.depth && p.length30s <= ring.depth
      && lastSeen == LastSeen(full, p.runtimes, n)
      && captured == CapturedAfter(full, p, n)
      && Unfinished(clients)
      && CountsMatch(clients, full, p, FiveSeconds, n) && CountsMatch(clients, full, p, ThirtySeconds, n)
      && pointsInterval == PointsBefore(full, p, blockSize, 1, n)
      && points5s == PointsBefore(full, p, blockSize, p.length5s, n)
      && points30s == PointsBefore(full, p, blockSize, p.length30s, n)
    }

    constructor (p: Settings, blockSize: Option<int>, clientIds: set<ClientId>, ghost full: seq<Snapshot>)
      requires |full| == |p.runtimes|
      ensures Valid(0) && fresh(ring) && this.p == p && this.full == full && this.blockSize == blockSize
      ensures clients.Keys == clientIds
    {
      var depth := if p.length5s > p.length30s then p.length5s else p.length30s;
      var r := new Ring(if depth > 1 then depth else 1);
      this.p, this.blockSize, this.ring, this.full := p, blockSize, r, full;
      lastSeen, captured := map[], Captured(None, None, {});
      clients := map c | c in clientIds :: NewClient;
      pointsInterval, points5s, points30s := [], [], [];
    }

    /** After the last interval: what each client moved between the captured bounds, its share of
        the median and its class. */
    method Finish()
      requires Valid(|full|)
      requires p.window.Some? ==> p.window.value.start <= p.window.value.end < |full|
      modifies this`clients
      ensures p.window.None? ==> clients == old(clients)
      ensures p.window.Some? ==>
        && clients.Keys == old(clients.Keys) + SteadyDeltas(full, p).Keys
        && Covers(full, p, clients.Keys)
        && forall c :: c in clients ==> clients[c] == FinalOf(full, p, clients.Keys, c)
    {
      if p.window.None? {
        return;
      }
      var b := p.window.value;
      var deltas := ComputeDeltas(captured.atStart.value, captured.atEnd.value, captured.resets, b);
      assert deltas == SteadyDeltas(full, p);
      var withBytes := AssignSteadyBytes(clients, deltas, b);
      var classified := ClassifyAll(withBytes, p);
      FinishCorrect(clients, deltas, withBytes, classified, full, p, b);
      CountedIsKnown(clients, full, p);
      clients := classified;
    }

    /** One more interval: capture a bound it reaches, remember its samples, and add the windows
        that end with it to the series and the clients' counts. */
    method Complete(interval: nat, snapshot: Snapshot)
      requires Valid(interval) && interval < |full| && snapshot == full[interval]
      modifies this, ring
      ensures Valid(interval + 1) && old(clients.Keys) <= clients.Keys
    {
      var bounds := captured;
      if p.window.Some? {
        bounds := CaptureBounds(bounds, interval - 1, lastSeen, ring.resetAt, p.window.value);
        CaptureIdle(full, p, interval, bounds, lastSeen, ResetAfter(ring.resetAt, p.window.value.start));
      }
      ring.Add(interval, snapshot);
      assert ring.history == full[..interval + 1];
      var seen := NoteSeen(lastSeen, snapshot, p.runtimes[interval]);
      if p.window.Some? {
        bounds := CaptureBounds(bounds, interval, seen, ring.resetAt, p.window.value);
        CaptureStep(full, p, interval, bounds);
      }
      RecordAll(interval);
      lastSeen, captured := seen, bounds;
    }

    /** The loop over the three series. */
    method RecordAll(interval: nat)
      requires interval < |full| == |p.runtimes| && ring.Valid() && ring.history == full[..interval + 1]
      requires 1 <= ring.depth && p.length5s <= ring.depth && p.length30s <= ring.depth
      requires Unfinished(clients)
      requires CountsMatch(clients, full, p, FiveSeconds, interval)
      requires CountsMatch(clients, full, p, ThirtySeconds, interval)
      requires pointsInterval == PointsBefore(full, p, blockSize, 1, interval)
      requires points5s == PointsBefore(full, p, blockSize, p.length5s, interval)
      requires points30s == PointsBefore(full, p, blockSize, p.length30s, interval)
      modifies this`clients, this`pointsInterval, this`points5s, this`points30s
      ensures Unfinished(clients) && old(clients.Keys) <= clients.Keys
      ensures CountsMatch(clients, full, p, FiveSeconds, interval + 1)
      ensures CountsMatch(clients, full, p, ThirtySeconds, interval + 1)
      ensures pointsInterval == PointsBefore(full, p, blockSize, 1, interval + 1)
      ensures points5s == PointsBefore(full, p, blockSize, p.length5s, interval + 1)
      ensures points30s == PointsBefore(full, p, blockSize, p.length30s, interval + 1)
    {
      var d1 := AskRing(ring, 1, full, interval);
      var d5 := AskRing(ring, p.length5s, full, interval);
      var d30 := AskRing(ring, p.length30s, full, interval);
      var more1, _ := RecordPoint(pointsInterval, d1, interval, 1, p, blockSize);
      PointsStep(full, p, blockSize, 1, interval + 1);
      var after5, more5 := RecordSized(clients, points5s, d5, FiveSeconds, p, blockSize, full, interval);
      OtherCountsKept(clients, after5, full, p, FiveSeconds, SteadyBytesAt(full, p, FiveSeconds, interval),
                      p.runtimes[interval], interval);
      var after30, more30 := RecordSized(after5, points30s, d30, ThirtySeconds, p, blockSize, full, interval);
      OtherCountsKept(after5, after30, full, p, ThirtySeconds, SteadyBytesAt(full, p, ThirtySeconds, interval),
                      p.runtimes[interval], interval + 1);
      clients, pointsInterval, points5s, points30s := after30, more1, more5, more30;
    }
  }

  method AskRing(ring: Ring, length: nat, ghost full: seq<Snapshot>, interval: nat) returns (deltas: Option<Snapshot>)
    requires interval < |full| && ring.Valid() && ring.history == full[..interval + 1] && length <= ring.depth
    ensures deltas.Some? <==> length <= interval
    ensures deltas.Some? ==> deltas.value == WindowEnding(full, length, interval)
  {
    deltas := ring.Deltas(interval, interval - length);
    if deltas.Some? {
      WindowPrefix(full, interval + 1, interval - length, interval);
    }
  }
}
