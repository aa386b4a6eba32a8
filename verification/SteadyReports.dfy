/** What the second pass reports: steady bytes, means and shares of the median per client, and
    the columns of a window's point. */
module SteadyReports {
  import opened LiveRows
  import opened Dictionaries
  import opened Ordering
  import opened Sums
  import opened Fairness
  import opened SnapshotRing
  import opened SteadyStats
  import opened SteadyTheorems
  import opened SteadyMeaning
  import opened SteadyPass

  // ----- steady bytes -----

  /** The client's last sample at or before interval `t` is in interval `i`. */
  ghost predicate LastSampled(h: seq<Snapshot>, c: ClientId, t: int, i: int) {
    && 0 <= i <= t < |h| && c in h[i]
    && forall k :: i < k <= t ==> c !in h[k]
  }

  ghost function SampleAt(h: seq<Snapshot>, runtimes: seq<int>, i: int, c: ClientId): Sighting
    requires 0 <= i < |h| && i < |runtimes| && c in h[i]
  {
    Sighting(h[i][c], runtimes[i])
  }

  lemma {:induction false} SeenIs(h: seq<Snapshot>, runtimes: seq<int>, n: nat, c: ClientId, i: int)
    requires 0 < n <= |h| && n <= |runtimes| && LastSampled(h, c, n - 1, i)
    ensures Get(LastSeen(h, runtimes, n), c) == Some(SampleAt(h, runtimes, i, c))
  {
    if i < n - 1 {
      SeenIs(h, runtimes, n - 1, c, i);
    }
  }

  lemma {:induction false} NeverSeen(h: seq<Snapshot>, runtimes: seq<int>, n: nat, c: ClientId)
    requires n <= |h| && n <= |runtimes| && forall k :: 0 <= k < n ==> c !in h[k]
    ensures c !in LastSeen(h, runtimes, n)
  {
    if n > 0 {
      NeverSeen(h, runtimes, n - 1, c);
    }
  }

  lemma {:induction false} ResetMeans(h: seq<Snapshot>, start: nat, end: nat, c: ClientId)
    requires end < |h|
    ensures c in ResetSince(h[..end + 1], start) <==> DropsWithin(h, c, start, end)
  {
    if c in ResetSince(h[..end + 1], start) {
      var k := RememberedDrop(h[..end + 1], start, c);
      DropsAtPrefix(h, c, end + 1, k);
    }
    if k :| start < k <= end && DropsAt(h, c, k) {
      DropsAtPrefix(h, c, end + 1, k);
      DropIsRemembered(h[..end + 1], start, c, k);
    }
  }

  lemma {:induction false} RoundedQuotient(a: real, n: real)
    requires n > 0.0
    ensures -n <= 2.0 * (Mul(RoundHalfEven(a / n) as real, n) - a) <= n
  {
    var q, r := a / n, RoundHalfEven(a / n) as real;
    assert Mul(q, n) == a;
    Product(r - q + 0.5, n);
    Product(q - r + 0.5, n);
  }

  /** `scaled` is `moved`, times the span over the elapsed time, to the nearest integer. */
  ghost predicate ScaledTo(scaled: int, moved: int, elapsed: int, span: int) {
    && -elapsed <= 2 * (scaled * elapsed - moved * span) <= elapsed
    && (elapsed == span ==> scaled == moved)
  }

  lemma {:induction false} IntegerProduct(a: int, b: int)
    ensures Mul(a as real, b as real) == (a * b) as real
  {}

  lemma {:induction false} NearestInteger(scaled: int, moved: int, elapsed: int, span: int)
    requires elapsed > 0
    requires -(elapsed as real) <= 2.0 * (Mul(scaled as real, elapsed as real) - Mul(moved as real, span as real))
    requires 2.0 * (Mul(scaled as real, elapsed as real) - Mul(moved as real, span as real)) <= elapsed as real
    ensures -elapsed <= 2 * (scaled * elapsed - moved * span) <= elapsed
  {
    IntegerProduct(scaled, elapsed);
    IntegerProduct(moved, span);
    var a, b := scaled * elapsed, moved * span;
    assert -elapsed <= 2 * (a - b) <= elapsed;
  }

  lemma {:induction false} SameSpan(a: int, n: int)
    requires n > 0
    ensures RoundHalfEven(Mul(a as real, n as real) / n as real) == a
  {
    assert Mul(a as real, n as real) / n as real == a as real;
  }

  lemma {:induction false} ScaledMeaning(first: Sighting, last: Sighting, b: Bounds)
    requires last.runtimeMs > first.runtimeMs
    ensures ScaledTo(Scaled(first, last, b), last.doneBytes - first.doneBytes, last.runtimeMs - first.runtimeMs,
                     b.endMs - b.startMs)
  {
    var moved, elapsed, span := last.doneBytes - first.doneBytes, last.runtimeMs - first.runtimeMs, b.endMs - b.startMs;
    var product := Mul(moved as real, span as real);
    assert Scaled(first, last, b) == RoundHalfEven(product / elapsed as real);
    RoundedQuotient(product, elapsed as real);
    NearestInteger(Scaled(first, last, b), moved, elapsed, span);
    if elapsed == span {
      SameSpan(moved, elapsed);
    }
  }

  /** A client seen at both bounds has steady bytes exactly when its runtime advanced between the two
      samples, its counter is not lower and it was not reset: the bytes between the samples, scaled
      to the window's span. */
  ghost predicate DeltaFits(deltas: Snapshot, c: ClientId, first: Sighting, last: Sighting, reset: bool, b: Bounds) {
    && (c in deltas <==> first.runtimeMs < last.runtimeMs && first.doneBytes <= last.doneBytes && !reset)
    && (c in deltas ==> ScaledTo(deltas[c], last.doneBytes - first.doneBytes, last.runtimeMs - first.runtimeMs,
                                 b.endMs - b.startMs))
  }

  lemma {:induction false} DeltaMeaning(first: Seen, last: Seen, resets: set<ClientId>, b: Bounds, c: ClientId,
                                        f: Sighting, l: Sighting, reset: bool)
    requires Get(first, c) == Some(f) && Get(last, c) == Some(l) && (c in resets <==> reset)
    ensures DeltaFits(DeltasOf(first, last, resets, b), c, f, l, reset, b)
  {
    if l.runtimeMs > f.runtimeMs {
      ScaledMeaning(f, l, b);
    }
  }

  lemma {:induction false} SteadyDeltaMeaning(h: seq<Snapshot>, p: Settings, b: Bounds, c: ClientId, f: Sighting,
                                              l: Sighting, reset: bool)
    requires p.window == Some(b) && b.start <= b.end < |h| && |p.runtimes| == |h|
    requires Get(LastSeen(h, p.runtimes, b.start + 1), c) == Some(f)
    requires Get(LastSeen(h, p.runtimes, b.end + 1), c) == Some(l)
    requires c in ResetSince(h[..b.end + 1], b.start) <==> reset
    ensures DeltaFits(SteadyDeltas(h, p), c, f, l, reset, b)
  {
    var first, last, resets := LastSeen(h, p.runtimes, b.start + 1), LastSeen(h, p.runtimes, b.end + 1),
                               ResetSince(h[..b.end + 1], b.start);
    DeltasUnfold(h, p, b);
    DeltaMeaning(first, last, resets, b, c, f, l, reset);
  }

  ghost predicate DropsWithin(h: seq<Snapshot>, c: ClientId, start: nat, end: nat) {
    exists k :: start < k <= end && DropsAt(h, c, k)
  }

  /** What a client moved in the steady window, from its last samples at or before both bounds and
      the drops of its counter in between. */
  lemma {:induction false} SteadyBytesMeaning(h: seq<Snapshot>, p: Settings, b: Bounds, c: ClientId, i: int, j: int)
    requires p.window == Some(b) && b.start <= b.end < |h| && |p.runtimes| == |h|
    requires LastSampled(h, c, b.start, i) && LastSampled(h, c, b.end, j)
    ensures DeltaFits(SteadyDeltas(h, p), c, SampleAt(h, p.runtimes, i, c), SampleAt(h, p.runtimes, j, c),
                      DropsWithin(h, c, b.start, b.end), b)
  {
    SeenIs(h, p.runtimes, b.start + 1, c, i);
    SeenIs(h, p.runtimes, b.end + 1, c, j);
    ResetMeans(h, b.start, b.end, c);
    SteadyDeltaMeaning(h, p, b, c, SampleAt(h, p.runtimes, i, c), SampleAt(h, p.runtimes, j, c),
                       DropsWithin(h, c, b.start, b.end));
  }

  /** A client without a sample at or before the start has no steady bytes. */
  lemma {:induction false} UnseenAtStart(h: seq<Snapshot>, p: Settings, c: ClientId)
    requires p.window.Some? && p.window.value.start <= p.window.value.end < |h| && |p.runtimes| == |h|
    requires forall k :: 0 <= k <= p.window.value.start ==> c !in h[k]
    ensures c !in SteadyDeltas(h, p)
  {
    NeverSeen(h, p.runtimes, p.window.value.start + 1, c);
  }

  // ----- the numbers of a report -----

  lemma {:induction false} MeanMeaning(bytes: real, span: real)
    requires span > 0.0
    ensures Mul(Mul(bytes / (span / 1000.0) / MIB, span), 1048576.0) == bytes * 1000.0
  {
    var seconds := span / 1000.0;
    var q := bytes / seconds;
    assert q * seconds == bytes;
    var r := q / MIB;
    assert r * 1048576.0 == q;
    assert r * span * 1048576.0 == r * 1048576.0 * span;
    assert q * span == q * seconds * 1000.0;
  }

  /** The numbers about the steady window fit the bytes that everyone moved in it. */
  ghost predicate ReportFits(s: ClientSteady, deltas: Snapshot, span: int, c: ClientId) {
    var median := Percentile(SortedValues(Reals(deltas)), 50.0);
    && (s.steadyBytes.Some? <==> c in deltas)
    && (s.steadyMean.Some? <==> c in deltas && span > 0)
    && (s.steadyRatio.Some? <==> c in deltas && median > 0.0)
    && (c in deltas ==> s.steadyBytes == Some(deltas[c]))
    && (s.steadyMean.Some? ==> Mul(Mul(s.steadyMean.value, span as real), 1048576.0) == deltas[c] as real * 1000.0)
    && (s.steadyRatio.Some? ==> Mul(s.steadyRatio.value, median) == deltas[c] as real)
  }

  lemma {:induction false} ReportNumbers(p: Settings, b: Bounds, five: RatioStats, thirty: RatioStats,
                                         deltas: Snapshot, share: real, c: ClientId)
    ensures ReportFits(Report(p, b, five, thirty, deltas, share, c), deltas, b.endMs - b.startMs, c)
  {
    if c in deltas {
      if b.endMs > b.startMs {
        MeanMeaning(deltas[c] as real, (b.endMs - b.startMs) as real);
      }
      if MedianOf(deltas) > 0.0 {
        QuotientTimes(deltas[c] as real, MedianOf(deltas));
      }
    }
  }

  /** Every client's report: its steady bytes, their mean rate and their share of the median. */
  lemma {:induction false} ReportMeaning(h: seq<Snapshot>, p: Settings, clients: set<ClientId>, c: ClientId)
    requires p.window.Some? && p.window.value.start <= p.window.value.end < |h| && |p.runtimes| == |h|
    ensures ReportFits(FinalOf(h, p, clients, c), SteadyDeltas(h, p),
                       p.window.value.endMs - p.window.value.startMs, c)
  {
    ReportNumbers(p.(runtimes := []), p.window.value, StatsBefore(h, p, FiveSeconds, |h|, c),
                  StatsBefore(h, p, ThirtySeconds, |h|, c), SteadyDeltas(h, p), FleetShare(FiveMap(h, p, clients)), c);
  }

  // ----- a window's point -----

  /** The slowest client's bytes. */
  ghost predicate IsLeast(bytes: Snapshot, least: real) {
    && (exists c :: c in bytes && bytes[c] as real == least)
    && (forall c :: c in bytes ==> least <= bytes[c] as real)
  }

  lemma {:induction false} FirstValueIsLeast(bytes: Snapshot)
    requires bytes.Keys != {}
    ensures SortedValues(Reals(bytes)) != [] && IsLeast(bytes, SortedValues(Reals(bytes))[0])
  {
    var m, s := Reals(bytes), SortedValues(Reals(bytes));
    SortedBag(m);
    assert |s| == |m| > 0;
    assert s[0] in multiset(s);
    BagMember(m, s[0]);
    forall c | c in bytes
      ensures s[0] <= bytes[c] as real
    {
      BagTake(m, c);
      assert m[c] in multiset(s);
    }
  }

  lemma {:induction false} SquaresOfZeros(values: seq<real>)
    ensures SumSquares(values) >= 0.0 && (SumSquares(values) == 0.0 <==> AllAre(values, 0.0))
  {
    DeviationExpands(values, 0.0);
    DeviationZero(values, 0.0);
    assert Expansion(SumSquares(values), Sum(values), |values| as real, 0.0) == SumSquares(values);
  }

  ghost predicate SomeMoved(bytes: Snapshot) {
    exists c :: c in bytes && bytes[c] != 0
  }

  lemma {:induction false} MovedInList(bytes: Snapshot)
    ensures !AllAre(SortedValues(Reals(bytes)), 0.0) <==> SomeMoved(bytes)
  {
    var m, s := Reals(bytes), SortedValues(Reals(bytes));
    SortedBag(m);
    if !AllAre(s, 0.0) {
      var i :| 0 <= i < |s| && s[i] != 0.0;
      assert s[i] in multiset(s);
      BagMember(m, s[i]);
    }
    if c :| c in bytes && bytes[c] != 0 {
      BagTake(m, c);
      assert m[c] in multiset(s);
    }
  }

  /** What a fairness floor is: one block of difference to a client of average bytes. */
  lemma {:induction false} FloorMeaning(total: real, count: real, blockSize: real)
    requires total > 0.0 && count > 0.0 && blockSize > 0.0
    ensures var q := total / count / blockSize;
            q > 0.0 && Mul(q / (q + 1.0), total + Mul(count, blockSize)) == total
  {
    PositiveQuotient(total, count);
    PositiveQuotient(total / count, blockSize);
    var q, unit := total / count / blockSize, Mul(count, blockSize);
    QuotientTimes(total, count);
    QuotientTimes(total / count, blockSize);
    assert Mul(q, unit) == total by {
      Regroup(q, count, blockSize);
    }
    FloorOf(q, unit, total);
  }

  lemma {:induction false} Regroup(q: real, count: real, blockSize: real)
    ensures Mul(q, Mul(count, blockSize)) == Mul(Mul(q, blockSize), count)
  {}

  lemma {:induction false} FloorOf(q: real, unit: real, total: real)
    requires q > 0.0 && Mul(q, unit) == total
    ensures Mul(q / (q + 1.0), total + unit) == total
  {
    var floor := q / (q + 1.0);
    assert Mul(floor, q + 1.0) == q;
    assert total + unit == Mul(q + 1.0, unit);
    assert Mul(floor, Mul(q + 1.0, unit)) == Mul(Mul(floor, q + 1.0), unit);
  }

  /** The columns of a point fit the bytes of its window. */
  ghost predicate PointFits(point: WindowPoint, bytes: Snapshot, blockSize: Option<int>) {
    var values := SortedValues(Reals(bytes));
    && point.clients == |bytes|
    && point.median == (if bytes.Keys == {} then None else Some(Percentile(values, 50.0)))
    && (point.jain.Some? <==> |bytes| >= 2 && SomeMoved(bytes))
    && point.jain == Jain(values)
    && (point.minOverMedian.Some? <==> point.jain.Some? && point.median.value > 0.0)
    && (point.minOverMedian.Some? ==>
          exists least :: IsLeast(bytes, least) && Mul(point.minOverMedian.value, point.median.value) == least)
    && (blockSize.None? || blockSize.value == 0 ==> point.floor.None?)
    && (blockSize.Some? && blockSize.value > 0 ==>
          && (point.floor.Some? <==> Sum(values) > 0.0)
          && (point.floor.Some? ==>
                Mul(point.floor.value, Sum(values) + Mul(|bytes| as real, blockSize.value as real)) == Sum(values)))
  }

  lemma {:induction false} JainPart(bytes: Snapshot)
    ensures var values := SortedValues(Reals(bytes));
            && |values| == |bytes| && (bytes.Keys == {} <==> values == [])
            && (Jain(values).Some? <==> |bytes| >= 2 && SomeMoved(bytes))
  {
    SortedBag(Reals(bytes));
    assert |Reals(bytes)| == |Reals(bytes).Keys| == |bytes|;
    SquaresOfZeros(SortedValues(Reals(bytes)));
    MovedInList(bytes);
  }

  lemma {:induction false} LeastPart(bytes: Snapshot, median: real)
    requires bytes.Keys != {} && median > 0.0
    ensures var values := SortedValues(Reals(bytes));
            values != []
            && exists least :: IsLeast(bytes, least) && Mul(values[0] / median, median) == least
  {
    FirstValueIsLeast(bytes);
    QuotientTimes(SortedValues(Reals(bytes))[0], median);
  }

  lemma {:induction false} PointFromMeaning(bytes: Snapshot, end: int, endMs: int, inSteady: bool,
                                            blockSize: Option<int>)
    ensures PointFits(PointFrom(SortedValues(Reals(bytes)), end, endMs, inSteady, blockSize), bytes, blockSize)
  {
    var values := SortedValues(Reals(bytes));
    JainPart(bytes);
    if Jain(values).Some? && Percentile(values, 50.0) > 0.0 {
      LeastPart(bytes, Percentile(values, 50.0));
    }
    if blockSize.Some? && blockSize.value > 0 && Sum(values) > 0.0 {
      FloorMeaning(Sum(values), |values| as real, blockSize.value as real);
    }
  }

  /** Every point of a series: its place and time, whether its window lies in the steady window, the
      median, the slowest client against it, Jain's index and the fairness floor. */
  lemma {:induction false} PointMeaning(h: seq<Snapshot>, p: Settings, blockSize: Option<int>, length: nat, t: int)
    requires length <= t < |h| && t < |p.runtimes|
    ensures var point := PointAt(h, p, blockSize, length, t);
            && point.end == t && point.endMs == p.runtimes[t]
            && (point.inSteady <==>
                  p.window.Some? && p.window.value.start <= t - length && t <= p.window.value.end)
            && PointFits(point, WindowEnding(h, length, t), blockSize)
  {
    PointFromMeaning(WindowEnding(h, length, t), t, p.runtimes[t], InSteady(p, length, t), blockSize);
  }
}
