/** Laws of the second pass: snapshots after the steady window cannot change its results, a
    reset inside it disqualifies a client, and at most half of the windows are short. */
module SteadyTheorems {
  import opened LiveRows
  import opened Dictionaries
  import opened Ordering
  import opened Sums
  import opened Fairness
  import opened SnapshotRing
  import opened SteadyStats

  // ----- the tail does not interfere -----

  /** Two runs with the same settings that agree up to the end of the steady window. */
  ghost predicate AgreeToEnd(h1: seq<Snapshot>, p1: Settings, h2: seq<Snapshot>, p2: Settings) {
    && p1.window.Some? && p1 == p2.(runtimes := p1.runtimes)
    && |p1.runtimes| == |h1| && |p2.runtimes| == |h2|
    && var b := p1.window.value;
       && b.start <= b.end && b.end < |h1| && b.end < |h2|
       && h1[..b.end + 1] == h2[..b.end + 1]
       && p1.runtimes[..b.end + 1] == p2.runtimes[..b.end + 1]
  }

  /** Windows that end after the steady window count for nobody. */
  lemma {:induction false} CountsFreeze(h: seq<Snapshot>, p: Settings, size: Size, n: nat, c: ClientId)
    requires n <= |h| && n <= |p.runtimes| && p.window.Some? && p.window.value.end + 1 <= n
    ensures StatsBefore(h, p, size, n, c) == StatsBefore(h, p, size, p.window.value.end + 1, c)
  {
    if n > p.window.value.end + 1 {
      CountsFreeze(h, p, size, n - 1, c);
      assert SteadyBytesAt(h, p, size, n - 1) == map[];
    }
  }

  lemma {:induction false} BytesAgree(h1: seq<Snapshot>, p1: Settings, h2: seq<Snapshot>, p2: Settings, size: Size,
                                      t: nat)
    requires AgreeToEnd(h1, p1, h2, p2) && t <= p1.window.value.end
    ensures SteadyBytesAt(h1, p1, size, t) == SteadyBytesAt(h2, p2, size, t)
  {
    var n := p1.window.value.end + 1;
    var length := Length(p1, size);
    if length <= t && InSteady(p1, length, t) {
      WindowPrefix(h1, n, t - length, t);
      WindowPrefix(h2, n, t - length, t);
    }
  }

  lemma {:induction false} CountsAgree(h1: seq<Snapshot>, p1: Settings, h2: seq<Snapshot>, p2: Settings, size: Size,
                                       n: nat, c: ClientId)
    requires n <= |h1| && n <= |p1.runtimes| && n <= |h2| && n <= |p2.runtimes|
    requires p1.shortBelow == p2.shortBelow && SlowThreshold(p1, size) == SlowThreshold(p2, size)
    requires forall t :: 0 <= t < n ==>
      SteadyBytesAt(h1, p1, size, t) == SteadyBytesAt(h2, p2, size, t) && p1.runtimes[t] == p2.runtimes[t]
    ensures StatsBefore(h1, p1, size, n, c) == StatsBefore(h2, p2, size, n, c)
  {
    if n > 0 {
      CountsAgree(h1, p1, h2, p2, size, n - 1, c);
    }
  }

  lemma {:induction false} RuntimesAgree(a: seq<int>, b: seq<int>, n: nat, t: nat)
    requires t < n <= |a| && n <= |b| && a[..n] == b[..n]
    ensures a[t] == b[t]
  {
    assert a[t] == a[..n][t] == b[..n][t];
  }

  lemma {:induction false} FinalCountsAgree(h1: seq<Snapshot>, p1: Settings, h2: seq<Snapshot>, p2: Settings,
                                            size: Size, c: ClientId)
    requires AgreeToEnd(h1, p1, h2, p2)
    ensures StatsBefore(h1, p1, size, |h1|, c) == StatsBefore(h2, p2, size, |h2|, c)
  {
    CountsFreeze(h1, p1, size, |h1|, c);
    CountsFreeze(h2, p2, size, |h2|, c);
    CountsAgreeToEnd(h1, p1, h2, p2, size, c);
  }

  lemma {:induction false} CountsAgreeToEnd(h1: seq<Snapshot>, p1: Settings, h2: seq<Snapshot>, p2: Settings,
                                            size: Size, c: ClientId)
    requires AgreeToEnd(h1, p1, h2, p2)
    ensures var n := p1.window.value.end + 1; StatsBefore(h1, p1, size, n, c) == StatsBefore(h2, p2, size, n, c)
  {
    var n := p1.window.value.end + 1;
    forall t | 0 <= t < n
      ensures SteadyBytesAt(h1, p1, size, t) == SteadyBytesAt(h2, p2, size, t) && p1.runtimes[t] == p2.runtimes[t]
    {
      BytesAgree(h1, p1, h2, p2, size, t);
      RuntimesAgree(p1.runtimes, p2.runtimes, n, t);
    }
    CountsAgree(h1, p1, h2, p2, size, n, c);
  }

  lemma {:induction false} SeenAgree(h1: seq<Snapshot>, r1: seq<int>, h2: seq<Snapshot>, r2: seq<int>, m: nat, n: nat)
    requires n <= m <= |h1| && m <= |r1| && m <= |h2| && m <= |r2|
    requires h1[..m] == h2[..m] && r1[..m] == r2[..m]
    ensures LastSeen(h1, r1, n) == LastSeen(h2, r2, n)
  {
    if n > 0 {
      SeenAgree(h1, r1, h2, r2, m, n - 1);
      RuntimesAgree(r1, r2, m, n - 1);
      assert h1[n - 1] == h1[..m][n - 1] == h2[..m][n - 1];
    }
  }

  lemma {:induction false} DeltasAgree(h1: seq<Snapshot>, p1: Settings, h2: seq<Snapshot>, p2: Settings)
    requires AgreeToEnd(h1, p1, h2, p2)
    ensures SteadyDeltas(h1, p1) == SteadyDeltas(h2, p2)
  {
    var b := p1.window.value;
    SeenAgree(h1, p1.runtimes, h2, p2.runtimes, b.end + 1, b.start + 1);
    SeenAgree(h1, p1.runtimes, h2, p2.runtimes, b.end + 1, b.end + 1);
    SameDeltas(LastSeen(h1, p1.runtimes, b.start + 1), LastSeen(h2, p2.runtimes, b.start + 1),
               LastSeen(h1, p1.runtimes, b.end + 1), LastSeen(h2, p2.runtimes, b.end + 1),
               ResetSince(h1[..b.end + 1], b.start), ResetSince(h2[..b.end + 1], b.start), b);
    DeltasUnfold(h1, p1, b);
    DeltasUnfold(h2, p2, b);
  }

  lemma {:induction false} DeltasUnfold(h: seq<Snapshot>, p: Settings, b: Bounds)
    requires p.window == Some(b) && b.start <= b.end < |h| && |p.runtimes| == |h|
    ensures SteadyDeltas(h, p) == DeltasOf(LastSeen(h, p.runtimes, b.start + 1), LastSeen(h, p.runtimes, b.end + 1),
                                           ResetSince(h[..b.end + 1], b.start), b)
  {}

  lemma {:induction false} SameDeltas(first1: Seen, first2: Seen, last1: Seen, last2: Seen, resets1: set<ClientId>,
                                      resets2: set<ClientId>, b: Bounds)
    requires first1 == first2 && last1 == last2 && resets1 == resets2
    ensures DeltasOf(first1, last1, resets1, b) == DeltasOf(first2, last2, resets2, b)
  {}

  /** Every client that has steady windows is among the clients reported on. */
  ghost predicate Covers(h: seq<Snapshot>, p: Settings, clients: set<ClientId>)
    requires |p.runtimes| == |h|
  {
    forall c :: StatsBefore(h, p, FiveSeconds, |h|, c).windows > 0 ==> c in clients
  }

  lemma {:induction false} SharesAgree(h1: seq<Snapshot>, p1: Settings, clients1: set<ClientId>, h2: seq<Snapshot>,
                                       p2: Settings, clients2: set<ClientId>)
    requires AgreeToEnd(h1, p1, h2, p2) && Covers(h1, p1, clients1) && Covers(h2, p2, clients2)
    ensures SlowShares(FiveMap(h1, p1, clients1)) == SlowShares(FiveMap(h2, p2, clients2))
  {
    var a, b := SlowShares(FiveMap(h1, p1, clients1)), SlowShares(FiveMap(h2, p2, clients2));
    forall c
      ensures Get(a, c) == Get(b, c)
    {
      FinalCountsAgree(h1, p1, h2, p2, FiveSeconds, c);
    }
    SameDictionary(a, b);
  }

  /** Two snapshot histories that agree up to the end of the steady window give every client the
      same bytes, ratios, counts and class, whatever snapshots follow.  For files this needs tails
      that leave the earlier snapshots alone: `SteadyAnalysis.FileTailCannotInterfere`. */
  lemma {:induction false} TailCannotInterfere(h1: seq<Snapshot>, p1: Settings, clients1: set<ClientId>,
                                               h2: seq<Snapshot>, p2: Settings, clients2: set<ClientId>, c: ClientId)
    requires AgreeToEnd(h1, p1, h2, p2) && Covers(h1, p1, clients1) && Covers(h2, p2, clients2)
    ensures FinalOf(h1, p1, clients1, c) == FinalOf(h2, p2, clients2, c)
  {
    FinalCountsAgree(h1, p1, h2, p2, FiveSeconds, c);
    FinalCountsAgree(h1, p1, h2, p2, ThirtySeconds, c);
    DeltasAgree(h1, p1, h2, p2);
    SharesAgree(h1, p1, clients1, h2, p2, clients2);
  }

  // ----- resets inside the window -----

  /** The client's counter goes back at interval `i`. */
  ghost predicate DropsAt(h: seq<Snapshot>, c: ClientId, i: int) {
    0 <= i < |h| && c in Dropped(LastDone(h[..i]), h[i])
  }

  lemma {:induction false} DropsAtPrefix(h: seq<Snapshot>, c: ClientId, n: int, i: int)
    requires 0 <= i < n <= |h|
    ensures DropsAt(h[..n], c, i) <==> DropsAt(h, c, i)
  {
    assert h[..n][..i] == h[..i] && h[..n][i] == h[i];
  }

  /** A reset after `start` is remembered. */
  lemma {:induction false} DropIsRemembered(h: seq<Snapshot>, start: nat, c: ClientId, i: int)
    requires start < i && DropsAt(h, c, i)
    ensures c in ResetSince(h, start)
  {
    var n := |h| - 1;
    ResetStep(h, c);
    if i < n {
      DropsAtPrefix(h, c, n, i);
      DropIsRemembered(h[..n], start, c, i);
    }
  }

  /** A remembered reset did happen after `start`. */
  lemma {:induction false} RememberedDrop(h: seq<Snapshot>, start: nat, c: ClientId) returns (i: int)
    requires c in ResetSince(h, start)
    ensures start < i && DropsAt(h, c, i)
  {
    var n := |h| - 1;
    ResetStep(h, c);
    if DropsAt(h, c, n) {
      i := n;
    } else {
      i := RememberedDrop(h[..n], start, c);
      DropsAtPrefix(h, c, n, i);
    }
  }

  /** A client whose counter goes back inside the steady window contributes no steady bytes. */
  lemma {:induction false} ResetInsideNeverContributes(h: seq<Snapshot>, p: Settings, c: ClientId, i: nat)
    requires p.window.Some? && p.window.value.start <= p.window.value.end < |h| && |p.runtimes| == |h|
    requires p.window.value.start < i <= p.window.value.end && DropsAt(h, c, i)
    ensures c !in SteadyDeltas(h, p)
  {
    var b := p.window.value;
    DropsAtPrefix(h, c, b.end + 1, i);
    DropIsRemembered(h[..b.end + 1], b.start, c, i);
  }

  // ----- at most half are short -----

  ghost function WindowCounts(h: seq<Snapshot>, p: Settings, size: Size, n: nat, clients: set<ClientId>)
    : (r: map<ClientId, int>)
    requires n <= |h| && n <= |p.runtimes|
    ensures r.Keys == clients
  {
    map c | c in clients :: StatsBefore(h, p, size, n, c).windows
  }

  ghost function ShortCounts(h: seq<Snapshot>, p: Settings, size: Size, n: nat, clients: set<ClientId>)
    : (r: map<ClientId, int>)
    requires n <= |h| && n <= |p.runtimes|
    ensures r.Keys == clients
  {
    map c | c in clients :: StatsBefore(h, p, size, n, c).short
  }

  /** Clients counted, and clients counted as short, in one window. */
  ghost function Counted(bytes: Snapshot): set<ClientId> {
    set c | c in bytes && RatioIn(bytes, c).Some?
  }

  ghost function CountedShort(bytes: Snapshot, shortBelow: real): set<ClientId> {
    set c | c in bytes && RatioIn(bytes, c).Some? && RatioIn(bytes, c).value < shortBelow
  }

  lemma {:induction false} MedianNonNegative(bytes: Snapshot)
    requires bytes.Keys != {} && forall c :: c in bytes ==> bytes[c] >= 0
    ensures MedianOf(bytes) >= 0.0
  {
    var m := Reals(bytes);
    SortedBag(m);
    var s := SortedValues(m);
    assert |s| == |m| > 0;
    PercentileInRange(s, 50.0);
    assert s[0] in multiset(s);
    BagMember(m, s[0]);
  }

  lemma {:induction false} BelowMedianIfShort(value: real, median: real, shortBelow: real)
    requires median > 0.0 && shortBelow <= 1.0 && value / median < shortBelow
    ensures value < median
  {
    var q := value / median;
    assert q * median == value;
    assert Mul(1.0 - q, median) == median - value;
    MulPositive(1.0 - q, median);
  }

  /** In one window the clients counted as short are at most half of those counted. */
  lemma {:induction false} ShortInWindow(bytes: Snapshot, shortBelow: real)
    requires shortBelow <= 1.0 && forall c :: c in bytes ==> bytes[c] >= 0
    ensures 2 * |CountedShort(bytes, shortBelow)| <= |Counted(bytes)|
  {
    var short := CountedShort(bytes, shortBelow);
    if bytes.Keys == {} || MedianOf(bytes) == 0.0 {
      assert short == {};
    } else {
      MedianNonNegative(bytes);
      var m := Reals(bytes);
      var median := MedianOf(bytes);
      assert Counted(bytes) == m.Keys;
      forall c | c in short
        ensures c in Below(m, median)
      {
        BelowMedianIfShort(bytes[c] as real, median, shortBelow);
      }
      SubsetSize(short, Below(m, median));
      MinorityBelowMedian(m);
    }
  }

  lemma {:induction false} SubsetSize<T>(a: set<T>, b: set<T>)
    requires a <= b
    ensures |a| <= |b|
  {
    assert b == a + (b - a);
  }

  lemma {:induction false} SteadyBytesNonNegative(h: seq<Snapshot>, p: Settings, size: Size, t: int)
    requires 0 <= t < |h|
    ensures forall c :: c in SteadyBytesAt(h, p, size, t) ==> SteadyBytesAt(h, p, size, t)[c] >= 0 && c in h[t]
  {
    var length := Length(p, size);
    forall c | c in SteadyBytesAt(h, p, size, t)
      ensures SteadyBytesAt(h, p, size, t)[c] >= 0 && c in h[t]
    {
      WindowNonNegative(h, t - length, t, c);
    }
  }

  /** At most half are short: over every run with a non-negative shortfall, the short windows
      of all clients together are at most half of their counted windows, for either size. */
  lemma {:induction false} AtMostHalfShort(h: seq<Snapshot>, p: Settings, size: Size, n: nat, clients: set<ClientId>)
    requires n <= |h| && n <= |p.runtimes| && p.shortBelow <= 1.0
    requires forall t :: 0 <= t < |h| ==> h[t].Keys <= clients
    ensures 2 * Tally(ShortCounts(h, p, size, n, clients)) <= Tally(WindowCounts(h, p, size, n, clients))
  {
    if n == 0 {
      ZeroTally(WindowCounts(h, p, size, n, clients));
      ZeroTally(ShortCounts(h, p, size, n, clients));
    } else {
      AtMostHalfShort(h, p, size, n - 1, clients);
      var counted, short := WindowAdds(h, p, size, n, clients);
    }
  }

  /** What the window ending at `n - 1` adds to the counts of all clients. */
  lemma {:induction false} WindowAdds(h: seq<Snapshot>, p: Settings, size: Size, n: nat, clients: set<ClientId>)
    returns (counted: nat, short: nat)
    requires 0 < n <= |h| && n <= |p.runtimes| && p.shortBelow <= 1.0 && h[n - 1].Keys <= clients
    ensures Tally(WindowCounts(h, p, size, n, clients)) == Tally(WindowCounts(h, p, size, n - 1, clients)) + counted
    ensures Tally(ShortCounts(h, p, size, n, clients)) == Tally(ShortCounts(h, p, size, n - 1, clients)) + short
    ensures 2 * short <= counted
  {
    var bytes := SteadyBytesAt(h, p, size, n - 1);
    SteadyBytesNonNegative(h, p, size, n - 1);
    ShortInWindow(bytes, p.shortBelow);
    WindowCountsStep(h, p, size, n, clients);
    ShortCountsStep(h, p, size, n, clients);
    counted, short := |Counted(bytes)|, |CountedShort(bytes, p.shortBelow)|;
  }

  lemma {:induction false} WindowCountsStep(h: seq<Snapshot>, p: Settings, size: Size, n: nat, clients: set<ClientId>)
    requires 0 < n <= |h| && n <= |p.runtimes| && SteadyBytesAt(h, p, size, n - 1).Keys <= clients
    ensures Tally(WindowCounts(h, p, size, n, clients))
            == Tally(WindowCounts(h, p, size, n - 1, clients)) + |Counted(SteadyBytesAt(h, p, size, n - 1))|
  {
    TallyCount(WindowCounts(h, p, size, n - 1, clients), WindowCounts(h, p, size, n, clients),
               Counted(SteadyBytesAt(h, p, size, n - 1)));
  }

  lemma {:induction false} ShortCountsStep(h: seq<Snapshot>, p: Settings, size: Size, n: nat, clients: set<ClientId>)
    requires 0 < n <= |h| && n <= |p.runtimes| && SteadyBytesAt(h, p, size, n - 1).Keys <= clients
    ensures Tally(ShortCounts(h, p, size, n, clients))
            == Tally(ShortCounts(h, p, size, n - 1, clients))
               + |CountedShort(SteadyBytesAt(h, p, size, n - 1), p.shortBelow)|
  {
    TallyCount(ShortCounts(h, p, size, n - 1, clients), ShortCounts(h, p, size, n, clients),
               CountedShort(SteadyBytesAt(h, p, size, n - 1), p.shortBelow));
  }

  lemma {:induction false} ZeroTally(m: map<ClientId, int>)
    requires forall c :: c in m ==> m[c] == 0
    ensures Tally(m) == 0
    decreases m.Keys
  {
    if m.Keys == {} {
      assert m == map[];
    } else {
      var k :| k in m;
      TallyTake(m, k);
      ZeroTally(m - {k});
    }
  }

  /** A shortfall of 0 percent or more sets a short threshold of at most 1, so the law holds of
      every whole run with one. */
  lemma {:induction false} ShortfallLeavesHalf(h: seq<Snapshot>, p: Settings, percent: real, size: Size,
                                               clients: set<ClientId>)
    requires |h| == |p.runtimes| && percent >= 0.0
    requires forall t :: 0 <= t < |h| ==> h[t].Keys <= clients
    ensures var q := WithShortfall(p, percent);
            2 * Tally(ShortCounts(h, q, size, |h|, clients)) <= Tally(WindowCounts(h, q, size, |h|, clients))
  {
    AtMostHalfShort(h, WithShortfall(p, percent), size, |h|, clients);
  }

  // ----- short over the whole steady window -----

  lemma {:induction false} ScaledNonNegative(first: Sighting, last: Sighting, b: Bounds)
    requires last.runtimeMs > first.runtimeMs && last.doneBytes >= first.doneBytes && b.endMs >= b.startMs
    ensures Scaled(first, last, b) >= 0
  {
    var moved, span := (last.doneBytes - first.doneBytes) as real, (b.endMs - b.startMs) as real;
    var elapsed := (last.runtimeMs - first.runtimeMs) as real;
    Product(moved, span);
    QuotientNonNegative(moved * span, elapsed);
  }

  lemma {:induction false} QuotientNonNegative(a: real, b: real)
    requires a >= 0.0 && b > 0.0
    ensures a / b >= 0.0
  {}

  lemma {:induction false} SteadyDeltasNonNegative(h: seq<Snapshot>, p: Settings)
    requires p.window.Some? && p.window.value.start <= p.window.value.end < |h| && |p.runtimes| == |h|
    requires p.window.value.endMs >= p.window.value.startMs
    ensures forall c :: c in SteadyDeltas(h, p) ==> SteadyDeltas(h, p)[c] >= 0
  {
    var b := p.window.value;
    var first, last := LastSeen(h, p.runtimes, b.start + 1), LastSeen(h, p.runtimes, b.end + 1);
    forall c | c in SteadyDeltas(h, p)
      ensures SteadyDeltas(h, p)[c] >= 0
    {
      ScaledNonNegative(first[c], last[c], b);
    }
  }

  /** The clients whose bytes over the steady window fall short of the median's share. */
  ghost function FallShort(h: seq<Snapshot>, p: Settings, clients: set<ClientId>): set<ClientId>
    requires p.window.Some? && p.window.value.start <= p.window.value.end < |h| && |p.runtimes| == |h|
  {
    set c | c in SteadyDeltas(h, p) && FinalOf(h, p, clients, c).steadyRatio.Some?
            && FinalOf(h, p, clients, c).steadyRatio.value < p.shortBelow
  }

  /** Whoever falls short over the steady window is persistent, and at most half of the clients
      with steady bytes do. */
  lemma {:induction false} AtMostHalfFallShort(h: seq<Snapshot>, p: Settings, clients: set<ClientId>)
    requires p.window.Some? && p.window.value.start <= p.window.value.end < |h| && |p.runtimes| == |h|
    requires p.window.value.endMs >= p.window.value.startMs && p.shortBelow <= 1.0
    ensures 2 * |FallShort(h, p, clients)| <= |SteadyDeltas(h, p)|
    ensures forall c :: c in FallShort(h, p, clients) ==> FinalOf(h, p, clients, c).classification == Some(Persistent)
  {
    var bytes := SteadyDeltas(h, p);
    SteadyDeltasNonNegative(h, p);
    ShortInWindow(bytes, p.shortBelow);
    assert FallShort(h, p, clients) <= CountedShort(bytes, p.shortBelow);
    SubsetSize(FallShort(h, p, clients), CountedShort(bytes, p.shortBelow));
    SubsetSize(Counted(bytes), bytes.Keys);
  }

  // ----- the worst window -----

  /** The client's ratio in each window of this size ending before `n`, where it has one. */
  ghost function RatiosBefore(h: seq<Snapshot>, p: Settings, size: Size, n: nat, c: ClientId)
    : (r: seq<Option<real>>)
    requires n <= |h|
    ensures |r| == n
  {
    if n == 0 then [] else RatiosBefore(h, p, size, n - 1, c) + [RatioIn(SteadyBytesAt(h, p, size, n - 1), c)]
  }

  /** `worst` is the least of the ratios and `t` the first place that has it. */
  ghost predicate FirstWorst(ratios: seq<Option<real>>, worst: real, t: nat) {
    && t < |ratios| && ratios[t] == Some(worst)
    && (forall u :: 0 <= u < |ratios| && ratios[u].Some? ==> worst <= ratios[u].value)
    && (forall u :: 0 <= u < t && ratios[u].Some? ==> worst < ratios[u].value)
  }

  ghost predicate AnyRatio(ratios: seq<Option<real>>) {
    exists u :: 0 <= u < |ratios| && ratios[u].Some?
  }

  lemma {:induction false} WorstStays(ratios: seq<Option<real>>, worst: real, t: nat, more: Option<real>)
    requires FirstWorst(ratios, worst, t) && (more.Some? ==> worst <= more.value)
    ensures FirstWorst(ratios + [more], worst, t)
  {}

  lemma {:induction false} WorstNow(ratios: seq<Option<real>>, worst: real)
    requires forall u :: 0 <= u < |ratios| && ratios[u].Some? ==> worst < ratios[u].value
    ensures FirstWorst(ratios + [Some(worst)], worst, |ratios|)
  {}

  lemma {:induction false} AnyRatioAppend(ratios: seq<Option<real>>, more: Option<real>)
    ensures AnyRatio(ratios + [more]) <==> AnyRatio(ratios) || more.Some?
  {
    if AnyRatio(ratios) {
      var u :| 0 <= u < |ratios| && ratios[u].Some?;
      assert (ratios + [more])[u] == ratios[u];
    }
    assert (ratios + [more])[|ratios|] == more;
  }

  /** The counts name the least of the ratios and the end of the first window that had it. */
  ghost predicate TellsWorst(s: RatioStats, ratios: seq<Option<real>>, runtimes: seq<int>, t: nat) {
    && |ratios| <= |runtimes| && (s.windows > 0 <==> AnyRatio(ratios))
    && (s.worst.Some? <==> s.windows > 0) && (s.worstMs.Some? <==> s.windows > 0)
    && (s.windows > 0 ==> FirstWorst(ratios, s.worst.value, t) && s.worstMs == Some(runtimes[t]))
  }

  lemma {:induction false} NoteTellsWorst(s: RatioStats, ratios: seq<Option<real>>, runtimes: seq<int>, t: nat,
                                          ratio: real, shortBelow: real, slowBelow: Option<real>)
    returns (u: nat)
    requires TellsWorst(s, ratios, runtimes, t) && |ratios| < |runtimes|
    ensures TellsWorst(s.Note(ratio, runtimes[|ratios|], shortBelow, slowBelow), ratios + [Some(ratio)], runtimes, u)
  {
    AnyRatioAppend(ratios, Some(ratio));
    if s.windows > 0 && s.worst.value <= ratio {
      WorstStays(ratios, s.worst.value, t, Some(ratio));
      u := t;
    } else {
      WorstNow(ratios, ratio);
      u := |ratios|;
    }
  }

  lemma {:induction false} SkipTellsWorst(s: RatioStats, ratios: seq<Option<real>>, runtimes: seq<int>, t: nat)
    requires TellsWorst(s, ratios, runtimes, t) && |ratios| < |runtimes|
    ensures TellsWorst(s, ratios + [None], runtimes, t)
  {
    AnyRatioAppend(ratios, None);
    if s.windows > 0 {
      WorstStays(ratios, s.worst.value, t, None);
    }
  }

  /** A client has a worst ratio exactly when it has a counted window, and then it is the least
      of its ratios, with the end of the first window that had it. */
  lemma {:induction false} WorstMeaning(h: seq<Snapshot>, p: Settings, size: Size, n: nat, c: ClientId)
    returns (t: nat)
    requires n <= |h| && n <= |p.runtimes|
    ensures TellsWorst(StatsBefore(h, p, size, n, c), RatiosBefore(h, p, size, n, c), p.runtimes, t)
  {
    t := 0;
    if n > 0 {
      t := WorstMeaning(h, p, size, n - 1, c);
      var s, ratios := StatsBefore(h, p, size, n - 1, c), RatiosBefore(h, p, size, n - 1, c);
      var more := RatioIn(SteadyBytesAt(h, p, size, n - 1), c);
      if more.None? {
        SkipTellsWorst(s, ratios, p.runtimes, t);
      } else {
        t := NoteTellsWorst(s, ratios, p.runtimes, t, more.value, p.shortBelow, SlowThreshold(p, size));
      }
    }
  }
}
