/** What the second pass's numbers and classes mean, in windows, bytes and milliseconds. */
module SteadyMeaning {
  import opened LiveRows
  import opened Ordering
  import opened Sums
  import opened Fairness
  import opened SnapshotRing
  import opened SteadyStats
  import opened SteadyTheorems

  // ----- thresholds and ratios -----

  /** A shortfall of `percent` calls a window short when it misses more than `percent` percent of
      the median, and slow when it misses more than twice that. */
  lemma {:induction false} ShortfallMeaning(p: Settings, percent: real, bytes: real, median: real)
    requires median > 0.0
    ensures var q := WithShortfall(p, percent);
            && (bytes / median < q.shortBelow <==> 100.0 * (median - bytes) > percent * median)
            && (bytes / median < q.slowBelow <==> 100.0 * (median - bytes) > 2.0 * percent * median)
  {
    Missing(bytes, median, percent);
    Missing(bytes, median, 2.0 * percent);
  }

  lemma {:induction false} Missing(bytes: real, median: real, percent: real)
    requires median > 0.0
    ensures bytes / median < 1.0 - percent / 100.0 <==> 100.0 * (median - bytes) > percent * median
  {
    var ratio := bytes / median;
    assert ratio * median == bytes;
    var gap := 100.0 - percent - 100.0 * ratio;
    assert Mul(gap, median) == 100.0 * (median - bytes) - percent * median;
    SignOf(gap, median);
  }

  lemma {:induction false} SignOf(a: real, b: real)
    requires b > 0.0
    ensures Mul(a, b) > 0.0 <==> a > 0.0
  {
    if a > 0.0 {
      MulPositive(a, b);
    } else if a < 0.0 {
      MulPositive(-a, b);
      assert Mul(-a, b) == -Mul(a, b);
    }
  }

  lemma {:induction false} QuotientTimes(a: real, b: real)
    requires b != 0.0
    ensures Mul(a / b, b) == a
  {}

  /** A ratio is the client's bytes over the median of the window's clients. */
  lemma {:induction false} RatioMeaning(bytes: Snapshot, c: ClientId)
    ensures RatioIn(bytes, c).Some? <==> c in bytes && Percentile(SortedValues(Reals(bytes)), 50.0) != 0.0
    ensures RatioIn(bytes, c).Some? ==>
      Mul(RatioIn(bytes, c).value, Percentile(SortedValues(Reals(bytes)), 50.0)) == bytes[c] as real
  {
    var median := MedianOf(bytes);
    if c in bytes && median != 0.0 {
      QuotientTimes(bytes[c] as real, median);
    }
  }

  // ----- which windows count -----

  /** A window of the size ending at `t` that lies in the steady window and gives a ratio. */
  ghost predicate Judged(h: seq<Snapshot>, p: Settings, size: Size, t: int, c: ClientId)
    requires 0 <= t < |h|
  {
    var length := if size.FiveSeconds? then p.length5s else p.length30s;
    && p.window.Some? && length <= t && p.window.value.start <= t - length && t <= p.window.value.end
    && RatioIn(WindowEnding(h, length, t), c).Some?
  }

  ghost function JudgedRatio(h: seq<Snapshot>, p: Settings, size: Size, t: int, c: ClientId): real
    requires 0 <= t < |h| && Judged(h, p, size, t, c)
  {
    RatioIn(WindowEnding(h, if size.FiveSeconds? then p.length5s else p.length30s, t), c).value
  }

  lemma {:induction false} JudgedWindow(h: seq<Snapshot>, p: Settings, size: Size, t: int, c: ClientId)
    requires 0 <= t < |h|
    ensures RatioIn(SteadyBytesAt(h, p, size, t), c)
            == if Judged(h, p, size, t, c) then Some(JudgedRatio(h, p, size, t, c)) else None
  {}

  /** The ratios that the counts are of: one place per interval, filled when its window is
      judged. */
  lemma {:induction false} RatioAt(h: seq<Snapshot>, p: Settings, size: Size, n: nat, c: ClientId, t: nat)
    requires t < n <= |h|
    ensures RatiosBefore(h, p, size, n, c)[t]
            == if Judged(h, p, size, t, c) then Some(JudgedRatio(h, p, size, t, c)) else None
  {
    if t < n - 1 {
      RatioAt(h, p, size, n - 1, c, t);
    } else {
      JudgedWindow(h, p, size, t, c);
    }
  }

  /** The places that hold a ratio, and those that hold one below `x`. */
  ghost function Places(ratios: seq<Option<real>>): set<int> {
    set t | 0 <= t < |ratios| && ratios[t].Some?
  }

  ghost function PlacesBelow(ratios: seq<Option<real>>, x: real): set<int> {
    set t | 0 <= t < |ratios| && ratios[t].Some? && ratios[t].value < x
  }

  lemma {:induction false} OnePlaceMore(ratios: seq<Option<real>>, more: Option<real>)
    ensures |Places(ratios + [more])| == |Places(ratios)| + if more.Some? then 1 else 0
  {
    assert Places(ratios + [more]) == Places(ratios) + if more.Some? then {|ratios|} else {};
  }

  lemma {:induction false} OnePlaceMoreBelow(ratios: seq<Option<real>>, more: Option<real>, x: real)
    ensures |PlacesBelow(ratios + [more], x)|
            == |PlacesBelow(ratios, x)| + if more.Some? && more.value < x then 1 else 0
  {
    assert PlacesBelow(ratios + [more], x)
        == PlacesBelow(ratios, x) + if more.Some? && more.value < x then {|ratios|} else {};
  }

  ghost predicate TellsCounts(s: RatioStats, ratios: seq<Option<real>>, shortBelow: real, slowBelow: Option<real>) {
    && s.windows == |Places(ratios)|
    && s.short == |PlacesBelow(ratios, shortBelow)|
    && s.slow == if slowBelow.Some? then |PlacesBelow(ratios, slowBelow.value)| else 0
  }

  lemma {:induction false} NoteTellsCounts(s: RatioStats, ratios: seq<Option<real>>, ratio: real, endMs: int,
                                           shortBelow: real, slowBelow: Option<real>)
    requires TellsCounts(s, ratios, shortBelow, slowBelow)
    ensures TellsCounts(s.Note(ratio, endMs, shortBelow, slowBelow), ratios + [Some(ratio)], shortBelow, slowBelow)
  {
    OnePlaceMore(ratios, Some(ratio));
    OnePlaceMoreBelow(ratios, Some(ratio), shortBelow);
    if slowBelow.Some? {
      OnePlaceMoreBelow(ratios, Some(ratio), slowBelow.value);
    }
  }

  lemma {:induction false} SkipTellsCounts(s: RatioStats, ratios: seq<Option<real>>, shortBelow: real,
                                           slowBelow: Option<real>)
    requires TellsCounts(s, ratios, shortBelow, slowBelow)
    ensures TellsCounts(s, ratios + [None], shortBelow, slowBelow)
  {
    OnePlaceMore(ratios, None);
    OnePlaceMoreBelow(ratios, None, shortBelow);
    if slowBelow.Some? {
      OnePlaceMoreBelow(ratios, None, slowBelow.value);
    }
  }

  lemma {:induction false} CountsTold(h: seq<Snapshot>, p: Settings, size: Size, n: nat, c: ClientId)
    requires n <= |h| && n <= |p.runtimes|
    ensures TellsCounts(StatsBefore(h, p, size, n, c), RatiosBefore(h, p, size, n, c), p.shortBelow,
                        SlowThreshold(p, size))
  {
    if n > 0 {
      CountsTold(h, p, size, n - 1, c);
      var s, ratios := StatsBefore(h, p, size, n - 1, c), RatiosBefore(h, p, size, n - 1, c);
      var more := RatioIn(SteadyBytesAt(h, p, size, n - 1), c);
      if more.None? {
        SkipTellsCounts(s, ratios, p.shortBelow, SlowThreshold(p, size));
      } else {
        NoteTellsCounts(s, ratios, more.value, p.runtimes[n - 1], p.shortBelow, SlowThreshold(p, size));
      }
    }
  }

  /** The counts are numbers of windows: those judged, those below the short threshold and, for
      5 s windows, those below the slow threshold. */
  lemma {:induction false} CountsMeaning(h: seq<Snapshot>, p: Settings, size: Size, n: nat, c: ClientId)
    requires n <= |h| && n <= |p.runtimes|
    ensures var s, ratios := StatsBefore(h, p, size, n, c), RatiosBefore(h, p, size, n, c);
            && s.windows == |Places(ratios)|
            && s.short == |PlacesBelow(ratios, p.shortBelow)|
            && s.slow == if size.FiveSeconds? then |PlacesBelow(ratios, p.slowBelow)| else 0
  {
    CountsTold(h, p, size, n, c);
  }

  /** Windows that begin before the steady window count for nobody. */
  lemma {:induction false} CountsBegin(h: seq<Snapshot>, p: Settings, size: Size, n: nat, c: ClientId)
    requires n <= |h| && n <= |p.runtimes| && p.window.Some?
    requires n <= p.window.value.start + if size.FiveSeconds? then p.length5s else p.length30s
    ensures StatsBefore(h, p, size, n, c) == NoWindows
  {
    if n > 0 {
      CountsBegin(h, p, size, n - 1, c);
      JudgedWindow(h, p, size, n - 1, c);
    }
  }

  // ----- classes -----

  /** The slow share of every reported client that has 5 s windows. */
  ghost function Shares(h: seq<Snapshot>, p: Settings, clients: set<ClientId>): map<ClientId, real>
    requires |p.runtimes| == |h|
  {
    map c | c in clients && StatsBefore(h, p, FiveSeconds, |h|, c).windows > 0
      :: StatsBefore(h, p, FiveSeconds, |h|, c).slow as real / StatsBefore(h, p, FiveSeconds, |h|, c).windows as real
  }

  ghost function MedianShare(h: seq<Snapshot>, p: Settings, clients: set<ClientId>): real
    requires |p.runtimes| == |h|
  {
    Percentile(SortedValues(Shares(h, p, clients)), 50.0)
  }

  /** There is nothing to judge the client by. */
  ghost predicate Unjudged(s: ClientSteady) {
    s.steadyRatio.None? && s.five.windows == 0
  }

  /** Short over the steady window, or in half of its 30 s windows. */
  ghost predicate FallsBehind(s: ClientSteady, shortBelow: real) {
    || (s.steadyRatio.Some? && s.steadyRatio.value < shortBelow)
    || (s.thirty.windows > 0 && 2 * s.thirty.short >= s.thirty.windows)
  }

  /** At least the minimum of slow windows, and at least twice the median client's share. */
  ghost predicate DipsOften(s: ClientSteady, minSlowWindows: nat, medianShare: real) {
    && s.five.slow >= minSlowWindows
    && s.five.slow as real >= 2.0 * medianShare * s.five.windows as real
  }

  lemma {:induction false} SharesAre(h: seq<Snapshot>, p: Settings, clients: set<ClientId>)
    requires |p.runtimes| == |h|
    ensures FleetShare(FiveMap(h, p, clients)) == MedianShare(h, p, clients)
  {
    assert SlowShares(FiveMap(h, p, clients)) == Shares(h, p, clients);
  }

  lemma {:induction false} ClassOf(s: ClientSteady, p: Settings, share: real)
    ensures var c := Classify(s, p, share);
            && (c == None <==> Unjudged(s))
            && (c == Some(Persistent) <==> !Unjudged(s) && FallsBehind(s, p.shortBelow))
            && (c == Some(Transient) <==>
                  !Unjudged(s) && !FallsBehind(s, p.shortBelow) && DipsOften(s, p.minSlowWindows, share))
            && (c == Some(Ok) <==>
                  !Unjudged(s) && !FallsBehind(s, p.shortBelow) && !DipsOften(s, p.minSlowWindows, share))
  {}

  /** The class is what the numbers of the report say, given the median share. */
  ghost predicate ClassFits(s: ClientSteady, shortBelow: real, minSlowWindows: nat, medianShare: real) {
    && (s.classification == None <==> Unjudged(s))
    && (s.classification == Some(Persistent) <==> !Unjudged(s) && FallsBehind(s, shortBelow))
    && (s.classification == Some(Transient) <==>
          !Unjudged(s) && !FallsBehind(s, shortBelow) && DipsOften(s, minSlowWindows, medianShare))
    && (s.classification == Some(Ok) <==>
          !Unjudged(s) && !FallsBehind(s, shortBelow) && !DipsOften(s, minSlowWindows, medianShare))
  }

  lemma {:induction false} ReportClass(p: Settings, b: Bounds, five: RatioStats, thirty: RatioStats,
                                       deltas: Snapshot, share: real, c: ClientId)
    ensures ClassFits(Report(p, b, five, thirty, deltas, share, c), p.shortBelow, p.minSlowWindows, share)
  {
    var s := Report(p, b, five, thirty, deltas, share, c);
    ClassOf(s.(classification := None), p, share);
  }

  /** The class of every client, from the numbers in its report. */
  lemma {:induction false} ClassMeaning(h: seq<Snapshot>, p: Settings, clients: set<ClientId>, c: ClientId)
    requires p.window.Some? && p.window.value.start <= p.window.value.end < |h| && |p.runtimes| == |h|
    ensures ClassFits(FinalOf(h, p, clients, c), p.shortBelow, p.minSlowWindows, MedianShare(h, p, clients))
  {
    SharesAre(h, p, clients);
    ReportClass(p.(runtimes := []), p.window.value, StatsBefore(h, p, FiveSeconds, |h|, c),
                StatsBefore(h, p, ThirtySeconds, |h|, c), SteadyDeltas(h, p), MedianShare(h, p, clients), c);
  }

  /** The clients called transient. */
  ghost function TransientAmong(h: seq<Snapshot>, p: Settings, clients: set<ClientId>): set<ClientId>
    requires p.window.Some? && p.window.value.start <= p.window.value.end < |h| && |p.runtimes| == |h|
  {
    set c | c in clients && FinalOf(h, p, clients, c).classification == Some(Transient)
  }

  /** Slow windows are windows. */
  lemma {:induction false} SlowAmongWindows(h: seq<Snapshot>, p: Settings, n: nat, c: ClientId)
    requires n <= |h| && n <= |p.runtimes|
    ensures StatsBefore(h, p, FiveSeconds, n, c).slow <= StatsBefore(h, p, FiveSeconds, n, c).windows
  {
    var ratios := RatiosBefore(h, p, FiveSeconds, n, c);
    CountsMeaning(h, p, FiveSeconds, n, c);
    SubsetSize(PlacesBelow(ratios, p.slowBelow), Places(ratios));
  }

  lemma {:induction false} SharesNonNegative(h: seq<Snapshot>, p: Settings, clients: set<ClientId>)
    requires |p.runtimes| == |h|
    ensures MedianShare(h, p, clients) >= 0.0
  {
    var m := Shares(h, p, clients);
    forall c | c in m
      ensures m[c] >= 0.0
    {
      ShareBound(StatsBefore(h, p, FiveSeconds, |h|, c));
    }
    LeastMedian(m);
  }

  lemma {:induction false} ShareBound(s: RatioStats)
    requires s.windows > 0
    ensures s.slow as real / s.windows as real >= 0.0
  {}

  lemma {:induction false} LeastMedian(m: map<ClientId, real>)
    requires forall c :: c in m ==> m[c] >= 0.0
    ensures Percentile(SortedValues(m), 50.0) >= 0.0
  {
    var s := SortedValues(m);
    SortedBag(m);
    if s != [] {
      PercentileInRange(s, 50.0);
      assert s[0] in multiset(s);
      BagMember(m, s[0]);
    }
  }

  /** Twice the median share is out of reach for a share at or below the median, unless both
      are 0. */
  lemma {:induction false} AboveTheMedian(slow: real, windows: real, median: real)
    requires slow > 0.0 && windows > 0.0 && median >= 0.0 && slow >= 2.0 * median * windows
    ensures slow / windows > median
  {
    var share := slow / windows;
    QuotientTimes(slow, windows);
    assert Mul(2.0 * median - share, windows) == 2.0 * median * windows - slow;
    if share <= 0.0 {
      assert Mul(share, windows) == slow;
      SignOf(share, windows);
    } else if share - 2.0 * median < 0.0 {
      SignOf(2.0 * median - share, windows);
    }
  }

  lemma {:induction false} TransientDips(s: ClientSteady, shortBelow: real, minSlowWindows: nat, median: real)
    requires ClassFits(s, shortBelow, minSlowWindows, median) && s.classification == Some(Transient)
    ensures DipsOften(s, minSlowWindows, median)
  {}

  lemma {:induction false} DippingIsAbove(s: ClientSteady, minSlowWindows: nat, m: map<ClientId, real>, median: real,
                                          c: ClientId)
    requires DipsOften(s, minSlowWindows, median) && 1 <= minSlowWindows && s.five.slow <= s.five.windows
    requires median >= 0.0 && (s.five.windows > 0 ==> c in m && m[c] == s.five.slow as real / s.five.windows as real)
    ensures c in Above(m, median)
  {
    AboveTheMedian(s.five.slow as real, s.five.windows as real, median);
  }

  /** The counts in a client's report are those of all the windows. */
  lemma {:induction false} CountsReported(h: seq<Snapshot>, p: Settings, clients: set<ClientId>, c: ClientId)
    requires p.window.Some? && p.window.value.start <= p.window.value.end < |h| && |p.runtimes| == |h|
    ensures FinalOf(h, p, clients, c).five == StatsBefore(h, p, FiveSeconds, |h|, c)
    ensures FinalOf(h, p, clients, c).thirty == StatsBefore(h, p, ThirtySeconds, |h|, c)
  {}

  lemma {:induction false} TransientIsAbove(h: seq<Snapshot>, p: Settings, clients: set<ClientId>, c: ClientId,
                                            s: ClientSteady)
    requires |p.runtimes| == |h| && c in clients && p.minSlowWindows >= 1
    requires s.five == StatsBefore(h, p, FiveSeconds, |h|, c)
    requires DipsOften(s, p.minSlowWindows, MedianShare(h, p, clients))
    ensures c in Above(Shares(h, p, clients), MedianShare(h, p, clients))
  {
    SlowAmongWindows(h, p, |h|, c);
    SharesNonNegative(h, p, clients);
    DippingIsAbove(s, p.minSlowWindows, Shares(h, p, clients), MedianShare(h, p, clients), c);
  }

  /** The clients that have 5 s windows. */
  ghost function Windowed(h: seq<Snapshot>, p: Settings, clients: set<ClientId>): set<ClientId>
    requires |p.runtimes| == |h|
  {
    set c | c in clients && StatsBefore(h, p, FiveSeconds, |h|, c).windows > 0
  }

  lemma {:induction false} SharesOfWindowed(h: seq<Snapshot>, p: Settings, clients: set<ClientId>)
    requires |p.runtimes| == |h|
    ensures Shares(h, p, clients).Keys == Windowed(h, p, clients)
  {}

  lemma {:induction false} TransientAreAbove(h: seq<Snapshot>, p: Settings, clients: set<ClientId>)
    requires p.window.Some? && p.window.value.start <= p.window.value.end < |h| && |p.runtimes| == |h|
    requires p.minSlowWindows >= 1
    ensures TransientAmong(h, p, clients) <= Above(Shares(h, p, clients), MedianShare(h, p, clients))
  {
    forall c | c in TransientAmong(h, p, clients)
      ensures c in Above(Shares(h, p, clients), MedianShare(h, p, clients))
    {
      var s := FinalOf(h, p, clients, c);
      ClassMeaning(h, p, clients, c);
      TransientDips(s, p.shortBelow, p.minSlowWindows, MedianShare(h, p, clients));
      CountsReported(h, p, clients, c);
      TransientIsAbove(h, p, clients, c, s);
    }
  }

  lemma {:induction false} FewAboveMedian(m: map<ClientId, real>, few: set<ClientId>)
    requires few <= Above(m, Percentile(SortedValues(m), 50.0))
    ensures 2 * |few| <= |m.Keys|
  {
    SubsetSize(few, Above(m, Percentile(SortedValues(m), 50.0)));
    if m.Keys != {} {
      MinorityAboveMedian(m);
    } else {
      assert Above(m, Percentile(SortedValues(m), 50.0)) == {};
    }
  }

  /** A minority dips: of the clients with 5 s windows at most half are transient, for every
      minimum of one slow window or more. */
  lemma {:induction false} AtMostHalfTransient(h: seq<Snapshot>, p: Settings, clients: set<ClientId>)
    requires p.window.Some? && p.window.value.start <= p.window.value.end < |h| && |p.runtimes| == |h|
    requires p.minSlowWindows >= 1
    ensures 2 * |TransientAmong(h, p, clients)| <= |Windowed(h, p, clients)|
  {
    TransientAreAbove(h, p, clients);
    FewAboveMedian(Shares(h, p, clients), TransientAmong(h, p, clients));
    SharesOfWindowed(h, p, clients);
  }
}
