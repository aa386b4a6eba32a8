/** Latency histograms: pooling them, and the two percentiles taken from a pool. */
module Histograms {
  import opened Ordering
  import opened Sums

  /** A latency bucket, in microseconds. */
  datatype Bucket = Bucket(us: real)

  /** Samples per bucket. */
  type Histogram = map<Bucket, nat>

  function CountIn(h: Histogram, bucket: Bucket): nat {
    if bucket in h then h[bucket] else 0
  }

  // ----- sorted buckets -----

  ghost predicate Strict(s: seq<Bucket>) {
    forall i, j :: 0 <= i < j < |s| ==> s[i].us < s[j].us
  }

  predicate IsGreatest(keys: set<Bucket>, k: Bucket) {
    k in keys && forall x :: x in keys ==> x.us <= k.us
  }

  lemma {:induction false} HasGreatest(keys: set<Bucket>)
    requires keys != {}
    ensures exists k :: IsGreatest(keys, k)
  {
    var k :| k in keys;
    var rest := keys - {k};
    if rest == {} {
      GreatestStep(keys, k, k);
    } else {
      HasGreatest(rest);
      var other :| IsGreatest(rest, other);
      GreatestStep(keys, k, other);
    }
  }

  lemma {:induction false} GreatestStep(keys: set<Bucket>, k: Bucket, other: Bucket)
    requires k in keys && other in keys
    requires forall x :: x in keys - {k} ==> x.us <= other.us
    ensures IsGreatest(keys, if other.us < k.us then k else other)
  {
    forall x | x in keys
      ensures x.us <= k.us || x.us <= other.us
    {
      assert x == k || x in keys - {k};
    }
  }

  /** `sorted(keys)`. */
  ghost function SortedKeys(keys: set<Bucket>): seq<Bucket> {
    if keys == {} then []
    else
      HasGreatest(keys);
      var k :| IsGreatest(keys, k);
      SortedKeys(keys - {k}) + [k]
  }

  lemma {:induction false} GreatestUnique(keys: set<Bucket>, a: Bucket, b: Bucket)
    requires IsGreatest(keys, a) && IsGreatest(keys, b)
    ensures a == b
  {
    assert a in keys && b in keys;
  }

  lemma {:induction false} SortedStep(keys: set<Bucket>, k: Bucket)
    requires IsGreatest(keys, k)
    ensures SortedKeys(keys) == SortedKeys(keys - {k}) + [k]
  {
    var g :| IsGreatest(keys, g) && SortedKeys(keys) == SortedKeys(keys - {g}) + [g];
    GreatestUnique(keys, g, k);
  }

  lemma {:induction false} SortedKeysMeaning(keys: set<Bucket>)
    ensures Strict(SortedKeys(keys))
    ensures forall x :: x in SortedKeys(keys) <==> x in keys
  {
    if keys != {} {
      HasGreatest(keys);
      var k :| IsGreatest(keys, k);
      SortedStep(keys, k);
      SortedKeysMeaning(keys - {k});
      var front := SortedKeys(keys - {k});
      forall i | 0 <= i < |front|
        ensures front[i].us < k.us
      {
        assert front[i] in front;
      }
    }
  }

  method SortKeys(keys: set<Bucket>) returns (r: seq<Bucket>)
    ensures r == SortedKeys(keys)
  {
    var todo := keys;
    r := [];
    while todo != {}
      invariant SortedKeys(todo) + r == SortedKeys(keys)
      decreases todo
    {
      HasGreatest(todo);
      var k :| k in todo && IsGreatest(todo, k);
      SortedStep(todo, k);
      r := [k] + r;
      todo := todo - {k};
    }
  }

  // ----- the pool of samples behind a histogram -----

  ghost predicate Known(h: Histogram, buckets: seq<Bucket>) {
    forall i :: 0 <= i < |buckets| ==> buckets[i] in h
  }

  /** Samples in the first `i` buckets. */
  function CountUpTo(h: Histogram, buckets: seq<Bucket>, i: nat): nat
    requires i <= |buckets| && Known(h, buckets)
  {
    if i == 0 then 0 else CountUpTo(h, buckets, i - 1) + h[buckets[i - 1]]
  }

  /** The samples of the first `i` buckets one by one, ascending. */
  ghost function Samples(h: Histogram, buckets: seq<Bucket>, i: nat): (r: seq<real>)
    requires i <= |buckets| && Known(h, buckets)
    ensures |r| == CountUpTo(h, buckets, i)
  {
    if i == 0 then [] else Samples(h, buckets, i - 1) + seq(h[buckets[i - 1]], _ => buckets[i - 1].us)
  }

  /** Every sample of a bucket has that bucket's latency. */
  lemma {:induction false} SampleAt(h: Histogram, buckets: seq<Bucket>, i: nat, n: nat, k: nat)
    requires i < n <= |buckets| && Known(h, buckets)
    requires CountUpTo(h, buckets, i) <= k < CountUpTo(h, buckets, i + 1)
    ensures k < |Samples(h, buckets, n)| && Samples(h, buckets, n)[k] == buckets[i].us
  {
    if i + 1 < n {
      SampleAt(h, buckets, i, n - 1, k);
    }
  }

  lemma {:induction false} SamplesAscend(h: Histogram, buckets: seq<Bucket>, n: nat)
    requires n <= |buckets| && Known(h, buckets) && Strict(buckets)
    ensures Ascending(Samples(h, buckets, n))
    ensures forall k :: 0 <= k < |Samples(h, buckets, n)| && n > 0 ==> Samples(h, buckets, n)[k] <= buckets[n - 1].us
  {
    if n > 0 {
      SamplesAscend(h, buckets, n - 1);
    }
  }

  lemma {:induction false} RepeatCount(n: nat, x: real, y: real)
    ensures multiset(seq(n, _ => x))[y] == if x == y then n else 0
  {
    if n > 0 {
      RepeatCount(n - 1, x, y);
      assert seq(n, _ => x) == seq(n - 1, _ => x) + [x];
    }
  }

  lemma {:induction false} SamplesCount(h: Histogram, buckets: seq<Bucket>, n: nat, x: real)
    requires n <= |buckets| && Known(h, buckets) && Strict(buckets)
    ensures multiset(Samples(h, buckets, n))[x] == if Bucket(x) in buckets[..n] then h[Bucket(x)] else 0
  {
    if n > 0 {
      SamplesCount(h, buckets, n - 1, x);
      RepeatCount(h[buckets[n - 1]], buckets[n - 1].us, x);
      assert buckets[..n] == buckets[..n - 1] + [buckets[n - 1]];
      assert buckets[n - 1] !in buckets[..n - 1];
    }
  }

  ghost function Buckets(h: Histogram): (r: seq<Bucket>)
    ensures Known(h, r)
  {
    SortedKeysMeaning(h.Keys);
    SortedKeys(h.Keys)
  }

  /** The whole pool, ascending. */
  ghost function Pool(h: Histogram): (r: seq<real>) {
    Samples(h, Buckets(h), |Buckets(h)|)
  }

  /** `s` lists the samples a histogram counts, ascending. */
  ghost predicate Lists(s: seq<real>, h: Histogram) {
    Ascending(s) && forall x :: multiset(s)[x] == CountIn(h, Bucket(x))
  }

  lemma {:induction false} PoolCounts(h: Histogram, x: real)
    ensures multiset(Pool(h))[x] == CountIn(h, Bucket(x))
  {
    var buckets := Buckets(h);
    SortedKeysMeaning(h.Keys);
    SamplesCount(h, buckets, |buckets|, x);
    assert buckets[..|buckets|] == buckets;
  }

  lemma {:induction false} PoolLists(h: Histogram)
    ensures Lists(Pool(h), h)
  {
    SortedKeysMeaning(h.Keys);
    SamplesAscend(h, Buckets(h), |Buckets(h)|);
    forall x {
      PoolCounts(h, x);
    }
  }

  /** The pool is the one ascending list of the samples counted. */
  lemma {:induction false} PoolMeaning(h: Histogram, s: seq<real>)
    ensures Lists(s, h) <==> s == Pool(h)
  {
    PoolLists(h);
    if Lists(s, h) {
      SameLists(s, Pool(h), h);
    }
  }

  lemma {:induction false} SameLists(s: seq<real>, t: seq<real>, h: Histogram)
    requires Lists(s, h) && Lists(t, h)
    ensures s == t
  {
    assert multiset(s) == multiset(t);
    AscendingUnique(s, t);
  }

  // ----- combining -----

  function Merged(a: Histogram, b: Histogram): Histogram {
    map x | x in a.Keys + b.Keys :: CountIn(a, x) + CountIn(b, x)
  }

  ghost function Combined(histograms: seq<Histogram>): Histogram {
    if histograms == [] then map[]
    else Merged(Combined(histograms[..|histograms| - 1]), histograms[|histograms| - 1])
  }

  /** `combine_histograms`. */
  method CombineHistograms(histograms: seq<Histogram>) returns (result: Histogram)
    ensures result == Combined(histograms)
  {
    result := map[];
    for i := 0 to |histograms|
      invariant result == Combined(histograms[..i])
    {
      ghost var before := result;
      var todo := histograms[i].Keys;
      while todo != {}
        invariant todo <= histograms[i].Keys
        invariant AddedBut(result, before, histograms[i], todo)
        decreases todo
      {
        var bucket :| bucket in todo;
        AddOne(result, before, histograms[i], todo, bucket);
        result := result[bucket := CountIn(result, bucket) + histograms[i][bucket]];
        todo := todo - {bucket};
      }
      AddedAll(result, before, histograms[i]);
      assert histograms[..i + 1][..i] == histograms[..i];
    }
    assert histograms[..|histograms|] == histograms;
  }

  /** Every entry of `more` outside `todo` has been added to `before`. */
  ghost predicate AddedBut(result: Histogram, before: Histogram, more: Histogram, todo: set<Bucket>) {
    && result.Keys == before.Keys + (more.Keys - todo)
    && forall x :: x in result ==> result[x] == CountIn(before, x) + if x in todo then 0 else CountIn(more, x)
  }

  lemma {:induction false} AddOne(result: Histogram, before: Histogram, more: Histogram, todo: set<Bucket>,
                                  bucket: Bucket)
    requires AddedBut(result, before, more, todo) && bucket in todo && todo <= more.Keys
    ensures AddedBut(result[bucket := CountIn(result, bucket) + more[bucket]], before, more, todo - {bucket})
  {
    assert more.Keys - (todo - {bucket}) == more.Keys - todo + {bucket};
  }

  lemma {:induction false} AddedAll(result: Histogram, before: Histogram, more: Histogram)
    requires AddedBut(result, before, more, {})
    ensures result == Merged(before, more)
  {}

  ghost function TotalOf(histograms: seq<Histogram>, x: Bucket): nat {
    if histograms == [] then 0
    else TotalOf(histograms[..|histograms| - 1], x) + CountIn(histograms[|histograms| - 1], x)
  }

  lemma {:induction false} CombinedCounts(histograms: seq<Histogram>, x: Bucket)
    ensures CountIn(Combined(histograms), x) == TotalOf(histograms, x)
  {
    if histograms != [] {
      CombinedCounts(histograms[..|histograms| - 1], x);
    }
  }

  lemma {:induction false} MergedSwap(a: Histogram, b: Histogram, c: Histogram)
    ensures Merged(Merged(a, b), c) == Merged(Merged(a, c), b)
  {}

  /** Taking a histogram out of the middle and merging it last changes nothing. */
  lemma {:induction false} CombinedLast(histograms: seq<Histogram>, i: nat)
    requires i < |histograms|
    ensures Combined(histograms) == Merged(Combined(histograms[..i] + histograms[i + 1..]), histograms[i])
  {
    var n := |histograms| - 1;
    RestWithoutLast(histograms, i);
    if i < n {
      var front := histograms[..n];
      CombinedLast(front, i);
      MergedSwap(Combined(front[..i] + front[i + 1..]), histograms[i], histograms[n]);
    }
  }

  lemma {:induction false} RestWithoutLast(histograms: seq<Histogram>, i: nat)
    requires i < |histograms|
    ensures var n := |histograms| - 1;
            var rest := histograms[..i] + histograms[i + 1..];
            && (i == n ==> rest == histograms[..n])
            && (i < n ==> rest != [] && rest[|rest| - 1] == histograms[n]
                          && rest[..|rest| - 1] == histograms[..n][..i] + histograms[..n][i + 1..])
  {}

  lemma {:induction false} TakeOut(b: seq<Histogram>, i: nat)
    requires i < |b|
    ensures multiset(b) == multiset(b[..i] + b[i + 1..]) + multiset{b[i]}
  {
    assert b == b[..i] + [b[i]] + b[i + 1..];
  }

  lemma {:induction false} SameRest(a: multiset<Histogram>, b: multiset<Histogram>, x: Histogram)
    requires a + multiset{x} == b + multiset{x}
    ensures a == b
  {
    assert a == a + multiset{x} - multiset{x};
    assert b == b + multiset{x} - multiset{x};
  }

  /** The order of merging does not matter. */
  lemma {:induction false} CombinedPermuted(a: seq<Histogram>, b: seq<Histogram>)
    requires multiset(a) == multiset(b)
    ensures Combined(a) == Combined(b)
  {
    if a == [] {
      assert |multiset(b)| == |b|;
    } else {
      var n := |a| - 1;
      assert a[n] in multiset(b);
      var i: nat :| i < |b| && b[i] == a[n];
      CombinedLast(b, i);
      TakeOut(a, n);
      TakeOut(b, i);
      assert a[..n] + a[n + 1..] == a[..n];
      var rest := b[..i] + b[i + 1..];
      SameRest(multiset(a[..n]), multiset(rest), a[n]);
      CombinedPermuted(a[..n], rest);
    }
  }

  // ----- nearest rank -----

  /** The bucket of the `ceil(p N / 100)`-th smallest sample, in milliseconds; 0 for no
      samples, and the smallest bucket for p = 0 even if nothing is in it. */
  ghost function NearestRank(h: Histogram, percentile: real): real
    requires 0.0 <= percentile <= 100.0
  {
    var pool := Pool(h);
    if pool == [] then 0.0
    else if percentile == 0.0 then Buckets(h)[0].us / 1000.0
    else RankInRange(|pool|, percentile); pool[RankOf(|pool|, percentile) - 1] / 1000.0
  }

  function Target(total: nat, percentile: real): real {
    total as real * percentile / 100.0
  }

  function RankOf(total: nat, percentile: real): int {
    Ceiling(Target(total, percentile))
  }

  lemma {:induction false} TargetInRange(total: nat, percentile: real)
    requires total > 0 && 0.0 <= percentile <= 100.0
    ensures 0.0 <= Target(total, percentile) <= total as real
    ensures Target(total, percentile) == 0.0 <==> percentile == 0.0
  {
    var n := total as real;
    assert n * percentile <= n * 100.0;
    assert percentile > 0.0 ==> n * percentile > 0.0;
  }

  lemma {:induction false} RankInRange(total: nat, percentile: real)
    requires total > 0 && 0.0 < percentile <= 100.0
    ensures 1 <= RankOf(total, percentile) <= total
  {
    TargetInRange(total, percentile);
  }

  /** Index of the first bucket from `i` on whose cumulative count reaches the target. */
  ghost function Reaching(h: Histogram, buckets: seq<Bucket>, target: real, i: nat): (j: nat)
    requires Known(h, buckets) && i < |buckets|
    requires target <= CountUpTo(h, buckets, |buckets|) as real
    ensures i <= j < |buckets|
    ensures CountUpTo(h, buckets, j + 1) as real >= target
    ensures j == i || CountUpTo(h, buckets, j) as real < target
    decreases |buckets| - i
  {
    if CountUpTo(h, buckets, i + 1) as real >= target then i else Reaching(h, buckets, target, i + 1)
  }

  /** That bucket holds the sample of the target's rank. */
  lemma {:induction false} ReachingHoldsRank(h: Histogram, buckets: seq<Bucket>, target: real)
    requires Known(h, buckets) && buckets != [] && 0.0 < target <= CountUpTo(h, buckets, |buckets|) as real
    ensures var k := Ceiling(target) - 1;
            && 0 <= k < |Samples(h, buckets, |buckets|)|
            && Samples(h, buckets, |buckets|)[k] == buckets[Reaching(h, buckets, target, 0)].us
            && h[buckets[Reaching(h, buckets, target, 0)]] > 0
  {
    var j := Reaching(h, buckets, target, 0);
    SampleAt(h, buckets, j, |buckets|, Ceiling(target) - 1);
  }

  lemma {:induction false} NearestRankWalk(h: Histogram, percentile: real)
    requires 0.0 <= percentile <= 100.0 && Pool(h) != []
    ensures Buckets(h) != [] && 0.0 <= Target(|Pool(h)|, percentile) <= |Pool(h)| as real
    ensures NearestRank(h, percentile)
            == Buckets(h)[Reaching(h, Buckets(h), Target(|Pool(h)|, percentile), 0)].us / 1000.0
  {
    TargetInRange(|Pool(h)|, percentile);
    if percentile > 0.0 {
      ReachingHoldsRank(h, Buckets(h), Target(|Pool(h)|, percentile));
    }
  }

  method TotalCount(h: Histogram, buckets: seq<Bucket>) returns (total: nat)
    requires Known(h, buckets)
    ensures total == CountUpTo(h, buckets, |buckets|)
  {
    total := 0;
    for i := 0 to |buckets|
      invariant total == CountUpTo(h, buckets, i)
    {
      total := total + h[buckets[i]];
    }
  }

  /** `percentile_from_histogram` of the metadata benchmark. */
  method PercentileNearest(h: Histogram, percentile: real) returns (r: real)
    requires 0.0 <= percentile <= 100.0
    ensures r == NearestRank(h, percentile)
  {
    var buckets := SortKeys(h.Keys);
    SortedKeysMeaning(h.Keys);
    var total := TotalCount(h, buckets);
    if total == 0 {
      return 0.0;
    }
    NearestRankWalk(h, percentile);
    var target := Target(total, percentile);
    var cumulative := 0;
    for i := 0 to |buckets|
      invariant cumulative == CountUpTo(h, buckets, i)
      invariant i < |buckets| ==> Reaching(h, buckets, target, 0) == Reaching(h, buckets, target, i)
      invariant i > 0 ==> cumulative as real < target
    {
      cumulative := cumulative + h[buckets[i]];
      if cumulative as real >= target {
        return buckets[i].us / 1000.0;
      }
    }
    assert false;
  }

  /** `rank` is `percentile` percent of `total`, rounded up. */
  ghost predicate RoundedUp(total: nat, percentile: real, rank: int) {
    100.0 * (rank - 1) as real < total as real * percentile <= 100.0 * rank as real
  }

  lemma {:induction false} RankIs(total: nat, percentile: real, rank: int)
    requires RoundedUp(total, percentile, rank)
    ensures RankOf(total, percentile) == rank
  {
    var target := Target(total, percentile);
    assert 100.0 * target == total as real * percentile;
  }

  lemma {:induction false} RankMeaning(h: Histogram, percentile: real, rank: int)
    requires 0.0 < percentile <= 100.0 && Pool(h) != [] && RoundedUp(|Pool(h)|, percentile, rank)
    ensures 1 <= rank <= |Pool(h)| && NearestRank(h, percentile) == Pool(h)[rank - 1] / 1000.0
  {
    RankInRange(|Pool(h)|, percentile);
    RankIs(|Pool(h)|, percentile, rank);
  }

  /** The percentile of combined histograms is the bucket of the `ceil(p N / 100)`-th smallest
      of all the samples behind them. */
  lemma {:induction false} PooledPercentile(histograms: seq<Histogram>, s: seq<real>, percentile: real, rank: int)
    requires Ascending(s) && s != [] && 0.0 < percentile <= 100.0
    requires forall x :: multiset(s)[x] == TotalOf(histograms, Bucket(x))
    requires RoundedUp(|s|, percentile, rank)
    ensures 1 <= rank <= |s|
    ensures NearestRank(Combined(histograms), percentile) == s[rank - 1] / 1000.0
  {
    var h := Combined(histograms);
    forall x
      ensures multiset(s)[x] == CountIn(h, Bucket(x))
    {
      CombinedCounts(histograms, Bucket(x));
    }
    PoolMeaning(h, s);
    RankMeaning(h, percentile, rank);
  }

  lemma {:induction false} TargetMonotone(total: nat, p: real, q: real)
    requires p <= q
    ensures Target(total, p) <= Target(total, q)
  {
    var n := total as real;
    assert n * (q - p) >= 0.0;
    assert n * q == n * p + n * (q - p);
  }

  lemma {:induction false} ReachingMonotone(h: Histogram, buckets: seq<Bucket>, a: real, b: real, i: nat)
    requires Known(h, buckets) && i < |buckets| && a <= b <= CountUpTo(h, buckets, |buckets|) as real
    ensures Reaching(h, buckets, a, i) <= Reaching(h, buckets, b, i)
    decreases |buckets| - i
  {
    if CountUpTo(h, buckets, i + 1) as real < a {
      ReachingMonotone(h, buckets, a, b, i + 1);
    }
  }

  lemma {:induction false} NearestRankMonotone(h: Histogram, p: real, q: real)
    requires 0.0 <= p <= q <= 100.0
    ensures NearestRank(h, p) <= NearestRank(h, q)
  {
    if Pool(h) != [] {
      NearestRankWalk(h, p);
      NearestRankWalk(h, q);
      var n := |Pool(h)|;
      TargetMonotone(n, p, q);
      ReachingMonotone(h, Buckets(h), Target(n, p), Target(n, q), 0);
      SortedKeysMeaning(h.Keys);
    }
  }

  // ----- interpolation inside the bucket -----

  function Below(buckets: seq<Bucket>, j: nat): real
    requires j < |buckets|
  {
    if j > 0 then buckets[j - 1].us else 0.0
  }

  function Fraction(target: real, cumulative: nat, count: nat): real {
    if count > 0 then (target - cumulative as real) / count as real else 0.0
  }

  function Blend(low: real, high: real, fraction: real): real {
    low + (high - low) * fraction
  }

  ghost function InterpolatedAt(h: Histogram, buckets: seq<Bucket>, target: real): real
    requires Known(h, buckets) && buckets != [] && target <= CountUpTo(h, buckets, |buckets|) as real
  {
    var j := Reaching(h, buckets, target, 0);
    Blend(Below(buckets, j), buckets[j].us, Fraction(target, CountUpTo(h, buckets, j), h[buckets[j]]))
  }

  /** The interpolated percentile, in microseconds. */
  ghost function Interpolated(h: Histogram, percentile: real): real
    requires 0.0 <= percentile <= 100.0
  {
    if Pool(h) == [] then 0.0
    else
      TargetInRange(|Pool(h)|, percentile);
      InterpolatedAt(h, Buckets(h), Target(|Pool(h)|, percentile))
  }

  /** `percentile_from_histogram` of the network benchmark. */
  method PercentileInterpolated(h: Histogram, percentile: real) returns (r: real)
    requires 0.0 <= percentile <= 100.0
    ensures r == Interpolated(h, percentile)
  {
    var buckets := SortKeys(h.Keys);
    SortedKeysMeaning(h.Keys);
    var total := TotalCount(h, buckets);
    if total == 0 {
      return 0.0;
    }
    TargetInRange(total, percentile);
    var target := Target(total, percentile);
    var cumulative := 0;
    for i := 0 to |buckets|
      invariant cumulative == CountUpTo(h, buckets, i)
      invariant i < |buckets| ==> Reaching(h, buckets, target, 0) == Reaching(h, buckets, target, i)
      invariant i > 0 ==> cumulative as real < target
    {
      var count := h[buckets[i]];
      if (cumulative + count) as real >= target {
        return Blend(Below(buckets, i), buckets[i].us, Fraction(target, cumulative, count));
      }
      cumulative := cumulative + count;
    }
    assert false;
  }

  ghost predicate Latencies(h: Histogram) {
    forall x :: x in h ==> x.us >= 0.0
  }

  lemma {:induction false} FractionInRange(target: real, cumulative: nat, count: nat)
    requires cumulative as real <= target <= (cumulative + count) as real
    ensures 0.0 <= Fraction(target, cumulative, count) <= 1.0
  {}

  lemma {:induction false} BlendMonotone(low: real, high: real, f: real, g: real)
    requires low <= high && f <= g
    ensures Blend(low, high, f) <= Blend(low, high, g)
  {
    var width := high - low;
    assert width * (g - f) >= 0.0;
    assert width * g == width * f + width * (g - f);
  }

  lemma {:induction false} BlendEnds(low: real, high: real, f: real)
    requires low <= high && 0.0 <= f <= 1.0
    ensures low <= Blend(low, high, f) <= high
  {
    BlendMonotone(low, high, 0.0, f);
    BlendMonotone(low, high, f, 1.0);
  }

  lemma {:induction false} AtBounds(h: Histogram, buckets: seq<Bucket>, target: real)
    requires Known(h, buckets) && Strict(buckets) && Latencies(h) && buckets != []
    requires 0.0 <= target <= CountUpTo(h, buckets, |buckets|) as real
    ensures var j := Reaching(h, buckets, target, 0);
            Below(buckets, j) <= InterpolatedAt(h, buckets, target) <= buckets[j].us
  {
    var j := Reaching(h, buckets, target, 0);
    var cumulative, count := CountUpTo(h, buckets, j), h[buckets[j]];
    FractionInRange(target, cumulative, count);
    BlendEnds(Below(buckets, j), buckets[j].us, Fraction(target, cumulative, count));
  }

  /** The interpolated percentile lies in the nearest-rank bucket: not above it, and not below
      the bucket before it (0 before the first). */
  lemma {:induction false} InterpolatedInBucket(h: Histogram, percentile: real) returns (j: nat)
    requires 0.0 <= percentile <= 100.0 && Latencies(h) && Pool(h) != []
    ensures j < |Buckets(h)| && NearestRank(h, percentile) == Buckets(h)[j].us / 1000.0
    ensures Below(Buckets(h), j) <= Interpolated(h, percentile) <= Buckets(h)[j].us
  {
    NearestRankWalk(h, percentile);
    SortedKeysMeaning(h.Keys);
    j := Reaching(h, Buckets(h), Target(|Pool(h)|, percentile), 0);
    AtBounds(h, Buckets(h), Target(|Pool(h)|, percentile));
  }

  lemma {:induction false} FractionMonotone(a: real, b: real, cumulative: nat, count: nat)
    requires a <= b
    ensures Fraction(a, cumulative, count) <= Fraction(b, cumulative, count)
  {
    if count > 0 {
      Quotient(a - cumulative as real, b - cumulative as real, count as real);
    }
  }

  lemma {:induction false} Quotient(a: real, b: real, n: real)
    requires a <= b && n > 0.0
    ensures a / n <= b / n
  {}

  lemma {:induction false} AtMonotone(h: Histogram, buckets: seq<Bucket>, a: real, b: real)
    requires Known(h, buckets) && Strict(buckets) && Latencies(h) && buckets != []
    requires 0.0 <= a <= b <= CountUpTo(h, buckets, |buckets|) as real
    ensures InterpolatedAt(h, buckets, a) <= InterpolatedAt(h, buckets, b)
  {
    var i, j := Reaching(h, buckets, a, 0), Reaching(h, buckets, b, 0);
    ReachingMonotone(h, buckets, a, b, 0);
    if i == j {
      var cumulative, count := CountUpTo(h, buckets, j), h[buckets[j]];
      FractionMonotone(a, b, cumulative, count);
      BlendMonotone(Below(buckets, j), buckets[j].us, Fraction(a, cumulative, count), Fraction(b, cumulative, count));
    } else {
      AtBounds(h, buckets, a);
      AtBounds(h, buckets, b);
    }
  }

  lemma {:induction false} InterpolatedMonotone(h: Histogram, p: real, q: real)
    requires 0.0 <= p <= q <= 100.0 && Latencies(h)
    ensures Interpolated(h, p) <= Interpolated(h, q)
  {
    if Pool(h) != [] {
      var n := |Pool(h)|;
      TargetInRange(n, p);
      TargetInRange(n, q);
      TargetMonotone(n, p, q);
      SortedKeysMeaning(h.Keys);
      AtMonotone(h, Buckets(h), Target(n, p), Target(n, q));
    }
  }

  lemma {:induction false} BlendSteps(low: real, high: real, target: real, cumulative: nat, count: nat)
    requires count > 0
    ensures var r := Blend(low, high, Fraction(target, cumulative, count));
            (r - low) * count as real == (high - low) * (target - cumulative as real)
  {
    var fraction, n := Fraction(target, cumulative, count), count as real;
    assert fraction * n == target - cumulative as real;
    assert ((high - low) * fraction) * n == (high - low) * (fraction * n);
  }

  /** The target falls among the `count` samples after the first `before`, and `r` is as far from
      `low` to `high` as the target is through them. */
  ghost predicate Interpolates(low: real, high: real, before: nat, count: nat, target: real, r: real) {
    && (before > 0 ==> before as real < target) && target <= (before + count) as real
    && (count > 0 ==> Mul(r - low, count as real) == Mul(high - low, target - before as real))
    && (count == 0 ==> before == 0 && target == 0.0 && r == low)
  }

  lemma {:induction false} FractionInterpolates(low: real, high: real, before: nat, count: nat, target: real)
    requires 0.0 <= target && (before > 0 ==> before as real < target) && target <= (before + count) as real
    ensures Interpolates(low, high, before, count, target, Blend(low, high, Fraction(target, before, count)))
  {
    if count > 0 {
      BlendSteps(low, high, target, before, count);
    }
  }

  lemma {:induction false} NothingBefore(h: Histogram, buckets: seq<Bucket>, target: real)
    requires Known(h, buckets) && buckets != [] && 0.0 <= target <= CountUpTo(h, buckets, |buckets|) as real
    ensures var j := Reaching(h, buckets, target, 0);
            CountUpTo(h, buckets, j) > 0 ==> CountUpTo(h, buckets, j) as real < target
  {}

  /** What the interpolated percentile is: it starts from the bucket before (0 before the first) and
      moves to the bucket in equal steps, as the target `p N / 100` moves through its samples. */
  lemma {:induction false} InterpolatedMeaning(h: Histogram, percentile: real, target: real) returns (j: nat)
    requires 0.0 <= percentile <= 100.0 && Pool(h) != []
    requires Mul(target, 100.0) == Mul(|Pool(h)| as real, percentile)
    ensures j < |Buckets(h)|
    ensures Known(h, Buckets(h))
    ensures Interpolates(if j == 0 then 0.0 else Buckets(h)[j - 1].us, Buckets(h)[j].us,
                         CountUpTo(h, Buckets(h), j), h[Buckets(h)[j]], target, Interpolated(h, percentile))
  {
    var buckets := Buckets(h);
    TargetIs(|Pool(h)|, percentile, target);
    TargetInRange(|Pool(h)|, percentile);
    SortedKeysMeaning(h.Keys);
    j := Reaching(h, buckets, target, 0);
    NothingBefore(h, buckets, target);
    FractionInterpolates(Below(buckets, j), buckets[j].us, CountUpTo(h, buckets, j), h[buckets[j]], target);
  }

  lemma {:induction false} TargetIs(total: nat, percentile: real, target: real)
    requires Mul(target, 100.0) == Mul(total as real, percentile)
    ensures Target(total, percentile) == target
  {}

  /** The bucket itself is reached exactly when the target is the cumulative count with it. */
  lemma {:induction false} BucketReached(low: real, high: real, before: nat, count: nat, target: real, r: real)
    requires low < high && count > 0 && Interpolates(low, high, before, count, target, r)
    ensures r == high <==> target == (before + count) as real
  {
    FullStep(r - low, high - low, count as real, target - before as real);
  }

  lemma {:induction false} FullStep(way: real, width: real, count: real, steps: real)
    requires width > 0.0 && count > 0.0 && Mul(way, count) == Mul(width, steps)
    ensures way == width <==> steps == count
  {
    if way == width {
      assert width * (steps - count) == 0.0;
    }
    if steps == count {
      assert (way - width) * count == 0.0;
    }
  }
}
