/** What the first pass must say about a client, stated on whole interval histories, and
    the online summary that has to agree with it. */
module ClientHistory {
  import opened LiveRows
  import opened Dictionaries
  import opened Ordering
  import opened Sums

  /** What is kept of a client's latest sample. */
  datatype PreviousSample = PreviousSample(doneBytes: int, runtimeMs: int, interval: int)

  function MiBPerSecond(bytes: int, elapsedMs: int): real
    requires elapsedMs > 0
  {
    bytes as real * 1000.0 / elapsedMs as real / MIB
  }

  /** The rate against the sample of the interval just before; None after a gap, a counter that
      went back or a clock that did not advance. */
  function DeriveRate(prior: Option<PreviousSample>, doneBytes: int, runtimeMs: int, interval: int): Option<real> {
    if prior.None? || prior.value.interval != interval - 1 then None
    else
      var elapsed := runtimeMs - prior.value.runtimeMs;
      var delta := doneBytes - prior.value.doneBytes;
      if elapsed <= 0 || delta < 0 then None
      else Some(MiBPerSecond(delta, elapsed))
  }

  // ----- reference definitions over whole histories -----

  /** Both this interval and the one before have a sample of the client. */
  ghost predicate Adjacent(iv: seq<Interval>, t: int, c: ClientId) {
    0 < t < |iv| && c in iv[t - 1].samples && c in iv[t].samples
  }

  /** The rate of the client over the interval ending at `t`, straight from the samples. */
  ghost function RateAt(iv: seq<Interval>, t: int, c: ClientId): Option<real> {
    if Adjacent(iv, t, c) && iv[t - 1].runtimeMs < iv[t].runtimeMs
       && iv[t - 1].samples[c] <= iv[t].samples[c]
    then Some(MiBPerSecond(iv[t].samples[c] - iv[t - 1].samples[c], iv[t].runtimeMs - iv[t - 1].runtimeMs))
    else None
  }

  ghost function Front(iv: seq<Interval>): seq<Interval>
    requires iv != []
  {
    iv[..|iv| - 1]
  }

  /** Every derived rate of the client, in order. */
  ghost function Rates(iv: seq<Interval>, c: ClientId): seq<real> {
    if iv == [] then []
    else match RateAt(iv, |iv| - 1, c)
      case None => Rates(Front(iv), c)
      case Some(r) => Rates(Front(iv), c) + [r]
  }

  /** Intervals without a sample of the client. */
  ghost function Missing(iv: seq<Interval>, c: ClientId): nat {
    if iv == [] then 0
    else Missing(Front(iv), c) + if c in iv[|iv| - 1].samples then 0 else 1
  }

  /** Adjacent samples that give no rate: the counter or the clock went back. */
  ghost function Invalid(iv: seq<Interval>, c: ClientId): nat {
    if iv == [] then 0
    else Invalid(Front(iv), c)
         + if Adjacent(iv, |iv| - 1, c) && RateAt(iv, |iv| - 1, c).None? then 1 else 0
  }

  /** Samples that follow a gap. */
  ghost function NonAdjacent(iv: seq<Interval>, c: ClientId): nat {
    if iv == [] then 0
    else NonAdjacent(Front(iv), c)
         + if c in iv[|iv| - 1].samples && c in ClientsOf(Front(iv)) && !Adjacent(iv, |iv| - 1, c) then 1 else 0
  }

  /** Adjacent samples whose runtime did not advance. */
  ghost function Stalls(iv: seq<Interval>, c: ClientId): nat {
    if iv == [] then 0
    else
      var t := |iv| - 1;
      Stalls(Front(iv), c)
      + if Adjacent(iv, t, c) && iv[t].runtimeMs <= iv[t - 1].runtimeMs then 1 else 0
  }

  /** Adjacent samples, in advancing runtime, whose counter went back. */
  ghost function Resets(iv: seq<Interval>, c: ClientId): nat {
    if iv == [] then 0
    else
      var t := |iv| - 1;
      Resets(Front(iv), c)
      + if Adjacent(iv, t, c) && iv[t].runtimeMs > iv[t - 1].runtimeMs
           && iv[t].samples[c] < iv[t - 1].samples[c] then 1 else 0
  }

  ghost function LastSample(iv: seq<Interval>, c: ClientId): (r: Option<PreviousSample>)
    ensures r.Some? <==> c in ClientsOf(iv)
    ensures r.Some? ==> && 0 <= r.value.interval < |iv|
                        && c in iv[r.value.interval].samples
                        && r.value.doneBytes == iv[r.value.interval].samples[c]
                        && r.value.runtimeMs == iv[r.value.interval].runtimeMs
    ensures r.Some? && iv != [] && c in iv[|iv| - 1].samples ==> r.value.interval == |iv| - 1
  {
    if iv == [] then None
    else
      var t := |iv| - 1;
      if c in iv[t].samples then Some(PreviousSample(iv[t].samples[c], iv[t].runtimeMs, t))
      else LastSample(Front(iv), c)
  }

  lemma {:induction false} LastSampleIsLast(iv: seq<Interval>, c: ClientId, t: int)
    requires 0 <= t < |iv| && c in iv[t].samples
    ensures LastSample(iv, c).Some? && t <= LastSample(iv, c).value.interval
  {
    if c !in iv[|iv| - 1].samples {
      LastSampleIsLast(Front(iv), c, t);
    }
  }

  /** When the final DoneBytes was first reached. */
  ghost function FinishMs(iv: seq<Interval>, c: ClientId): Option<int> {
    if iv == [] then None
    else
      var t := |iv| - 1;
      var prior := LastSample(Front(iv), c);
      if c in iv[t].samples && (prior.None? || prior.value.doneBytes != iv[t].samples[c])
      then Some(iv[t].runtimeMs)
      else FinishMs(Front(iv), c)
  }

  /** The first interval in which the client had moved any data. */
  ghost function FirstProgress(iv: seq<Interval>, c: ClientId): Option<int> {
    if iv == [] then None
    else
      var t := |iv| - 1;
      var earlier := FirstProgress(Front(iv), c);
      if earlier.None? && c in iv[t].samples && iv[t].samples[c] > 0 then Some(t) else earlier
  }

  lemma {:induction false} FirstProgressMeaning(iv: seq<Interval>, c: ClientId)
    ensures match FirstProgress(iv, c)
            case None => forall t :: 0 <= t < |iv| && c in iv[t].samples ==> iv[t].samples[c] <= 0
            case Some(first) =>
              && 0 <= first < |iv| && c in iv[first].samples && iv[first].samples[c] > 0
              && forall t :: 0 <= t < first && c in iv[t].samples ==> iv[t].samples[c] <= 0
  {
    if iv != [] {
      FirstProgressMeaning(Front(iv), c);
      assert forall t :: 0 <= t < |iv| - 1 ==> Front(iv)[t] == iv[t];
    }
  }

  /** The rates of every client over the interval ending at `t`. */
  ghost function RatesAt(iv: seq<Interval>, t: int): map<ClientId, real>
    requires 0 <= t < |iv|
  {
    map c | c in iv[t].samples.Keys && RateAt(iv, t, c).Some? :: RateAt(iv, t, c).value
  }

  ghost function FleetMedian(iv: seq<Interval>, t: int): real
    requires 0 <= t < |iv|
  {
    Percentile(SortedValues(RatesAt(iv, t)), 50.0)
  }

  /** Sum and number of the client's ratios to the fleet median. */
  ghost function Relative(iv: seq<Interval>, c: ClientId): (real, nat) {
    if iv == [] then (0.0, 0)
    else
      var t := |iv| - 1;
      var (sum, count) := Relative(Front(iv), c);
      var rate := RateAt(iv, t, c);
      if rate.Some? && FleetMedian(iv, t) > 0.0 then (sum + rate.value / FleetMedian(iv, t), count + 1)
      else (sum, count)
  }

  ghost function Mean(s: seq<real>): real {
    if s == [] then 0.0 else Div(Sum(s), |s| as real)
  }

  // ----- the online summary -----

  /** The online rate statistics of one client.  Its P² estimator is represented by
      `observed`, everything it was given; the estimator itself is `StreamingMedian.P2Median`. */
  datatype RateStats = RateStats(
    sampleCount: nat, mean: real, squareDelta: real, observed: seq<real>,
    relativeSum: real, relativeCount: nat)
  {
    function AddRate(rate: real, fleetMedian: real): RateStats {
      var n := sampleCount + 1;
      var delta := rate - mean;
      var mean' := mean + Div(delta, n as real);
      var s := RateStats(n, mean', squareDelta + Mul(delta, rate - mean'), observed + [rate],
                         relativeSum, relativeCount);
      if fleetMedian > 0.0
      then s.(relativeSum := relativeSum + rate / fleetMedian, relativeCount := relativeCount + 1)
      else s
    }
  }

  /** The counters and progress marks of one client. */
  datatype Progress = Progress(
    missing: nat, invalid: nat, finalDone: Option<int>, finishMs: Option<int>, firstProgress: Option<int>)
  {
    function ObserveDoneBytes(doneBytes: int, runtimeMs: int, interval: int): Progress {
      var s := if finalDone != Some(doneBytes)
               then this.(finalDone := Some(doneBytes), finishMs := Some(runtimeMs)) else this;
      if s.firstProgress.None? && doneBytes > 0 then s.(firstProgress := Some(interval)) else s
    }

    function MarkMissing(): Progress { this.(missing := missing + 1) }

    function MarkInvalid(): Progress { this.(invalid := invalid + 1) }
  }

  /** Everything the first pass keeps about a client while rows stream by. */
  datatype ClientSummary = ClientSummary(rates: RateStats, progress: Progress)

  function NewSummary(missing: nat): ClientSummary {
    ClientSummary(RateStats(0, 0.0, 0.0, [], 0.0, 0), Progress(missing, 0, None, None, None))
  }

  /** What the rate statistics must be, from all the rates at once. */
  ghost function StatsOf(rates: seq<real>, relative: (real, nat)): RateStats {
    RateStats(|rates|, Mean(rates), Deviation(rates, Mean(rates)), rates, relative.0, relative.1)
  }

  ghost function FinalDone(iv: seq<Interval>, c: ClientId): Option<int> {
    var last := LastSample(iv, c);
    if last.Some? then Some(last.value.doneBytes) else None
  }

  ghost function ProgressOf(iv: seq<Interval>, c: ClientId): Progress {
    Progress(Missing(iv, c), Invalid(iv, c), FinalDone(iv, c), FinishMs(iv, c), FirstProgress(iv, c))
  }

  /** What the summary of a client must be, from its whole history. */
  ghost function SummaryOf(iv: seq<Interval>, c: ClientId): ClientSummary {
    ClientSummary(StatsOf(Rates(iv, c), Relative(iv, c)), ProgressOf(iv, c))
  }

  /** The per-row part of `_derive_interval_rates`: everything but the rate statistics. */
  function Derived(before: Progress, prior: Option<PreviousSample>, doneBytes: int, runtimeMs: int, interval: int)
    : Progress
  {
    var p := before.ObserveDoneBytes(doneBytes, runtimeMs, interval);
    if prior.Some? && prior.value.interval == interval - 1
       && DeriveRate(prior, doneBytes, runtimeMs, interval).None?
    then p.MarkInvalid() else p
  }

  // ----- one more interval -----

  lemma {:induction false} WelfordScalars(q: real, sum: real, n: real, m: real, m1: real, x: real)
    requires sum == n * m && (n + 1.0) * m1 == sum + x
    ensures Expansion(q + Square(x), sum + x, n + 1.0, m1) == Expansion(q, sum, n, m) + Mul(x - m, x - m1)
  {
    assert (n + 1.0) * (m1 * m1) == ((n + 1.0) * m1) * m1 == (sum + x) * m1;
    assert n * (m * m) == (n * m) * m == sum * m;
    assert sum + x - m1 == n * m1;
    assert m * (sum + x - m1) == m * (n * m1) == (n * m) * m1 == sum * m1;
    assert Mul(x - m, x - m1) == x * x - x * m1 - m * x + m * m1;
  }

  lemma {:induction false} MeanScalars(sum: real, n: real, m: real, m1: real, x: real)
    requires n >= 0.0 && sum == n * m && m1 == Div(sum + x, n + 1.0)
    ensures (n + 1.0) * m1 == sum + x
    ensures m1 == m + Div(x - m, n + 1.0)
  {
    var q := (x - m) / (n + 1.0);
    assert q * (n + 1.0) == x - m;
    assert (m + q) * (n + 1.0) == m * n + m + (x - m) == sum + x;
  }

  lemma {:induction false} MeanTimesCount(s: seq<real>)
    ensures Sum(s) == |s| as real * Mean(s)
  {}

  lemma {:induction false} MeanAppended(rates: seq<real>, x: real)
    ensures Mean(rates + [x]) == Div(Sum(rates) + x, |rates| as real + 1.0)
  {
    SumAppended(rates, x);
  }

  lemma {:induction false} SumAppended(rates: seq<real>, x: real)
    ensures Sum(rates + [x]) == Sum(rates) + x && |rates + [x]| as real == |rates| as real + 1.0
  {
    assert (rates + [x])[..|rates|] == rates;
  }

  lemma {:induction false} MeanStep(rates: seq<real>, x: real)
    ensures var n := |rates| as real + 1.0;
            var m1 := Mean(rates + [x]);
            m1 == Mean(rates) + Div(x - Mean(rates), n) && n * m1 == Sum(rates) + x
  {
    MeanAppended(rates, x);
    MeanTimesCount(rates);
    MeanScalars(Sum(rates), |rates| as real, Mean(rates), Mean(rates + [x]), x);
  }

  lemma {:induction false} ExpandAppended(rates: seq<real>, x: real, m1: real)
    ensures Deviation(rates + [x], m1)
            == Expansion(SumSquares(rates) + Square(x), Sum(rates) + x, |rates| as real + 1.0, m1)
  {
    var more := rates + [x];
    assert more[..|rates|] == rates;
    DeviationExpands(more, m1);
  }

  lemma {:induction false} DeviationStep(rates: seq<real>, x: real, m: real, m1: real)
    requires Sum(rates) == |rates| as real * m && (|rates| as real + 1.0) * m1 == Sum(rates) + x
    ensures Deviation(rates + [x], m1) == Deviation(rates, m) + Mul(x - m, x - m1)
  {
    DeviationExpands(rates, m);
    ExpandAppended(rates, x, m1);
    WelfordScalars(SumSquares(rates), Sum(rates), |rates| as real, m, m1, x);
  }

  /** Welford's update is the two-pass mean and sum of squared deviations. */
  lemma {:induction false} Welford(rates: seq<real>, x: real)
    ensures var n := |rates| as real + 1.0;
            var m := Mean(rates);
            var m1 := Mean(rates + [x]);
            && m1 == m + Div(x - m, n)
            && Deviation(rates + [x], m1) == Deviation(rates, m) + Mul(x - m, x - m1)
  {
    MeanTimesCount(rates);
    MeanStep(rates, x);
    DeviationStep(rates, x, Mean(rates), Mean(rates + [x]));
  }

  lemma {:induction false} PriorIsAdjacent(iv: seq<Interval>, b: Interval, c: ClientId)
    requires c in b.samples
    ensures Adjacent(iv + [b], |iv|, c) <==>
            LastSample(iv, c).Some? && LastSample(iv, c).value.interval == |iv| - 1
  {
    if iv != [] && c in iv[|iv| - 1].samples {
      LastSampleIsLast(iv, c, |iv| - 1);
    }
  }

  /** The prior sample kept per client is enough to derive the rate the history defines. */
  lemma {:induction false} RateIsDerived(iv: seq<Interval>, b: Interval, c: ClientId)
    requires c in b.samples
    ensures RateAt(iv + [b], |iv|, c) == DeriveRate(LastSample(iv, c), b.samples[c], b.runtimeMs, |iv|)
    ensures Adjacent(iv + [b], |iv|, c) <==>
            LastSample(iv, c).Some? && LastSample(iv, c).value.interval == |iv| - 1
  {
    PriorIsAdjacent(iv, b, c);
    var prior := LastSample(iv, c);
    if Adjacent(iv + [b], |iv|, c) {
      assert iv[|iv| - 1] == (iv + [b])[|iv| - 1];
      assert prior.value == PreviousSample(iv[|iv| - 1].samples[c], iv[|iv| - 1].runtimeMs, |iv| - 1);
    }
  }

  lemma {:induction false} Unseen(iv: seq<Interval>, c: ClientId)
    requires c !in ClientsOf(iv)
    ensures SummaryOf(iv, c) == NewSummary(|iv|)
    ensures FaultsOf(iv, c) == Faults(|iv|, 0, 0, 0)
  {
    if iv != [] {
      Unseen(Front(iv), c);
    }
  }

  lemma {:induction false} StepMissing(iv: seq<Interval>, b: Interval, c: ClientId)
    requires c !in b.samples
    ensures SummaryOf(iv + [b], c)
            == SummaryOf(iv, c).(progress := ProgressOf(iv, c).MarkMissing())
  {
    assert Front(iv + [b]) == iv;
  }

  lemma {:induction false} StatsStep(rates: seq<real>, relative: (real, nat), x: real, median: real)
    ensures StatsOf(rates, relative).AddRate(x, median)
            == StatsOf(rates + [x], if median > 0.0 then (relative.0 + x / median, relative.1 + 1) else relative)
  {
    Welford(rates, x);
    assert (|rates| + 1) as real == |rates| as real + 1.0;
  }

  lemma {:induction false} StepRates(iv: seq<Interval>, b: Interval, c: ClientId)
    ensures SummaryOf(iv + [b], c).rates == match RateAt(iv + [b], |iv|, c)
                                  case None => SummaryOf(iv, c).rates
                                  case Some(r) => SummaryOf(iv, c).rates.AddRate(r, FleetMedian(iv + [b], |iv|))
  {
    assert Front(iv + [b]) == iv;
    match RateAt(iv + [b], |iv|, c)
    case None =>
    case Some(r) =>
      StatsStep(Rates(iv, c), Relative(iv, c), r, FleetMedian(iv + [b], |iv|));
  }

  /** The counters and marks after a sample. */
  lemma {:induction false} StepProgress(iv: seq<Interval>, b: Interval, c: ClientId)
    requires c in b.samples
    ensures ProgressOf(iv + [b], c)
            == Derived(ProgressOf(iv, c), LastSample(iv, c), b.samples[c], b.runtimeMs, |iv|)
  {
    assert Front(iv + [b]) == iv;
    RateIsDerived(iv, b, c);
    assert Invalid(iv + [b], c) == Invalid(iv, c)
      + if Adjacent(iv + [b], |iv|, c) && RateAt(iv + [b], |iv|, c).None? then 1 else 0;
    assert FinalDone(iv + [b], c) == Some(b.samples[c]);
  }

  /** How often a client was missing, and how often each kind of unusable sample befell it. */
  datatype Faults = Faults(missing: nat, nonAdjacent: nat, stalls: nat, resets: nat)

  /** The kinds of count. */
  datatype Kind = Gap | Skip | Stall | Reset

  function Count(f: Faults, kind: Kind): nat {
    match kind
    case Gap => f.missing
    case Skip => f.nonAdjacent
    case Stall => f.stalls
    case Reset => f.resets
  }

  ghost function FaultsOf(iv: seq<Interval>, c: ClientId): Faults {
    Faults(Missing(iv, c), NonAdjacent(iv, c), Stalls(iv, c), Resets(iv, c))
  }

  /** The fault one sample adds, judged from the prior sample alone. */
  function FaultOf(prior: Option<PreviousSample>, doneBytes: int, runtimeMs: int, interval: int): Faults {
    if prior.None? then Faults(0, 0, 0, 0)
    else if prior.value.interval != interval - 1 then Faults(0, 1, 0, 0)
    else if runtimeMs <= prior.value.runtimeMs then Faults(0, 0, 1, 0)
    else if doneBytes < prior.value.doneBytes then Faults(0, 0, 0, 1)
    else Faults(0, 0, 0, 0)
  }

  lemma {:induction false} StepFaults(iv: seq<Interval>, b: Interval, c: ClientId, kind: Kind)
    ensures c !in b.samples ==>
      Count(FaultsOf(iv + [b], c), kind) == Count(FaultsOf(iv, c), kind) + Count(Faults(1, 0, 0, 0), kind)
    ensures c in b.samples ==>
      Count(FaultsOf(iv + [b], c), kind)
      == Count(FaultsOf(iv, c), kind) + Count(FaultOf(LastSample(iv, c), b.samples[c], b.runtimeMs, |iv|), kind)
  {
    assert Front(iv + [b]) == iv;
    if c in b.samples {
      RateIsDerived(iv, b, c);
    }
  }

  /** Every unusable pair is a stall or a reset. */
  lemma {:induction false} InvalidSplits(iv: seq<Interval>, c: ClientId)
    ensures Invalid(iv, c) == Stalls(iv, c) + Resets(iv, c)
  {
    if iv != [] {
      InvalidSplits(Front(iv), c);
    }
  }

  /** Sample accounting: every interval of a known client is its first sample, missing,
      a rate, an unusable pair or the end of a gap, and never two of these. */
  lemma {:induction false} SampleAccounting(iv: seq<Interval>, c: ClientId)
    ensures |iv| == Missing(iv, c) + (if c in ClientsOf(iv) then 1 else 0)
                    + |Rates(iv, c)| + Invalid(iv, c) + NonAdjacent(iv, c)
  {
    if iv != [] {
      var b := iv[|iv| - 1];
      assert iv == Front(iv) + [b];
      SampleAccounting(Front(iv), c);
      if c in b.samples {
        RateIsDerived(Front(iv), b, c);
      }
    }
  }

  /** The finish time is the runtime at which the trailing run of equal samples began. */
  lemma {:induction false} FinishMeaning(iv: seq<Interval>, c: ClientId) returns (t: int)
    requires c in ClientsOf(iv)
    ensures 0 <= t < |iv| && c in iv[t].samples && FinishMs(iv, c) == Some(iv[t].runtimeMs)
    ensures forall u :: t <= u < |iv| && c in iv[u].samples ==> iv[u].samples[c] == iv[t].samples[c]
    ensures var prior := LastSample(iv[..t], c);
            prior.Some? ==> prior.value.doneBytes != iv[t].samples[c]
  {
    var n := |iv| - 1;
    var prior := LastSample(Front(iv), c);
    if c in iv[n].samples && (prior.None? || prior.value.doneBytes != iv[n].samples[c]) {
      t := n;
    } else {
      t := FinishMeaning(Front(iv), c);
      if c in iv[n].samples {
        assert prior.value.interval >= t by {
          LastSampleIsLast(Front(iv), c, t);
        }
      }
      assert iv[..t] == Front(iv)[..t];
      assert forall u :: 0 <= u < n ==> Front(iv)[u] == iv[u];
    }
  }

  /** Total of one kind of count over a dictionary of clients. */
  ghost function Total(m: map<ClientId, Faults>, kind: Kind): nat
    decreases m.Keys
  {
    if m == map[] then 0
    else
      var k :| k in m;
      Count(m[k], kind) + Total(m - {k}, kind)
  }

  /** The total does not depend on which entry is taken first. */
  lemma {:induction false} TotalTake(m: map<ClientId, Faults>, k: ClientId, kind: Kind)
    requires k in m
    ensures Total(m, kind) == Count(m[k], kind) + Total(m - {k}, kind)
    decreases m.Keys
  {
    var first :| first in m && Total(m, kind) == Count(m[first], kind) + Total(m - {first}, kind);
    if first != k {
      assert (m - {first})[k] == m[k] && (m - {k})[first] == m[first];
      TotalTake(m - {first}, k, kind);
      TotalTake(m - {k}, first, kind);
      assert m - {first} - {k} == m - {k} - {first};
    }
  }

  ghost function CountOf(m: map<ClientId, Faults>, c: ClientId, kind: Kind): nat {
    if c in m then Count(m[c], kind) else 0
  }

  lemma {:induction false} TotalWithout(m: map<ClientId, Faults>, c: ClientId, kind: Kind)
    ensures Total(m, kind) == CountOf(m, c, kind) + Total(m - {c}, kind)
    ensures forall j :: j != c ==> CountOf(m - {c}, j, kind) == CountOf(m, j, kind)
  {
    if c in m {
      TotalTake(m, c, kind);
    } else {
      assert m - {c} == m;
    }
  }

  /** Adding dictionaries entry by entry adds their totals. */
  lemma {:induction false} TotalSum(a: map<ClientId, Faults>, b: map<ClientId, Faults>, c: map<ClientId, Faults>,
                                    r: map<ClientId, Faults>, kind: Kind)
    requires a.Keys <= r.Keys && b.Keys <= r.Keys && c.Keys <= r.Keys
    requires forall k :: k in r ==>
      CountOf(r, k, kind) == CountOf(a, k, kind) + CountOf(b, k, kind) + CountOf(c, k, kind)
    ensures Total(r, kind) == Total(a, kind) + Total(b, kind) + Total(c, kind)
    decreases r.Keys
  {
    if r.Keys == {} {
      assert a == map[] && b == map[] && c == map[] && r == map[];
    } else {
      var k :| k in r;
      TotalWithout(a, k, kind);
      TotalWithout(b, k, kind);
      TotalWithout(c, k, kind);
      TotalWithout(r, k, kind);
      TotalSum(a - {k}, b - {k}, c - {k}, r - {k}, kind);
    }
  }

  ghost function FaultMap(iv: seq<Interval>): (r: map<ClientId, Faults>)
    ensures r.Keys == ClientsOf(iv)
  {
    map c | c in ClientsOf(iv) :: FaultsOf(iv, c)
  }

  /** What one interval adds for the known clients it lacks. */
  ghost function AbsentFaults(absent: set<ClientId>): (r: map<ClientId, Faults>)
    ensures r.Keys == absent
  {
    map c | c in absent :: Faults(1, 0, 0, 0)
  }

  /** What a sample adds for its client; one first seen now was missing until now. */
  ghost function SampleFault(known: bool, prior: Option<PreviousSample>, doneBytes: int, runtimeMs: int,
                             interval: nat): Faults {
    var f := FaultOf(prior, doneBytes, runtimeMs, interval);
    Faults(if known then 0 else interval, f.nonAdjacent, f.stalls, f.resets)
  }

  ghost function SampleFaults(known: set<ClientId>, previous: map<ClientId, PreviousSample>, b: Interval,
                              interval: nat, done: set<ClientId>): (r: map<ClientId, Faults>)
    requires done <= b.samples.Keys
    ensures r.Keys == done
  {
    map c | c in done :: SampleFault(c in known, Get(previous, c), b.samples[c], b.runtimeMs, interval)
  }

  /** One interval's contribution to the total counts. */
  lemma {:induction false} StepFaultMap(iv: seq<Interval>, b: Interval, previous: map<ClientId, PreviousSample>,
                                        kind: Kind)
    requires forall c :: Get(previous, c) == LastSample(iv, c)
    ensures Total(FaultMap(iv + [b]), kind)
            == Total(FaultMap(iv), kind) + Total(AbsentFaults(ClientsOf(iv) - b.samples.Keys), kind)
               + Total(SampleFaults(ClientsOf(iv), previous, b, |iv|, b.samples.Keys), kind)
  {
    assert Front(iv + [b]) == iv;
    var absent := AbsentFaults(ClientsOf(iv) - b.samples.Keys);
    var sampled := SampleFaults(ClientsOf(iv), previous, b, |iv|, b.samples.Keys);
    var after := FaultMap(iv + [b]);
    assert ClientsOf(iv + [b]) == ClientsOf(iv) + b.samples.Keys;
    forall c | c in after
      ensures CountOf(after, c, kind)
              == CountOf(FaultMap(iv), c, kind) + CountOf(absent, c, kind) + CountOf(sampled, c, kind)
    {
      StepFaultOf(iv, b, c, previous, kind);
    }
    TotalSum(FaultMap(iv), absent, sampled, after, kind);
  }

  lemma {:induction false} StepFaultOf(iv: seq<Interval>, b: Interval, c: ClientId,
                                       previous: map<ClientId, PreviousSample>, kind: Kind)
    requires c in ClientsOf(iv) + b.samples.Keys && Get(previous, c) == LastSample(iv, c)
    ensures Count(FaultsOf(iv + [b], c), kind)
            == CountOf(FaultMap(iv), c, kind) + CountOf(AbsentFaults(ClientsOf(iv) - b.samples.Keys), c, kind)
               + CountOf(SampleFaults(ClientsOf(iv), previous, b, |iv|, b.samples.Keys), c, kind)
  {
    StepFaults(iv, b, c, kind);
    if c !in ClientsOf(iv) {
      Unseen(iv, c);
    }
  }
}
