/** The first streaming pass: one domain's state buffers an interval at a time, and a
    whole file is split over its domains. */
module FirstPass {
  import opened LiveRows
  import opened Dictionaries
  import opened ClientHistory
  import opened Ordering
  import opened Sums

  datatype Diagnostics = Diagnostics(
    missingSamples: nat, nonAdjacentSamples: nat, counterResets: nat,
    nonPositiveElapsedTime: nat, invalidSamples: nat)

  /** `after` is `before` with the counts `f` added. */
  ghost predicate AddsOne(before: Diagnostics, after: Diagnostics, f: Faults) {
    && after.missingSamples == before.missingSamples + f.missing
    && after.nonAdjacentSamples == before.nonAdjacentSamples + f.nonAdjacent
    && after.nonPositiveElapsedTime == before.nonPositiveElapsedTime + f.stalls
    && after.counterResets == before.counterResets + f.resets
    && after.invalidSamples == before.invalidSamples
  }

  lemma {:induction false} AddsStep(before: Diagnostics, d: Diagnostics, after: Diagnostics, c: ClientId,
                                    m: map<ClientId, Faults>, more: map<ClientId, Faults>)
    requires Adds(before, d, m) && c in more && more - {c} == m && AddsOne(d, after, more[c])
    ensures Adds(before, after, more)
  {
    TotalTake(more, c, Gap);
    TotalTake(more, c, Skip);
    TotalTake(more, c, Stall);
    TotalTake(more, c, Reset);
  }

  /** `after` is `before` with the total counts of `m` added. */
  ghost predicate Adds(before: Diagnostics, after: Diagnostics, m: map<ClientId, Faults>) {
    && after.missingSamples == before.missingSamples + Total(m, Gap)
    && after.nonAdjacentSamples == before.nonAdjacentSamples + Total(m, Skip)
    && after.nonPositiveElapsedTime == before.nonPositiveElapsedTime + Total(m, Stall)
    && after.counterResets == before.counterResets + Total(m, Reset)
    && after.invalidSamples == before.invalidSamples
  }

  /** The diagnostics of a whole domain: the totals of its clients' counts. */
  ghost function DiagnosticsFor(m: map<ClientId, Faults>): Diagnostics {
    Diagnostics(Total(m, Gap), Total(m, Skip), Total(m, Reset), Total(m, Stall), 0)
  }

  /** First-pass result for one domain.  The source keeps interval times in seconds; here
      they stay in milliseconds. */
  datatype DomainAnalysis = DomainAnalysis(
    runtimes: seq<int>, runtimeToInterval: map<int, nat>,
    clients: map<ClientId, ClientSummary>, fleet: seq<FleetPoint>, diagnostics: Diagnostics)

  /** The fleet's rates over one interval.  The source stores the square root of the variance. */
  datatype FleetPoint = FleetPoint(
    interval: nat, runtimeMs: int, p10: real, median: real, p90: real, clients: nat, mean: real, variance: real)

  function FleetPointOf(values: seq<real>, interval: nat, runtimeMs: int): FleetPoint
    requires values != []
  {
    var count := |values| as real;
    var mean := Div(Sum(values), count);
    FleetPoint(interval, runtimeMs, Percentile(values, 10.0), Percentile(values, 50.0), Percentile(values, 90.0),
               |values|, mean, Div(Deviation(values, mean), count))
  }

  /** An interval in which no client has a rate gets no point. */
  function FleetNote(values: seq<real>, interval: nat, runtimeMs: int): seq<FleetPoint> {
    if values == [] then [] else [FleetPointOf(values, interval, runtimeMs)]
  }

  /** The fleet points of a whole history. */
  ghost function FleetPoints(iv: seq<Interval>): seq<FleetPoint> {
    if iv == [] then []
    else
      var t := |iv| - 1;
      FleetPoints(Front(iv)) + FleetNote(SortedValues(RatesAt(iv, t)), t, iv[t].runtimeMs)
  }

  lemma {:induction false} SumBounds(s: seq<real>, low: real, high: real)
    requires forall i :: 0 <= i < |s| ==> low <= s[i] <= high
    ensures |s| as real * low <= Sum(s) <= |s| as real * high
  {
    if s != [] {
      var n := |s| - 1;
      SumBounds(s[..n], low, high);
      OneMore(n as real, low);
      OneMore(n as real, high);
      assert |s| as real == n as real + 1.0;
    }
  }

  lemma {:induction false} OneMore(n: real, x: real)
    ensures (n + 1.0) * x == n * x + x
  {}

  lemma {:induction false} QuotientBetween(a: real, n: real, low: real, high: real)
    requires n > 0.0 && n * low <= a <= n * high
    ensures low <= Div(a, n) <= high
  {
    var q := a / n;
    assert q * n == a;
    assert Mul(low - q, n) == n * low - a && Mul(q - high, n) == a - n * high;
    if q < low {
      MulPositive(low - q, n);
    } else if q > high {
      MulPositive(q - high, n);
    }
  }

  /** A fleet point is consistent: its percentiles are in order inside the range of the rates, so
      is its mean, and its variance is 0 exactly when all rates are equal. */
  lemma {:induction false} FleetPointBounds(values: seq<real>, interval: nat, runtimeMs: int)
    requires values != [] && Ascending(values)
    ensures var point, low, high := FleetPointOf(values, interval, runtimeMs), values[0], values[|values| - 1];
            && low <= point.p10 <= point.median <= point.p90 <= high && low <= point.mean <= high
            && point.variance >= 0.0 && (point.variance == 0.0 <==> low == high)
  {
    PercentilesInOrder(values);
    MeanBetween(values);
    VarianceMeaning(values, Div(Sum(values), |values| as real));
  }

  /** The percentiles of a fleet point, read off the sorted rates: a tenth, a half and nine tenths
      of the way from the first to the last. */
  lemma {:induction false} FleetQuantiles(values: seq<real>, interval: nat, runtimeMs: int, k: nat, f: real)
    requires k + 1 < |values| && 0.0 <= f <= 1.0
    ensures var point, last := FleetPointOf(values, interval, runtimeMs), (|values| - 1) as real;
            var value := (1.0 - f) * values[k] + f * values[k + 1];
            && (last == 10.0 * (k as real + f) ==> point.p10 == value)
            && (last == 2.0 * (k as real + f) ==> point.median == value)
            && (9.0 * last == 10.0 * (k as real + f) ==> point.p90 == value)
  {
    QuantileIs(values, 10.0, k, f);
    QuantileIs(values, 50.0, k, f);
    QuantileIs(values, 90.0, k, f);
  }

  lemma {:induction false} QuantileIs(values: seq<real>, percentile: real, k: nat, f: real)
    requires 0.0 <= percentile <= 100.0 && k + 1 < |values| && 0.0 <= f <= 1.0
    ensures percentile * (|values| - 1) as real == 100.0 * (k as real + f) ==>
              Percentile(values, percentile) == (1.0 - f) * values[k] + f * values[k + 1]
  {
    if percentile * (|values| - 1) as real == 100.0 * (k as real + f) {
      PercentileIs(values, percentile, k, f);
    }
  }

  /** Its mean is the sum over the count, its variance the mean squared distance from the mean. */
  lemma {:induction false} FleetMoments(values: seq<real>, interval: nat, runtimeMs: int)
    requires values != []
    ensures var point := FleetPointOf(values, interval, runtimeMs);
            && Mul(point.mean, |values| as real) == Sum(values)
            && Mul(point.variance, |values| as real) == Deviation(values, point.mean)
            && point.interval == interval && point.runtimeMs == runtimeMs && point.clients == |values|
  {
    DivMeaning(Sum(values), |values| as real);
    DivMeaning(Deviation(values, Div(Sum(values), |values| as real)), |values| as real);
  }

  lemma {:induction false} DivMeaning(a: real, n: real)
    requires n != 0.0
    ensures Mul(Div(a, n), n) == a
  {}

  lemma {:induction false} PercentilesInOrder(values: seq<real>)
    requires values != [] && Ascending(values)
    ensures values[0] <= Percentile(values, 10.0) <= Percentile(values, 50.0)
    ensures Percentile(values, 50.0) <= Percentile(values, 90.0) <= values[|values| - 1]
  {
    PercentileInRange(values, 10.0);
    PercentileInRange(values, 90.0);
    PercentileMonotone(values, 10.0, 50.0);
    PercentileMonotone(values, 50.0, 90.0);
  }

  lemma {:induction false} MeanBetween(values: seq<real>)
    requires values != [] && Ascending(values)
    ensures values[0] <= Div(Sum(values), |values| as real) <= values[|values| - 1]
  {
    SumBounds(values, values[0], values[|values| - 1]);
    QuotientBetween(Sum(values), |values| as real, values[0], values[|values| - 1]);
  }

  lemma {:induction false} VarianceMeaning(values: seq<real>, mean: real)
    requires values != [] && Ascending(values) && values[0] <= mean <= values[|values| - 1]
    ensures var variance := Div(Deviation(values, mean), |values| as real);
            variance >= 0.0 && (variance == 0.0 <==> values[0] == values[|values| - 1])
  {
    DeviationZero(values, mean);
    ShareOf(Deviation(values, mean), |values| as real);
    assert AllAre(values, mean) <==> values[0] == values[|values| - 1];
  }

  lemma {:induction false} ShareOf(a: real, n: real)
    requires a >= 0.0 && n > 0.0
    ensures Div(a, n) >= 0.0 && (Div(a, n) == 0.0 <==> a == 0.0)
  {
    var q := a / n;
    assert q * n == a;
  }

  /** The last interval with each runtime. */
  ghost function RuntimeIndex(iv: seq<Interval>): map<int, nat> {
    if iv == [] then map[]
    else RuntimeIndex(Front(iv))[iv[|iv| - 1].runtimeMs := |iv| - 1]
  }

  lemma {:induction false} IndexedInterval(iv: seq<Interval>, t: int)
    requires 0 <= t < |iv|
    ensures var index := RuntimeIndex(iv);
            && iv[t].runtimeMs in index && t <= index[iv[t].runtimeMs] < |iv|
            && iv[index[iv[t].runtimeMs]].runtimeMs == iv[t].runtimeMs
  {
    if t < |iv| - 1 {
      IndexedInterval(Front(iv), t);
    }
  }

  /** With strictly increasing runtimes the index is the exact inverse of the interval list. */
  lemma {:induction false} IndexInverts(iv: seq<Interval>, t: int)
    requires Increasing(iv) && 0 <= t < |iv|
    ensures iv[t].runtimeMs in RuntimeIndex(iv) && RuntimeIndex(iv)[iv[t].runtimeMs] == t
  {
    IndexedInterval(iv, t);
  }

  ghost function SummaryMap(iv: seq<Interval>): (r: map<ClientId, ClientSummary>)
    ensures r.Keys == ClientsOf(iv)
  {
    map c | c in ClientsOf(iv) :: SummaryOf(iv, c)
  }

  /** The whole first-pass result, straight from the intervals: every client summarised by
      the reference definitions, every diagnostic the total of the per-client counts. */
  ghost function AnalysisOf(iv: seq<Interval>): DomainAnalysis {
    DomainAnalysis(Runtimes(iv), RuntimeIndex(iv), SummaryMap(iv), FleetPoints(iv), DiagnosticsFor(FaultMap(iv)))
  }

  ghost function PreviousMap(iv: seq<Interval>): map<ClientId, PreviousSample> {
    map c | c in ClientsOf(iv) :: LastSample(iv, c).value
  }

  lemma {:induction false} PreviousIsLast(iv: seq<Interval>)
    ensures forall c :: Get(PreviousMap(iv), c) == LastSample(iv, c)
  {}

  // ----- sample accounting over a domain -----

  /** A dictionary that counts one or two kinds per client totals as those kinds do. */
  lemma {:induction false} TallyIsTotal(t: map<ClientId, int>, m: map<ClientId, Faults>, kinds: set<Kind>)
    requires t.Keys == m.Keys && forall c :: c in t ==> t[c] == CountAmong(m[c], kinds)
    ensures Tally(t) == TotalAmong(m, kinds)
    decreases m.Keys
  {
    if m.Keys == {} {
      assert t == map[] && m == map[];
    } else {
      var c :| c in m;
      TallyTake(t, c);
      TotalTake(m, c, Gap);
      TotalTake(m, c, Stall);
      TotalTake(m, c, Reset);
      TallyIsTotal(t - {c}, m - {c}, kinds);
    }
  }

  ghost function CountAmong(f: Faults, kinds: set<Kind>): nat {
    (if Gap in kinds then f.missing else 0) + (if Stall in kinds then f.stalls else 0)
    + (if Reset in kinds then f.resets else 0)
  }

  ghost function TotalAmong(m: map<ClientId, Faults>, kinds: set<Kind>): nat {
    (if Gap in kinds then Total(m, Gap) else 0) + (if Stall in kinds then Total(m, Stall) else 0)
    + (if Reset in kinds then Total(m, Reset) else 0)
  }

  ghost function MissingCounts(clients: map<ClientId, ClientSummary>): (r: map<ClientId, int>)
    ensures r.Keys == clients.Keys
  {
    map c | c in clients :: clients[c].progress.missing
  }

  ghost function InvalidCounts(clients: map<ClientId, ClientSummary>): (r: map<ClientId, int>)
    ensures r.Keys == clients.Keys
  {
    map c | c in clients :: clients[c].progress.invalid
  }

  /** The domain's diagnostics balance the clients' own counts: missing samples are the sum of
      the clients', resets and stalled clocks together are the sum of their invalid ones, and
      `invalid_samples` is never counted. */
  lemma {:induction false} DomainAccounting(iv: seq<Interval>)
    ensures var a := AnalysisOf(iv);
            && a.diagnostics.missingSamples == Tally(MissingCounts(a.clients))
            && a.diagnostics.counterResets + a.diagnostics.nonPositiveElapsedTime == Tally(InvalidCounts(a.clients))
            && a.diagnostics.invalidSamples == 0
  {
    MissingBalance(iv);
    InvalidBalance(iv);
  }

  lemma {:induction false} MissingBalance(iv: seq<Interval>)
    ensures Tally(MissingCounts(SummaryMap(iv))) == Total(FaultMap(iv), Gap)
  {
    forall c | c in ClientsOf(iv)
      ensures MissingCounts(SummaryMap(iv))[c] == CountAmong(FaultMap(iv)[c], {Gap})
    {
      FaultsInSummary(iv, c);
    }
    TallyIsGap(MissingCounts(SummaryMap(iv)), FaultMap(iv));
  }

  lemma {:induction false} FaultsInSummary(iv: seq<Interval>, c: ClientId)
    ensures SummaryOf(iv, c).progress.missing == CountAmong(FaultsOf(iv, c), {Gap})
    ensures SummaryOf(iv, c).progress.invalid == CountAmong(FaultsOf(iv, c), {Stall, Reset})
  {
    InvalidSplits(iv, c);
  }

  lemma {:induction false} InvalidBalance(iv: seq<Interval>)
    ensures Tally(InvalidCounts(SummaryMap(iv))) == Total(FaultMap(iv), Stall) + Total(FaultMap(iv), Reset)
  {
    forall c | c in ClientsOf(iv)
      ensures InvalidCounts(SummaryMap(iv))[c] == CountAmong(FaultMap(iv)[c], {Stall, Reset})
    {
      FaultsInSummary(iv, c);
    }
    TallyIsInvalid(InvalidCounts(SummaryMap(iv)), FaultMap(iv));
  }

  lemma {:induction false} TallyIsGap(t: map<ClientId, int>, m: map<ClientId, Faults>)
    requires t.Keys == m.Keys && forall c :: c in t ==> t[c] == CountAmong(m[c], {Gap})
    ensures Tally(t) == Total(m, Gap)
  {
    TallyIsTotal(t, m, {Gap});
  }

  lemma {:induction false} TallyIsInvalid(t: map<ClientId, int>, m: map<ClientId, Faults>)
    requires t.Keys == m.Keys && forall c :: c in t ==> t[c] == CountAmong(m[c], {Stall, Reset})
    ensures Tally(t) == Total(m, Stall) + Total(m, Reset)
  {
    TallyIsTotal(t, m, {Stall, Reset});
  }

  // ----- loops over dictionaries -----

  lemma {:induction false} ClientsAppend(iv: seq<Interval>, b: Interval)
    ensures ClientsOf(iv + [b]) == ClientsOf(iv) + b.samples.Keys
  {
    assert Front(iv + [b]) == iv;
  }

  function Missed(s: ClientSummary): ClientSummary {
    s.(progress := s.progress.MarkMissing())
  }

  ghost function AllMissed(clients: map<ClientId, ClientSummary>): (r: map<ClientId, ClientSummary>)
    ensures r.Keys == clients.Keys
  {
    map c | c in clients :: Missed(clients[c])
  }

  method MarkMissingClients(domain: DomainAnalysis, samples: Snapshot) returns (r: DomainAnalysis)
    ensures var absent := domain.clients.Keys - samples.Keys;
            && r == domain.(clients := Overlay(domain.clients, AllMissed(domain.clients), absent),
                            diagnostics := r.diagnostics)
            && Adds(domain.diagnostics, r.diagnostics, AbsentFaults(absent))
  {
    var clients, diagnostics := domain.clients, domain.diagnostics;
    var todo := clients.Keys - samples.Keys;
    ghost var done, target := {}, AllMissed(clients);
    while todo != {}
      invariant done !! todo && done + todo == domain.clients.Keys - samples.Keys
      invariant clients == Overlay(domain.clients, target, done)
      invariant Adds(domain.diagnostics, diagnostics, AbsentFaults(done))
    {
      var c :| c in todo;
      OverlayStep(domain.clients, target, done, c);
      ghost var before := diagnostics;
      clients := clients[c := Missed(clients[c])];
      diagnostics := diagnostics.(missingSamples := diagnostics.missingSamples + 1);
      assert AbsentFaults(done + {c}) - {c} == AbsentFaults(done);
      AddsStep(domain.diagnostics, before, diagnostics, c, AbsentFaults(done), AbsentFaults(done + {c}));
      MoveOne(done, todo, c);
      todo, done := todo - {c}, done + {c};
    }
    assert done == domain.clients.Keys - samples.Keys;
    r := domain.(clients := clients, diagnostics := diagnostics);
  }

  /** One row of `_derive_interval_rates`. */
  method DeriveClient(known: Option<ClientSummary>, prior: Option<PreviousSample>, before: Diagnostics,
                      doneBytes: int, runtimeMs: int, interval: nat)
    returns (summary: ClientSummary, rate: Option<real>, diagnostics: Diagnostics)
    ensures var s := if known.Some? then known.value else NewSummary(interval);
            summary == s.(progress := Derived(s.progress, prior, doneBytes, runtimeMs, interval))
    ensures rate == DeriveRate(prior, doneBytes, runtimeMs, interval)
    ensures AddsOne(before, diagnostics, SampleFault(known.Some?, prior, doneBytes, runtimeMs, interval))
  {
    diagnostics := before;
    if known.None? {
      summary := NewSummary(interval);
      diagnostics := diagnostics.(missingSamples := diagnostics.missingSamples + interval);
    } else {
      summary := known.value;
    }
    var progress := summary.progress.ObserveDoneBytes(doneBytes, runtimeMs, interval);
    rate := DeriveRate(prior, doneBytes, runtimeMs, interval);
    if prior.Some? && prior.value.interval != interval - 1 {
      diagnostics := diagnostics.(nonAdjacentSamples := diagnostics.nonAdjacentSamples + 1);
    } else if prior.Some? && rate.None? {
      progress := progress.MarkInvalid();
      if runtimeMs <= prior.value.runtimeMs {
        diagnostics := diagnostics.(nonPositiveElapsedTime := diagnostics.nonPositiveElapsedTime + 1);
      } else if doneBytes < prior.value.doneBytes {
        diagnostics := diagnostics.(counterResets := diagnostics.counterResets + 1);
      } else {
        assert false;  // the catch-all reason `invalid_samples` is never recorded
      }
    }
    summary := summary.(progress := progress);
  }

  // What `_derive_interval_rates` writes for each client of an interval.

  ghost function NewClients(clients: map<ClientId, ClientSummary>, previous: map<ClientId, PreviousSample>,
                            b: Interval, interval: nat): (r: map<ClientId, ClientSummary>)
    ensures r.Keys == b.samples.Keys
  {
    map c | c in b.samples ::
      var known := if c in clients then clients[c] else NewSummary(interval);
      known.(progress := Derived(known.progress, Get(previous, c), b.samples[c], b.runtimeMs, interval))
  }

  ghost function NewPrevious(b: Interval, interval: nat): (r: map<ClientId, PreviousSample>)
    ensures r.Keys == b.samples.Keys
  {
    map c | c in b.samples :: PreviousSample(b.samples[c], b.runtimeMs, interval)
  }

  ghost function NewRates(previous: map<ClientId, PreviousSample>, b: Interval, interval: nat, done: set<ClientId>)
    : map<ClientId, real>
    requires done <= b.samples.Keys
  {
    map c | c in done && DeriveRate(Get(previous, c), b.samples[c], b.runtimeMs, interval).Some?
      :: DeriveRate(Get(previous, c), b.samples[c], b.runtimeMs, interval).value
  }

  lemma {:induction false} NewRatesStep(previous: map<ClientId, PreviousSample>, b: Interval, interval: nat,
                                        done: set<ClientId>, c: ClientId)
    requires done <= b.samples.Keys && c in b.samples && c !in done
    ensures var rate := DeriveRate(Get(previous, c), b.samples[c], b.runtimeMs, interval);
            NewRates(previous, b, interval, done + {c})
            == if rate.Some? then NewRates(previous, b, interval, done)[c := rate.value]
               else NewRates(previous, b, interval, done)
  {}

  lemma {:induction false} SampleFaultsStep(known: set<ClientId>, previous: map<ClientId, PreviousSample>,
                                            b: Interval, interval: nat, done: set<ClientId>, c: ClientId)
    requires done <= b.samples.Keys && c in b.samples && c !in done
    ensures var more := SampleFaults(known, previous, b, interval, done + {c});
            && more - {c} == SampleFaults(known, previous, b, interval, done)
            && more[c] == SampleFault(c in known, Get(previous, c), b.samples[c], b.runtimeMs, interval)
  {}

  method DeriveIntervalRates(domain: DomainAnalysis, previous: map<ClientId, PreviousSample>, b: Interval,
                             interval: nat)
    returns (rates: map<ClientId, real>, clients: map<ClientId, ClientSummary>,
             latest: map<ClientId, PreviousSample>, diagnostics: Diagnostics)
    ensures clients == Overlay(domain.clients, NewClients(domain.clients, previous, b, interval), b.samples.Keys)
    ensures latest == Overlay(previous, NewPrevious(b, interval), b.samples.Keys)
    ensures rates == NewRates(previous, b, interval, b.samples.Keys)
    ensures Adds(domain.diagnostics, diagnostics,
                 SampleFaults(domain.clients.Keys, previous, b, interval, b.samples.Keys))
  {
    rates, clients, latest, diagnostics := map[], domain.clients, previous, domain.diagnostics;
    var todo := b.samples.Keys;
    ghost var done := {};
    ghost var tc, tp := NewClients(clients, previous, b, interval), NewPrevious(b, interval);
    while todo != {}
      invariant done !! todo && done + todo == b.samples.Keys
      invariant clients == Overlay(domain.clients, tc, done)
      invariant latest == Overlay(previous, tp, done)
      invariant rates == NewRates(previous, b, interval, done)
      invariant Adds(domain.diagnostics, diagnostics,
                     SampleFaults(domain.clients.Keys, previous, b, interval, done))
    {
      var c :| c in todo;
      OverlayStep(domain.clients, tc, done, c);
      OverlayStep(previous, tp, done, c);
      NewRatesStep(previous, b, interval, done, c);
      var summary, rate, updated :=
        DeriveClient(Get(clients, c), Get(latest, c), diagnostics, b.samples[c], b.runtimeMs, interval);
      SampleFaultsStep(domain.clients.Keys, previous, b, interval, done, c);
      AddsStep(domain.diagnostics, diagnostics, updated, c,
               SampleFaults(domain.clients.Keys, previous, b, interval, done),
               SampleFaults(domain.clients.Keys, previous, b, interval, done + {c}));
      diagnostics := updated;
      if rate.Some? {
        rates := rates[c := rate.value];
      }
      clients := clients[c := summary];
      latest := latest[c := PreviousSample(b.samples[c], b.runtimeMs, interval)];
      MoveOne(done, todo, c);
      todo, done := todo - {c}, done + {c};
    }
    assert done == b.samples.Keys;
  }

  ghost function WithRates(clients: map<ClientId, ClientSummary>, rates: map<ClientId, real>, median: real)
    : (r: map<ClientId, ClientSummary>)
    requires rates.Keys <= clients.Keys
    ensures r.Keys == rates.Keys
  {
    map c | c in rates :: clients[c].(rates := clients[c].rates.AddRate(rates[c], median))
  }

  method AddRates(clients: map<ClientId, ClientSummary>, rates: map<ClientId, real>, median: real)
    returns (updated: map<ClientId, ClientSummary>)
    requires rates.Keys <= clients.Keys
    ensures updated == Overlay(clients, WithRates(clients, rates, median), rates.Keys)
  {
    updated := clients;
    var todo := rates.Keys;
    ghost var done, target := {}, WithRates(clients, rates, median);
    while todo != {}
      invariant done !! todo && done + todo == rates.Keys == target.Keys
      invariant updated == Overlay(clients, target, done)
    {
      var c :| c in todo;
      OverlayStep(clients, target, done, c);
      assert target[c] == clients[c].(rates := clients[c].rates.AddRate(rates[c], median));
      assert updated[c] == clients[c];
      updated := updated[c := updated[c].(rates := updated[c].rates.AddRate(rates[c], median))];
      MoveOne(done, todo, c);
      todo, done := todo - {c}, done + {c};
    }
    assert done == rates.Keys;
  }

  method RecordFleetStatistics(clients: map<ClientId, ClientSummary>, rates: map<ClientId, real>, interval: nat,
                               runtimeMs: int)
    returns (updated: map<ClientId, ClientSummary>, points: seq<FleetPoint>)
    requires rates.Keys <= clients.Keys
    ensures updated == Overlay(clients, WithRates(clients, rates, Percentile(SortedValues(rates), 50.0)), rates.Keys)
    ensures points == FleetNote(SortedValues(rates), interval, runtimeMs)
  {
    updated, points := clients, [];
    SortedBag(rates);
    if |rates| == 0 {
      return;
    }
    var values := SortValues(rates);
    points := [FleetPointOf(values, interval, runtimeMs)];
    updated := AddRates(clients, rates, Percentile(values, 50.0));
  }

  // ----- one interval -----

  /** The clients once missing ones are marked and the interval's rows derived. */
  ghost function DerivedClients(clients: map<ClientId, ClientSummary>, previous: map<ClientId, PreviousSample>,
                                b: Interval, interval: nat): (r: map<ClientId, ClientSummary>)
    ensures r.Keys == clients.Keys + b.samples.Keys
  {
    var marked := Overlay(clients, AllMissed(clients), clients.Keys - b.samples.Keys);
    Overlay(marked, NewClients(marked, previous, b, interval), b.samples.Keys)
  }

  /** The clients once the interval's rates have been recorded too. */
  ghost function FlushedClients(clients: map<ClientId, ClientSummary>, previous: map<ClientId, PreviousSample>,
                                b: Interval, interval: nat): (r: map<ClientId, ClientSummary>)
    ensures r.Keys == clients.Keys + b.samples.Keys
  {
    var derived := DerivedClients(clients, previous, b, interval);
    var rates := NewRates(previous, b, interval, b.samples.Keys);
    Overlay(derived, WithRates(derived, rates, Percentile(SortedValues(rates), 50.0)), rates.Keys)
  }

  /** `_flush_interval`: the analysis with one more interval. */
  method FlushInterval(analysis: DomainAnalysis, previous: map<ClientId, PreviousSample>, b: Interval)
    returns (r: DomainAnalysis, latest: map<ClientId, PreviousSample>, ghost d: Diagnostics)
    ensures var n := |analysis.runtimes|;
            && r.runtimes == analysis.runtimes + [b.runtimeMs]
            && r.runtimeToInterval == analysis.runtimeToInterval[b.runtimeMs := n]
            && r.clients == FlushedClients(analysis.clients, previous, b, n)
            && latest == Overlay(previous, NewPrevious(b, n), b.samples.Keys)
            && r.fleet == analysis.fleet
                          + FleetNote(SortedValues(NewRates(previous, b, n, b.samples.Keys)), n, b.runtimeMs)
    ensures Adds(analysis.diagnostics, d, AbsentFaults(analysis.clients.Keys - b.samples.Keys))
    ensures Adds(d, r.diagnostics,
                 SampleFaults(analysis.clients.Keys, previous, b, |analysis.runtimes|, b.samples.Keys))
  {
    var interval := |analysis.runtimes|;
    var marked := MarkMissingClients(analysis, b.samples);
    var rates, clients, prior, diagnostics := DeriveIntervalRates(marked, previous, b, interval);
    assert marked.clients.Keys == analysis.clients.Keys;
    var points;
    clients, points := RecordFleetStatistics(clients, rates, interval, b.runtimeMs);
    latest, d := prior, marked.diagnostics;
    r := DomainAnalysis(analysis.runtimes + [b.runtimeMs], analysis.runtimeToInterval[b.runtimeMs := interval],
                        clients, analysis.fleet + points, diagnostics);
  }

  /** One client's summary after the interval, from its summary and prior sample before. */
  ghost function NextSummary(known: Option<ClientSummary>, prior: Option<PreviousSample>, sample: Option<int>,
                             runtimeMs: int, interval: nat, rate: Option<real>, median: real): ClientSummary {
    var s := if known.Some? then known.value else NewSummary(interval);
    if sample.None? then Missed(s)
    else
      var d := s.(progress := Derived(s.progress, prior, sample.value, runtimeMs, interval));
      if rate.Some? then d.(rates := d.rates.AddRate(rate.value, median)) else d
  }

  lemma {:induction false} DerivedClient(clients: map<ClientId, ClientSummary>,
                                         previous: map<ClientId, PreviousSample>, b: Interval, interval: nat,
                                         c: ClientId)
    requires c in clients.Keys + b.samples.Keys
    ensures DerivedClients(clients, previous, b, interval)[c]
            == NextSummary(Get(clients, c), Get(previous, c), Get(b.samples, c), b.runtimeMs, interval, None, 0.0)
  {
    var marked := Overlay(clients, AllMissed(clients), clients.Keys - b.samples.Keys);
    if c in b.samples {
      assert Get(marked, c) == Get(clients, c);
    }
  }

  lemma {:induction false} FlushedClient(clients: map<ClientId, ClientSummary>,
                                         previous: map<ClientId, PreviousSample>, b: Interval, interval: nat,
                                         c: ClientId)
    requires c in clients.Keys + b.samples.Keys
    ensures var r := FlushedClients(clients, previous, b, interval);
            var rates := NewRates(previous, b, interval, b.samples.Keys);
            c in r && r[c] == NextSummary(Get(clients, c), Get(previous, c), Get(b.samples, c), b.runtimeMs, interval,
                                          Get(rates, c), Percentile(SortedValues(rates), 50.0))
  {
    DerivedClient(clients, previous, b, interval, c);
    var derived := DerivedClients(clients, previous, b, interval);
    var rates := NewRates(previous, b, interval, b.samples.Keys);
    var target := WithRates(derived, rates, Percentile(SortedValues(rates), 50.0));
    var r := Overlay(derived, target, rates.Keys);
    assert c in r && r[c] == if c in rates then target[c] else derived[c];
  }

  /** The online step is the reference definition on one more interval. */
  lemma {:induction false} NextIsSummary(iv: seq<Interval>, b: Interval, c: ClientId)
    requires c in ClientsOf(iv) + b.samples.Keys
    ensures SummaryOf(iv + [b], c)
            == NextSummary(if c in ClientsOf(iv) then Some(SummaryOf(iv, c)) else None, LastSample(iv, c),
                           Get(b.samples, c), b.runtimeMs, |iv|, RateAt(iv + [b], |iv|, c), FleetMedian(iv + [b], |iv|))
  {
    if c !in ClientsOf(iv) {
      Unseen(iv, c);
    }
    StepRates(iv, b, c);
    if c in b.samples {
      StepProgress(iv, b, c);
    } else {
      StepMissing(iv, b, c);
    }
  }

  lemma {:induction false} RatesMatch(iv: seq<Interval>, b: Interval, previous: map<ClientId, PreviousSample>)
    requires forall c :: Get(previous, c) == LastSample(iv, c)
    ensures NewRates(previous, b, |iv|, b.samples.Keys) == RatesAt(iv + [b], |iv|)
  {
    forall c | c in b.samples
      ensures DeriveRate(Get(previous, c), b.samples[c], b.runtimeMs, |iv|) == RateAt(iv + [b], |iv|, c)
    {
      RateIsDerived(iv, b, c);
    }
  }

  lemma {:induction false} FlushedIsSummary(iv: seq<Interval>, b: Interval, c: ClientId,
                                            clients: map<ClientId, ClientSummary>,
                                            previous: map<ClientId, PreviousSample>)
    requires c in ClientsOf(iv) + b.samples.Keys
    requires clients == SummaryMap(iv) && previous == PreviousMap(iv)
    ensures Get(FlushedClients(clients, previous, b, |iv|), c) == Some(SummaryOf(iv + [b], c))
  {
    PreviousIsLast(iv);
    var rates := NewRates(previous, b, |iv|, b.samples.Keys);
    RatesMatch(iv, b, previous);
    FlushedClient(clients, previous, b, |iv|, c);
    NextIsSummary(iv, b, c);
    assert Get(clients, c) == if c in ClientsOf(iv) then Some(SummaryOf(iv, c)) else None;
    assert Get(rates, c) == RateAt(iv + [b], |iv|, c);
  }

  lemma {:induction false} FlushedClientsCorrect(iv: seq<Interval>, b: Interval,
                                                 clients: map<ClientId, ClientSummary>,
                                                 previous: map<ClientId, PreviousSample>)
    requires clients == SummaryMap(iv) && previous == PreviousMap(iv)
    ensures FlushedClients(clients, previous, b, |iv|) == SummaryMap(iv + [b])
  {
    ClientsAppend(iv, b);
    forall c | c in ClientsOf(iv) + b.samples.Keys
      ensures Get(FlushedClients(clients, previous, b, |iv|), c) == Some(SummaryOf(iv + [b], c))
    {
      FlushedIsSummary(iv, b, c, clients, previous);
    }
    SameEntries(FlushedClients(clients, previous, b, |iv|), SummaryMap(iv + [b]));
  }

  lemma {:induction false} ChainAdds(m0: map<ClientId, Faults>, m1: map<ClientId, Faults>,
                                     absent: map<ClientId, Faults>, sampled: map<ClientId, Faults>, d: Diagnostics,
                                     r: Diagnostics)
    requires Adds(DiagnosticsFor(m0), d, absent) && Adds(d, r, sampled)
    requires forall kind :: Total(m1, kind) == Total(m0, kind) + Total(absent, kind) + Total(sampled, kind)
    ensures r == DiagnosticsFor(m1)
  {
    assert r.missingSamples == Total(m1, Gap);
    assert r.nonAdjacentSamples == Total(m1, Skip);
    assert r.nonPositiveElapsedTime == Total(m1, Stall);
    assert r.counterResets == Total(m1, Reset);
  }

  lemma {:induction false} FlushedDiagnostics(iv: seq<Interval>, b: Interval, previous: map<ClientId, PreviousSample>,
                                              d: Diagnostics, r: Diagnostics)
    requires forall c :: Get(previous, c) == LastSample(iv, c)
    requires Adds(DiagnosticsFor(FaultMap(iv)), d, AbsentFaults(ClientsOf(iv) - b.samples.Keys))
    requires Adds(d, r, SampleFaults(ClientsOf(iv), previous, b, |iv|, b.samples.Keys))
    ensures r == DiagnosticsFor(FaultMap(iv + [b]))
  {
    forall kind {
      StepFaultMap(iv, b, previous, kind);
    }
    ChainAdds(FaultMap(iv), FaultMap(iv + [b]), AbsentFaults(ClientsOf(iv) - b.samples.Keys),
              SampleFaults(ClientsOf(iv), previous, b, |iv|, b.samples.Keys), d, r);
  }

  lemma {:induction false} FlushedRuntimes(iv: seq<Interval>, b: Interval)
    ensures Runtimes(iv + [b]) == Runtimes(iv) + [b.runtimeMs]
  {}

  lemma {:induction false} FlushedIndex(iv: seq<Interval>, b: Interval)
    ensures RuntimeIndex(iv + [b]) == RuntimeIndex(iv)[b.runtimeMs := |iv|]
  {
    var more := iv + [b];
    assert Front(more) == iv && more[|more| - 1] == b;
  }

  lemma {:induction false} FlushedPrevious(iv: seq<Interval>, b: Interval)
    ensures Overlay(PreviousMap(iv), NewPrevious(b, |iv|), b.samples.Keys) == PreviousMap(iv + [b])
  {
    assert Front(iv + [b]) == iv;
  }

  /** Flushing the analysis of `iv` gives the analysis of `iv` and the buffered interval. */
  lemma {:induction false} FlushCorrect(iv: seq<Interval>, b: Interval, analysis: DomainAnalysis,
                                        previous: map<ClientId, PreviousSample>, d: Diagnostics, r: DomainAnalysis)
    requires analysis == AnalysisOf(iv) && previous == PreviousMap(iv)
    requires r.runtimes == analysis.runtimes + [b.runtimeMs]
    requires r.runtimeToInterval == analysis.runtimeToInterval[b.runtimeMs := |iv|]
    requires r.clients == FlushedClients(analysis.clients, previous, b, |iv|)
    requires r.fleet == analysis.fleet
                        + FleetNote(SortedValues(NewRates(previous, b, |iv|, b.samples.Keys)), |iv|, b.runtimeMs)
    requires Adds(analysis.diagnostics, d, AbsentFaults(analysis.clients.Keys - b.samples.Keys))
    requires Adds(d, r.diagnostics, SampleFaults(analysis.clients.Keys, previous, b, |iv|, b.samples.Keys))
    ensures r == AnalysisOf(iv + [b])
  {
    FlushedRuntimes(iv, b);
    FlushedIndex(iv, b);
    PreviousIsLast(iv);
    FlushedClientsCorrect(iv, b, analysis.clients, previous);
    FlushedDiagnostics(iv, b, previous, d, r.diagnostics);
    FlushedFleet(iv, b, previous);
  }

  lemma {:induction false} FlushedFleet(iv: seq<Interval>, b: Interval, previous: map<ClientId, PreviousSample>)
    requires forall c :: Get(previous, c) == LastSample(iv, c)
    ensures FleetPoints(iv + [b])
            == FleetPoints(iv) + FleetNote(SortedValues(NewRates(previous, b, |iv|, b.samples.Keys)), |iv|, b.runtimeMs)
  {
    RatesMatch(iv, b, previous);
    var more := iv + [b];
    assert Front(more) == iv && more[|iv|] == b;
  }

  method FlushAnalysed(analysis: DomainAnalysis, previous: map<ClientId, PreviousSample>, b: Interval,
                       ghost iv: seq<Interval>)
    returns (r: DomainAnalysis, latest: map<ClientId, PreviousSample>)
    requires analysis == AnalysisOf(iv) && previous == PreviousMap(iv)
    ensures r == AnalysisOf(iv + [b]) && latest == PreviousMap(iv + [b])
  {
    ghost var d;
    assert |analysis.runtimes| == |iv|;
    r, latest, d := FlushInterval(analysis, previous, b);
    FlushCorrect(iv, b, analysis, previous, d, r);
    FlushedPrevious(iv, b);
  }

  /** The intervals once a row with this runtime is about to be read. */
  ghost function Opened(intervals: seq<Interval>, runtimeMs: int): (r: seq<Interval>)
    ensures r != []
  {
    var n := |intervals|;
    if n > 0 && intervals[n - 1].runtimeMs == runtimeMs then intervals
    else intervals + [Interval(runtimeMs, map[])]
  }

  lemma {:induction false} OpenedThenExtended(intervals: seq<Interval>, row: Row)
    ensures var o := Opened(intervals, row.runtimeMs);
            Extended(intervals, row)
            == o[..|o| - 1] + [o[|o| - 1].(samples := WithRow(o[|o| - 1].samples, row))]
  {}

  /** One domain's analysis with its streaming buffer, the interval being read. */
  datatype DomainState = DomainState(
    analysis: DomainAnalysis, previous: map<ClientId, PreviousSample>, buffer: Interval)

  /** The state describes the intervals `iv`: all but the last are analysed exactly as the
      reference definitions say, the last is buffered. */
  ghost predicate Describes(s: DomainState, iv: seq<Interval>) {
    && iv != []
    && s.buffer == iv[|iv| - 1]
    && s.analysis == AnalysisOf(Front(iv))
    && s.previous == PreviousMap(Front(iv))
  }

  /** The first row of a domain opens its buffer; a row with another runtime flushes it. */
  method AdvanceBuffer(state: Option<DomainState>, runtimeMs: int, ghost iv: seq<Interval>)
    returns (r: DomainState)
    requires if state.Some? then Describes(state.value, iv) else iv == []
    ensures Describes(r, Opened(iv, runtimeMs))
  {
    match state {
      case None =>
        r := DomainState(NoAnalysis, map[], Interval(runtimeMs, map[]));
        OpenedDescribed(r, [], runtimeMs);
      case Some(s) =>
        r := s;
        if s.buffer.runtimeMs != runtimeMs {
          assert Front(iv) + [s.buffer] == iv;
          var analysis, previous := FlushAnalysed(s.analysis, s.previous, s.buffer, Front(iv));
          r := DomainState(analysis, previous, Interval(runtimeMs, map[]));
          OpenedDescribed(r, iv, runtimeMs);
        }
    }
  }

  const NoAnalysis := DomainAnalysis([], map[], map[], [], Diagnostics(0, 0, 0, 0, 0))

  lemma {:induction false} NothingAnalysed()
    ensures AnalysisOf([]) == NoAnalysis && PreviousMap([]) == map[]
  {}

  /** A new buffer after everything before it is analysed. */
  lemma {:induction false} OpenedDescribed(s: DomainState, iv: seq<Interval>, runtimeMs: int)
    requires s.buffer == Interval(runtimeMs, map[]) && (iv != [] ==> iv[|iv| - 1].runtimeMs != runtimeMs)
    requires if iv == [] then s.analysis == NoAnalysis && s.previous == map[]
             else s.analysis == AnalysisOf(iv) && s.previous == PreviousMap(iv)
    ensures Describes(s, Opened(iv, runtimeMs))
  {
    NothingAnalysed();
    assert Front(iv + [Interval(runtimeMs, map[])]) == iv;
  }

  /** One row of the domain. */
  method ObserveRow(state: Option<DomainState>, row: Row, ghost iv: seq<Interval>) returns (r: DomainState)
    requires if state.Some? then Describes(state.value, iv) else iv == []
    ensures Describes(r, Extended(iv, row))
  {
    r := AdvanceBuffer(state, row.runtimeMs, iv);
    OpenedThenExtended(iv, row);
    ghost var open := Opened(iv, row.runtimeMs);
    assert Front(Extended(iv, row)) == Front(open);
    if row.TotalRow? {
      return;
    }
    if row.client.None? || row.doneBytes.None? {
      return;
    }
    r := r.(buffer := r.buffer.(samples := r.buffer.samples[row.client.value := row.doneBytes.value]));
  }

  // ----- a whole file -----

  lemma {:induction false} RowOfDomain(rows: seq<Row>, row: Row, key: DomainKey)
    ensures DomainIntervals(rows + [row], key)
            == if row.key == key then Extended(DomainIntervals(rows, key), row) else DomainIntervals(rows, key)
  {
    RowsOfAppend(rows, row, key);
    IntervalsAppend(RowsOf(rows, key), row);
  }

  lemma {:induction false} NoRows(rows: seq<Row>, key: DomainKey)
    requires key !in KeysOf(rows)
    ensures DomainIntervals(rows, key) == []
  {
    if rows != [] {
      assert rows[|rows| - 1].key != key;
      assert KeysOf(rows[..|rows| - 1]) <= KeysOf(rows);
      NoRows(rows[..|rows| - 1], key);
    }
  }

  /** Every open domain describes its own rows. */
  ghost predicate AllDescribe(states: map<DomainKey, DomainState>, rows: seq<Row>) {
    && states.Keys == KeysOf(rows)
    && EachDescribes(states, rows)
  }

  ghost predicate EachDescribes(states: map<DomainKey, DomainState>, rows: seq<Row>) {
    forall k :: k in states ==> DescribesDomain(states[k], rows, k)
  }

  ghost predicate DescribesDomain(s: DomainState, rows: seq<Row>, k: DomainKey) {
    Describes(s, DomainIntervals(rows, k))
  }

  lemma {:induction false} AllDescribeStep(states: map<DomainKey, DomainState>, rows: seq<Row>, row: Row,
                                           next: DomainState)
    requires AllDescribe(states, rows)
    requires Describes(next, Extended(DomainIntervals(rows, row.key), row))
    ensures AllDescribe(states[row.key := next], rows + [row])
  {
    var after := states[row.key := next];
    KeysAppend(rows, row);
    forall k | k in after
      ensures DescribesDomain(after[k], rows + [row], k)
    {
      DescribesStep(states, rows, row, next, k);
    }
  }

  lemma {:induction false} DescribesStep(states: map<DomainKey, DomainState>, rows: seq<Row>, row: Row,
                                         next: DomainState, k: DomainKey)
    requires k == row.key || (k in states && DescribesDomain(states[k], rows, k))
    requires Describes(next, Extended(DomainIntervals(rows, row.key), row))
    ensures DescribesDomain(states[row.key := next][k], rows + [row], k)
  {
    RowOfDomain(rows, row, k);
    assert states[row.key := next][k] == if k == row.key then next else states[k];
  }

  lemma {:induction false} KeysAppend(rows: seq<Row>, row: Row)
    ensures KeysOf(rows + [row]) == KeysOf(rows) + {row.key}
  {
    forall k | k in KeysOf(rows)
      ensures k in KeysOf(rows + [row])
    {
      var r :| r in rows && r.key == k;
      assert r in rows + [row];
    }
    assert row in rows + [row];
  }

  /** `analyze_live_csv`: one pass over interleaved domains analyses each of them exactly
      as its own rows deserve. */
  method AnalyzeLiveCsv(rows: seq<Row>) returns (domains: map<DomainKey, DomainAnalysis>)
    ensures domains.Keys == KeysOf(rows) && Analysed(domains, rows)
  {
    var states: map<DomainKey, DomainState> := map[];
    for i := 0 to |rows|
      invariant AllDescribe(states, rows[..i])
    {
      states := ObserveFileRow(states, rows[i], rows[..i]);
      assert rows[..i + 1] == rows[..i] + [rows[i]];
    }
    assert rows[..|rows|] == rows;
    domains := FlushAll(states, rows);
  }

  method ObserveFileRow(states: map<DomainKey, DomainState>, row: Row, ghost rows: seq<Row>)
    returns (r: map<DomainKey, DomainState>)
    requires AllDescribe(states, rows)
    ensures AllDescribe(r, rows + [row])
  {
    var state := if row.key in states then Some(states[row.key]) else None;
    if state.None? {
      NoRows(rows, row.key);
    } else {
      assert DescribesDomain(state.value, rows, row.key);
    }
    var next := ObserveRow(state, row, DomainIntervals(rows, row.key));
    AllDescribeStep(states, rows, row, next);
    r := states[row.key := next];
  }

  method FlushDomain(states: map<DomainKey, DomainState>, k: DomainKey, ghost rows: seq<Row>)
    returns (r: DomainAnalysis)
    requires k in states && EachDescribes(states, rows)
    ensures IsAnalysis(r, rows, k)
  {
    var state := states[k];
    ghost var iv := DomainIntervals(rows, k);
    assert DescribesDomain(state, rows, k);
    assert Front(iv) + [iv[|iv| - 1]] == iv;
    var analysis, _ := FlushAnalysed(state.analysis, state.previous, state.buffer, Front(iv));
    r := analysis;
  }

  /** Every domain listed has the analysis its rows define. */
  ghost predicate Analysed(domains: map<DomainKey, DomainAnalysis>, rows: seq<Row>) {
    forall k :: k in domains ==> IsAnalysis(domains[k], rows, k)
  }

  ghost predicate IsAnalysis(analysis: DomainAnalysis, rows: seq<Row>, k: DomainKey) {
    analysis == AnalysisOf(DomainIntervals(rows, k))
  }

  /** Every domain outside `todo` has been flushed. */
  ghost predicate FlushedBut(domains: map<DomainKey, DomainAnalysis>, all: set<DomainKey>, todo: set<DomainKey>,
                             rows: seq<Row>) {
    todo <= all && domains.Keys == all - todo && Analysed(domains, rows)
  }

  lemma {:induction false} FlushedOne(domains: map<DomainKey, DomainAnalysis>, all: set<DomainKey>,
                                      todo: set<DomainKey>, rows: seq<Row>, k: DomainKey, analysis: DomainAnalysis)
    requires FlushedBut(domains, all, todo, rows) && k in todo && IsAnalysis(analysis, rows, k)
    ensures FlushedBut(domains[k := analysis], all, todo - {k}, rows)
  {
    var more := domains[k := analysis];
    assert more.Keys == all - (todo - {k});
    forall j | j in more
      ensures IsAnalysis(more[j], rows, j)
    {
      assert j == k || IsAnalysis(domains[j], rows, j);
    }
  }

  method FlushAll(states: map<DomainKey, DomainState>, ghost rows: seq<Row>)
    returns (domains: map<DomainKey, DomainAnalysis>)
    requires EachDescribes(states, rows)
    ensures domains.Keys == states.Keys && Analysed(domains, rows)
  {
    domains := map[];
    var todo := states.Keys;
    while todo != {}
      invariant FlushedBut(domains, states.Keys, todo, rows)
      decreases todo
    {
      var k :| k in todo;
      var analysis := FlushDomain(states, k, rows);
      FlushedOne(domains, states.Keys, todo, rows, k, analysis);
      domains := domains[k := analysis];
      todo := todo - {k};
    }
  }
}
