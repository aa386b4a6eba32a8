/** The third pass's result: rates and ratios of chosen clients in every 5 s window. */
module ClientDetail {
  import opened LiveRows
  import opened Dictionaries
  import opened Sums
  import opened StableSort
  import opened ClientHistory
  import opened RateLaws
  import opened FirstPass
  import opened IntervalSnapshots
  import opened SnapshotRing
  import opened ClientWindows
  import opened SteadyStats
  import opened SteadyPass

  /** Per client, one value for each window of the series. */
  datatype Detail = Detail(
    chosen: seq<ClientId>, rates: map<ClientId, seq<Option<real>>>, ratios: map<ClientId, seq<Option<real>>>)

  /** The windows end inside the domain and start at or after its first interval. */
  ghost predicate EndsIn(points: seq<WindowPoint>, length: nat, intervals: nat) {
    forall k :: 0 <= k < |points| ==> length <= points[k].end < intervals
  }

  function RateOver(bytes: Option<int>, elapsedMs: int): Option<real> {
    if bytes.Some? && elapsedMs > 0 then Some(MiBPerSecond(bytes.value, elapsedMs)) else None
  }

  function RatioTo(bytes: Option<int>, median: Option<real>): Option<real> {
    if bytes.Some? && median.Some? && median.value != 0.0 then Some(bytes.value as real / median.value) else None
  }

  /** A client's bytes in the window ending at `end`, from full history. */
  ghost function BytesIn(h: seq<Snapshot>, length: nat, end: int, c: ClientId): Option<int>
    requires length <= end < |h|
  {
    Get(WindowEnding(h, length, end), c)
  }

  ghost predicate RatesOf(rates: seq<Option<real>>, h: seq<Snapshot>, runtimes: seq<int>, points: seq<WindowPoint>,
                          length: nat, c: ClientId)
    requires |runtimes| == |h| && EndsIn(points, length, |h|)
  {
    |rates| == |points| && forall k :: 0 <= k < |points| ==>
      rates[k] == RateOver(BytesIn(h, length, points[k].end, c),
                           runtimes[points[k].end] - runtimes[points[k].end - length])
  }

  ghost predicate RatiosOf(ratios: seq<Option<real>>, h: seq<Snapshot>, points: seq<WindowPoint>, length: nat,
                           c: ClientId)
    requires EndsIn(points, length, |h|)
  {
    |ratios| == |points| && forall k :: 0 <= k < |points| ==>
      ratios[k] == RatioTo(BytesIn(h, length, points[k].end, c), points[k].median)
  }

  /** Each client once, in the order of first mention. */
  method Deduplicate(clients: seq<ClientId>) returns (chosen: seq<ClientId>)
    ensures Distinct(chosen) && Within(chosen, clients) && Within(clients, chosen)
  {
    chosen := [];
    for i := 0 to |clients|
      invariant Distinct(chosen) && Within(chosen, clients[..i]) && Within(clients[..i], chosen)
    {
      assert clients[..i + 1] == clients[..i] + [clients[i]];
      if clients[i] !in chosen {
        chosen := chosen + [clients[i]];
      }
    }
    assert clients[..|clients|] == clients;
  }

  function ByteAt(byEnd: map<int, Snapshot>, end: int, c: ClientId): Option<int> {
    if end in byEnd then Get(byEnd[end], c) else None
  }

  /** Rates and ratios of one client in the first windows. */
  ghost predicate RowSoFar(rates: seq<Option<real>>, ratios: seq<Option<real>>, h: seq<Snapshot>, runtimes: seq<int>,
                           points: seq<WindowPoint>, length: nat, c: ClientId)
    requires |runtimes| == |h| && EndsIn(points, length, |h|)
  {
    RatesOf(rates, h, runtimes, points, length, c) && RatiosOf(ratios, h, points, length, c)
  }

  /** One client's row of rates and of ratios. */
  method ClientRow(byEnd: map<int, Snapshot>, runtimes: seq<int>, points: seq<WindowPoint>, length: nat, c: ClientId,
                   ghost h: seq<Snapshot>)
    returns (rates: seq<Option<real>>, ratios: seq<Option<real>>)
    requires |runtimes| == |h| && EndsIn(points, length, |h|)
    requires byEnd == WindowsBefore(h, length, EndsOf(points), |h|)
    ensures RowSoFar(rates, ratios, h, runtimes, points, length, c)
  {
    rates, ratios := [], [];
    for k := 0 to |points|
      invariant RowSoFar(rates, ratios, h, runtimes, points[..k], length, c)
    {
      var rate, ratio := ClientWindow(byEnd, runtimes, points, length, k, c, h);
      RowGrows(rates, ratios, h, runtimes, points, length, k, c);
      rates, ratios := rates + [rate], ratios + [ratio];
    }
    assert points[..|points|] == points;
  }

  method ClientWindow(byEnd: map<int, Snapshot>, runtimes: seq<int>, points: seq<WindowPoint>, length: nat, k: nat,
                      c: ClientId, ghost h: seq<Snapshot>)
    returns (rate: Option<real>, ratio: Option<real>)
    requires |runtimes| == |h| && EndsIn(points, length, |h|) && k < |points|
    requires byEnd == WindowsBefore(h, length, EndsOf(points), |h|)
    ensures var end, bytes := points[k].end, BytesIn(h, length, points[k].end, c);
            && rate == RateOver(bytes, runtimes[end] - runtimes[end - length])
            && ratio == RatioTo(bytes, points[k].median)
  {
    var end := points[k].end;
    var bytes := ByteAt(byEnd, end, c);
    FoundAt(byEnd, h, points, length, k, c);
    rate := RateOver(bytes, runtimes[end] - runtimes[end - length]);
    ratio := RatioTo(bytes, points[k].median);
  }

  function EndsOf(points: seq<WindowPoint>): set<int> {
    set k | 0 <= k < |points| :: points[k].end
  }

  lemma {:induction false} FoundAt(byEnd: map<int, Snapshot>, h: seq<Snapshot>, points: seq<WindowPoint>, length: nat,
                                   k: nat, c: ClientId)
    requires EndsIn(points, length, |h|) && k < |points|
    requires byEnd == WindowsBefore(h, length, EndsOf(points), |h|)
    ensures ByteAt(byEnd, points[k].end, c) == BytesIn(h, length, points[k].end, c)
  {
    assert points[k].end in EndsOf(points);
  }

  lemma {:induction false} RowGrows(rates: seq<Option<real>>, ratios: seq<Option<real>>, h: seq<Snapshot>,
                                    runtimes: seq<int>, points: seq<WindowPoint>, length: nat, k: nat, c: ClientId)
    requires |runtimes| == |h| && EndsIn(points, length, |h|) && k < |points|
    requires RowSoFar(rates, ratios, h, runtimes, points[..k], length, c)
    ensures var end, bytes := points[k].end, BytesIn(h, length, points[k].end, c);
            RowSoFar(rates + [RateOver(bytes, runtimes[end] - runtimes[end - length])],
                     ratios + [RatioTo(bytes, points[k].median)], h, runtimes, points[..k + 1], length, c)
  {
    assert points[..k + 1] == points[..k] + [points[k]];
  }

  ghost function ClientSet(clients: seq<ClientId>): set<ClientId> {
    set c | c in clients
  }

  lemma {:induction false} ClientSetAppend(clients: seq<ClientId>, c: ClientId)
    ensures ClientSet(clients + [c]) == ClientSet(clients) + {c}
  {}

  lemma {:induction false} SameClients(a: seq<ClientId>, b: seq<ClientId>)
    requires Within(a, b) && Within(b, a)
    ensures ClientSet(a) == ClientSet(b)
  {}

  /** `collect_windowed_client_detail`: for every client asked for, and every window of the series,
      the rate and ratio its bytes in that window's full history give. */
  method CollectWindowedDetail(rows: seq<Row>, key: DomainKey, toInterval: map<int, nat>, runtimes: seq<int>,
                               hasClients: bool, length: nat, points: seq<WindowPoint>, clients: seq<ClientId>)
    returns (d: Detail)
    requires var iv := DomainIntervals(rows, key);
             && toInterval == RuntimeIndex(iv) && runtimes == Runtimes(iv) && (hasClients <==> ClientsOf(iv) != {})
    requires EndsIn(points, length, |runtimes|)
    ensures Distinct(d.chosen) && Within(d.chosen, clients) && Within(clients, d.chosen)
    ensures var h := Streamed(rows, key, Some(ClientSet(clients)));
            |h| == |runtimes| && RowsFor(d.rates, d.ratios, h, runtimes, points, length, clients)
  {
    var chosen := Deduplicate(clients);
    SameClients(chosen, clients);
    StreamedExactly(rows, key, Some(ClientSet(clients)));
    var byEnd := WindowsOf(rows, key, toInterval, |runtimes|, hasClients, length, EndsOf(points), chosen);
    var rates, ratios :=
      AllRows(byEnd, runtimes, points, length, chosen, Streamed(rows, key, Some(ClientSet(clients))));
    d := Detail(chosen, rates, ratios);
  }

  method WindowsOf(rows: seq<Row>, key: DomainKey, toInterval: map<int, nat>, intervals: nat, hasClients: bool,
                   length: nat, ends: set<int>, chosen: seq<ClientId>)
    returns (byEnd: map<int, Snapshot>)
    requires var iv := DomainIntervals(rows, key);
             && toInterval == RuntimeIndex(iv) && intervals == |iv| && (hasClients <==> ClientsOf(iv) != {})
    ensures var h := Streamed(rows, key, Some(ClientSet(chosen)));
            chosen != [] ==> |h| == intervals && byEnd == WindowsBefore(h, length, ends, |h|)
  {
    byEnd := ClientWindowDeltas(rows, key, toInterval, intervals, hasClients, length, ends, chosen);
    assert (set c | c in chosen) == ClientSet(chosen);
  }

  /** The loop over the clients. */
  method AllRows(byEnd: map<int, Snapshot>, runtimes: seq<int>, points: seq<WindowPoint>, length: nat,
                 chosen: seq<ClientId>, ghost h: seq<Snapshot>)
    returns (rates: map<ClientId, seq<Option<real>>>, ratios: map<ClientId, seq<Option<real>>>)
    requires |runtimes| == |h| && EndsIn(points, length, |h|)
    requires chosen != [] ==> byEnd == WindowsBefore(h, length, EndsOf(points), |h|)
    ensures RowsFor(rates, ratios, h, runtimes, points, length, chosen)
  {
    rates, ratios := map[], map[];
    for i := 0 to |chosen|
      invariant RowsFor(rates, ratios, h, runtimes, points, length, chosen[..i])
    {
      var r, q := ClientRow(byEnd, runtimes, points, length, chosen[i], h);
      RowsForOneMore(rates, ratios, h, runtimes, points, length, chosen, i, r, q);
      rates, ratios := rates[chosen[i] := r], ratios[chosen[i] := q];
    }
    assert chosen[..|chosen|] == chosen;
  }

  ghost predicate RowsFor(rates: map<ClientId, seq<Option<real>>>, ratios: map<ClientId, seq<Option<real>>>,
                          h: seq<Snapshot>, runtimes: seq<int>, points: seq<WindowPoint>, length: nat,
                          clients: seq<ClientId>)
    requires |runtimes| == |h| && EndsIn(points, length, |h|)
  {
    && rates.Keys == ratios.Keys == ClientSet(clients)
    && forall c :: c in rates ==> RowSoFar(rates[c], ratios[c], h, runtimes, points, length, c)
  }

  lemma {:induction false} RowsForOneMore(rates: map<ClientId, seq<Option<real>>>,
                                          ratios: map<ClientId, seq<Option<real>>>, h: seq<Snapshot>,
                                          runtimes: seq<int>, points: seq<WindowPoint>, length: nat,
                                          chosen: seq<ClientId>, i: nat, r: seq<Option<real>>, q: seq<Option<real>>)
    requires |runtimes| == |h| && EndsIn(points, length, |h|) && i < |chosen|
    requires RowsFor(rates, ratios, h, runtimes, points, length, chosen[..i])
    requires RowSoFar(r, q, h, runtimes, points, length, chosen[i])
    ensures RowsFor(rates[chosen[i] := r], ratios[chosen[i] := q], h, runtimes, points, length, chosen[..i + 1])
  {
    assert chosen[..i + 1] == chosen[..i] + [chosen[i]];
    ClientSetAppend(chosen[..i], chosen[i]);
  }

  // ----- pass 3 shows the ratios pass 2 counted -----

  lemma {:induction false} MedianOfPoint(bytes: Snapshot, end: int, endMs: int, inSteady: bool,
                                         blockSize: Option<int>, c: ClientId)
    ensures RatioTo(Get(bytes, c), PointFrom(SortedValues(Reals(bytes)), end, endMs, inSteady, blockSize).median)
            == RatioIn(bytes, c)
  {
    SortedBag(Reals(bytes));
    if c in bytes {
      assert Reals(bytes).Keys != {};
      assert |Reals(bytes)| == |Reals(bytes).Keys| > 0;
    }
  }

  /** Without echoes the chosen clients' bytes are those of pass 2's window. */
  lemma {:induction false} BytesAgree(rows: seq<Row>, key: DomainKey, clients: seq<ClientId>, length: nat, end: int,
                                      c: ClientId)
    requires NoEcho(DomainIntervals(rows, key), None) && c in clients
    requires length <= end < |DomainIntervals(rows, key)|
    ensures |Streamed(rows, key, Some(ClientSet(clients)))| == |DomainIntervals(rows, key)|
    ensures BytesIn(Streamed(rows, key, Some(ClientSet(clients))), length, end, c)
            == BytesIn(Snapshots(DomainIntervals(rows, key)), length, end, c)
  {
    var h := Snapshots(DomainIntervals(rows, key));
    StreamedIsRestricted(rows, key, Some(ClientSet(clients)));
    RestrictedBytes(h, Some(ClientSet(clients)), length, end, c);
  }

  lemma {:induction false} StreamedIsRestricted(rows: seq<Row>, key: DomainKey, wanted: Option<set<ClientId>>)
    requires NoEcho(DomainIntervals(rows, key), None)
    ensures Streamed(rows, key, wanted) == RestrictHistory(Snapshots(DomainIntervals(rows, key)), wanted)
  {
    FewerClientsNoEcho(DomainIntervals(rows, key), wanted);
    StreamedExactly(rows, key, wanted);
    RestrictedBoth(DomainIntervals(rows, key), wanted);
  }

  lemma {:induction false} RestrictedBoth(iv: seq<Interval>, wanted: Option<set<ClientId>>)
    ensures RestrictedSnapshots(iv, wanted) == RestrictHistory(Snapshots(iv), wanted)
  {}

  lemma {:induction false} RestrictedBytes(h: seq<Snapshot>, wanted: Option<set<ClientId>>, length: nat, end: int,
                                           c: ClientId)
    requires length <= end < |h| && Wants(wanted, c)
    ensures BytesIn(RestrictHistory(h, wanted), length, end, c) == BytesIn(h, length, end, c)
  {
    RestrictedWindow(h, wanted, end - length, end);
  }

  /** Without echoes, the ratio that pass 3 shows for a chosen client in a window of pass 2's series
      is the ratio pass 2 judged it by in that window, and there is none where pass 2 had none. */
  lemma {:induction false} RatiosAgree(rows: seq<Row>, key: DomainKey, p: Settings, blockSize: Option<int>,
                                       length: nat, clients: seq<ClientId>, points: seq<WindowPoint>,
                                       ratios: seq<Option<real>>, c: ClientId, k: nat)
    requires NoEcho(DomainIntervals(rows, key), None) && c in clients && length + k < |p.runtimes|
    requires |p.runtimes| == |DomainIntervals(rows, key)| == |Streamed(rows, key, Some(ClientSet(clients)))|
    requires points == PointsBefore(Snapshots(DomainIntervals(rows, key)), p, blockSize, length, |p.runtimes|)
    requires EndsIn(points, length, |p.runtimes|)
    requires RatiosOf(ratios, Streamed(rows, key, Some(ClientSet(clients))), points, length, c)
    ensures k < |ratios| == |points| && points[k].end == length + k
    ensures ratios[k] == RatioIn(WindowEnding(Snapshots(DomainIntervals(rows, key)), length, length + k), c)
  {
    BytesAgree(rows, key, clients, length, length + k, c);
    SameRatio(Streamed(rows, key, Some(ClientSet(clients))), Snapshots(DomainIntervals(rows, key)), p, blockSize,
              length, points, ratios, c, k);
  }

  /** The same for any histories that give the client the same bytes in the window. */
  lemma {:induction false} SameRatio(some: seq<Snapshot>, h: seq<Snapshot>, p: Settings, blockSize: Option<int>,
                                     length: nat, points: seq<WindowPoint>, ratios: seq<Option<real>>, c: ClientId,
                                     k: nat)
    requires |some| == |h| == |p.runtimes| && EndsIn(points, length, |h|) && length + k < |h|
    requires points == PointsBefore(h, p, blockSize, length, |h|) && RatiosOf(ratios, some, points, length, c)
    requires BytesIn(some, length, length + k, c) == BytesIn(h, length, length + k, c)
    ensures k < |ratios| == |points| && points[k].end == length + k
    ensures ratios[k] == RatioIn(WindowEnding(h, length, length + k), c)
  {
    PointsAre(h, p, blockSize, length, k);
    JudgedRatio(h, p, blockSize, length, length + k, c);
    RatioRead(ratios, some, points, length, c, k);
  }

  lemma {:induction false} RatioRead(ratios: seq<Option<real>>, h: seq<Snapshot>, points: seq<WindowPoint>,
                                     length: nat, c: ClientId, k: nat)
    requires EndsIn(points, length, |h|) && RatiosOf(ratios, h, points, length, c) && k < |points|
    ensures k < |ratios| && ratios[k] == RatioTo(BytesIn(h, length, points[k].end, c), points[k].median)
  {}

  lemma {:induction false} JudgedRatio(h: seq<Snapshot>, p: Settings, blockSize: Option<int>, length: nat, t: int,
                                       c: ClientId)
    requires length <= t < |h| && t < |p.runtimes|
    ensures PointAt(h, p, blockSize, length, t).end == t
    ensures RatioTo(BytesIn(h, length, t, c), PointAt(h, p, blockSize, length, t).median)
            == RatioIn(WindowEnding(h, length, t), c)
  {
    MedianOfPoint(WindowEnding(h, length, t), t, p.runtimes[t], InSteady(p, length, t), blockSize, c);
  }

  lemma {:induction false} PointsAre(h: seq<Snapshot>, p: Settings, blockSize: Option<int>, length: nat, k: nat)
    requires |h| == |p.runtimes| && length + k < |h|
    ensures k < |PointsBefore(h, p, blockSize, length, |h|)|
    ensures PointsBefore(h, p, blockSize, length, |h|)[k] == PointAt(h, p, blockSize, length, length + k)
  {}

  // ----- what the detail says -----

  /** A rate, if there is one, gives back the bytes over the elapsed milliseconds. */
  ghost predicate RateFits(rate: Option<real>, bytes: Option<int>, elapsedMs: int) {
    && (rate.Some? <==> bytes.Some? && elapsedMs > 0)
    && (rate.Some? ==> rate.value * elapsedMs as real * 1048576.0 == bytes.value as real * 1000.0)
  }

  /** A ratio, if there is one, is the share of the window's median. */
  ghost predicate RatioFits(ratio: Option<real>, bytes: Option<int>, median: Option<real>) {
    && (ratio.Some? <==> bytes.Some? && median.Some? && median.value != 0.0)
    && (ratio.Some? ==> Mul(ratio.value, median.value) == bytes.value as real)
  }

  lemma {:induction false} RateOverFits(bytes: Option<int>, elapsedMs: int)
    ensures RateFits(RateOver(bytes, elapsedMs), bytes, elapsedMs)
  {
    if bytes.Some? && elapsedMs > 0 {
      RateMeaning(bytes.value, elapsedMs);
    }
  }

  lemma {:induction false} RatioToFits(bytes: Option<int>, median: Option<real>)
    ensures RatioFits(RatioTo(bytes, median), bytes, median)
  {}

  /** Every rate and ratio collected, against the client's bytes in that window. */
  lemma {:induction false} DetailMeaning(rates: seq<Option<real>>, ratios: seq<Option<real>>, h: seq<Snapshot>,
                                         runtimes: seq<int>, points: seq<WindowPoint>, length: nat, c: ClientId, k: nat)
    requires |runtimes| == |h| && EndsIn(points, length, |h|) && k < |points|
    requires RatesOf(rates, h, runtimes, points, length, c) && RatiosOf(ratios, h, points, length, c)
    ensures var end := points[k].end;
            var bytes := Get(WindowEnding(h, length, end), c);
            && RateFits(rates[k], bytes, runtimes[end] - runtimes[end - length])
            && RatioFits(ratios[k], bytes, points[k].median)
  {
    var end := points[k].end;
    var bytes := BytesIn(h, length, end, c);
    RateOverFits(bytes, runtimes[end] - runtimes[end - length]);
    RatioToFits(bytes, points[k].median);
  }
}
