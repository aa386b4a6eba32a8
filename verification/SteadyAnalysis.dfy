/** The second pass over a file: re-stream the rows into snapshots and feed them through. */
module SteadyAnalysis {
  import opened LiveRows
  import opened ClientHistory
  import opened Sums
  import opened FirstPass
  import opened IntervalSnapshots
  import opened StreamTail
  import opened SteadyStats
  import opened SteadyTheorems
  import opened SteadyPass

  /** The client reports and the three window series. */
  datatype SteadyReport = SteadyReport(
    clients: map<ClientId, ClientSteady>, interval: seq<WindowPoint>, five: seq<WindowPoint>, thirty: seq<WindowPoint>)

  /** Some client moved data. */
  ghost predicate AnyStarted(iv: seq<Interval>) {
    exists c :: c in ClientsOf(iv) && FirstProgress(iv, c).Some?
  }

  ghost predicate BoundsIn(p: Settings) {
    p.window.Some? ==> p.window.value.start <= p.window.value.end < |p.runtimes|
  }

  /** The report that a history of snapshots defines. */
  ghost predicate ReportsOn(r: SteadyReport, h: seq<Snapshot>, p: Settings, blockSize: Option<int>,
                            clientIds: set<ClientId>)
    requires |h| == |p.runtimes| && BoundsIn(p)
  {
    && r.interval == PointsBefore(h, p, blockSize, 1, |h|)
    && r.five == PointsBefore(h, p, blockSize, p.length5s, |h|)
    && r.thirty == PointsBefore(h, p, blockSize, p.length30s, |h|)
    && clientIds <= r.clients.Keys && Covers(h, p, r.clients.Keys)
    && forall c :: c in r.clients ==>
         r.clients[c] == if p.window.Some? then FinalOf(h, p, r.clients.Keys, c) else NewClient
  }

  /** `analyze_steady`: every client's report and every window point is the one the streamed
      snapshots define, and the one the intervals of the first pass define when no interval with
      samples is echoed; when nobody moved data the file is not read again and every client's
      report is blank. */
  method AnalyzeSteady(rows: seq<Row>, key: DomainKey, toInterval: map<int, nat>, clientIds: set<ClientId>,
                       started: bool, p: Settings, blockSize: Option<int>)
    returns (r: SteadyReport)
    requires var iv := DomainIntervals(rows, key);
             && toInterval == RuntimeIndex(iv) && |p.runtimes| == |iv| && clientIds == ClientsOf(iv)
             && (started <==> AnyStarted(iv)) && BoundsIn(p)
    ensures var iv := DomainIntervals(rows, key);
            && |Streamed(rows, key, None)| == |iv|
            && (AnyStarted(iv) ==> ReportsOn(r, Streamed(rows, key, None), p, blockSize, clientIds))
            && (AnyStarted(iv) && NoEcho(iv, None) ==> ReportsOn(r, Snapshots(iv), p, blockSize, clientIds))
            && (!AnyStarted(iv) ==> r == SteadyReport(map c | c in clientIds :: NewClient, [], [], []))
  {
    StreamedExactly(rows, key, None);
    if !started {
      return SteadyReport(map c | c in clientIds :: NewClient, [], [], []);
    }
    ghost var iv := DomainIntervals(rows, key);
    var snapshots := IterIntervalSnapshots(rows, key, toInterval, |p.runtimes|, clientIds != {}, None);
    EveryoneWanted(iv);
    r := RunPass(snapshots, p, blockSize, clientIds);
  }

  method RunPass(snapshots: seq<Snapshot>, p: Settings, blockSize: Option<int>, clientIds: set<ClientId>)
    returns (r: SteadyReport)
    requires |snapshots| == |p.runtimes| && BoundsIn(p)
    ensures ReportsOn(r, snapshots, p, blockSize, clientIds)
  {
    var pass := new Pass(p, blockSize, clientIds, snapshots);
    for interval := 0 to |snapshots|
      invariant fresh(pass) && fresh(pass.ring) && pass.p == p && pass.full == snapshots && pass.blockSize == blockSize
      invariant pass.Valid(interval) && clientIds <= pass.clients.Keys
    {
      pass.Complete(interval, snapshots[interval]);
    }
    ghost var unfinished := pass.clients;
    CountedIsKnown(unfinished, snapshots, p);
    if p.window.None? {
      BlankWithoutWindow(unfinished, snapshots, p);
    }
    pass.Finish();
    r := SteadyReport(pass.clients, pass.pointsInterval, pass.points5s, pass.points30s);
  }

  lemma {:induction false} NoCountsWithoutWindow(h: seq<Snapshot>, p: Settings, size: Size, n: nat, c: ClientId)
    requires n <= |h| && n <= |p.runtimes| && p.window.None?
    ensures StatsBefore(h, p, size, n, c) == NoWindows
  {
    if n > 0 {
      NoCountsWithoutWindow(h, p, size, n - 1, c);
    }
  }

  lemma {:induction false} BlankWithoutWindow(clients: map<ClientId, ClientSteady>, h: seq<Snapshot>, p: Settings)
    requires |h| == |p.runtimes| && p.window.None? && Unfinished(clients)
    requires CountsMatch(clients, h, p, FiveSeconds, |h|) && CountsMatch(clients, h, p, ThirtySeconds, |h|)
    ensures forall c :: c in clients ==> clients[c] == NewClient
  {
    forall c | c in clients
      ensures clients[c] == NewClient
    {
      CountsOf(clients, h, p, c);
      NoCountsWithoutWindow(h, p, FiveSeconds, |h|, c);
      NoCountsWithoutWindow(h, p, ThirtySeconds, |h|, c);
    }
  }

  lemma {:induction false} EveryoneWanted(iv: seq<Interval>)
    ensures RestrictedSnapshots(iv, None) == Snapshots(iv)
  {}

  // ----- the tail of a file -----

  lemma {:induction false} SameRuntimes(common: seq<Row>, tail: seq<Row>, key: DomainKey, n: nat)
    requires n <= |DomainIntervals(common, key)|
    ensures n <= |DomainIntervals(common + tail, key)|
    ensures Runtimes(DomainIntervals(common + tail, key))[..n] == Runtimes(DomainIntervals(common, key))[..n]
  {
    TailGrows(common, tail, key);
  }

  /** Two files that start with the same rows, whose tails both leave the snapshots of those rows
      as they were, get the same report for every client they share, if the steady window ends
      before the tails begin. */
  lemma {:induction false} SparedFilesAgree(common: seq<Row>, tail1: seq<Row>, tail2: seq<Row>, key: DomainKey,
                                            p1: Settings, p2: Settings, r1: SteadyReport, r2: SteadyReport,
                                            blockSize: Option<int>, c: ClientId)
    requires p1.runtimes == Runtimes(DomainIntervals(common + tail1, key)) && BoundsIn(p1)
    requires p2.runtimes == Runtimes(DomainIntervals(common + tail2, key)) && BoundsIn(p2)
    requires |Streamed(common + tail1, key, None)| == |p1.runtimes|
    requires |Streamed(common + tail2, key, None)| == |p2.runtimes|
    requires p1.window.Some? && p1 == p2.(runtimes := p1.runtimes)
    requires p1.window.value.end < |DomainIntervals(common, key)|
    requires ReportsOn(r1, Streamed(common + tail1, key, None), p1, blockSize, {})
    requires ReportsOn(r2, Streamed(common + tail2, key, None), p2, blockSize, {})
    requires c in r1.clients && c in r2.clients
    requires Streamed(common, key, None) <= Streamed(common + tail1, key, None)
    requires Streamed(common, key, None) <= Streamed(common + tail2, key, None)
    ensures r1.clients[c] == r2.clients[c]
  {
    var h1, h2 := Streamed(common + tail1, key, None), Streamed(common + tail2, key, None);
    var n := p1.window.value.end + 1;
    StreamedExactly(common, key, None);
    SamePrefix(Streamed(common, key, None), h1, h2, n);
    SameRuntimes(common, tail1, key, n);
    SameRuntimes(common, tail2, key, n);
    TailCannotInterfere(h1, p1, r1.clients.Keys, h2, p2, r2.clients.Keys, c);
  }

  lemma {:induction false} SamePrefix(h: seq<Snapshot>, h1: seq<Snapshot>, h2: seq<Snapshot>, n: nat)
    requires h <= h1 && h <= h2 && n <= |h|
    ensures h1[..n] == h2[..n]
  {
    assert h1[..n] == h[..n] && h2[..n] == h[..n];
  }

  /** Tail non-interference for files: rows after the steady window, whatever they hold, change
      no client's report as long as they use no runtime of the rows before them again. */
  lemma {:induction false} FileTailCannotInterfere(common: seq<Row>, tail1: seq<Row>, tail2: seq<Row>, key: DomainKey,
                                                   p1: Settings, p2: Settings, r1: SteadyReport, r2: SteadyReport,
                                                   blockSize: Option<int>, c: ClientId)
    requires NewRuntimes(common, tail1, key) && NewRuntimes(common, tail2, key)
    requires p1.runtimes == Runtimes(DomainIntervals(common + tail1, key)) && BoundsIn(p1)
    requires p2.runtimes == Runtimes(DomainIntervals(common + tail2, key)) && BoundsIn(p2)
    requires |Streamed(common + tail1, key, None)| == |p1.runtimes|
    requires |Streamed(common + tail2, key, None)| == |p2.runtimes|
    requires p1.window.Some? && p1 == p2.(runtimes := p1.runtimes)
    requires p1.window.value.end < |DomainIntervals(common, key)|
    requires ReportsOn(r1, Streamed(common + tail1, key, None), p1, blockSize, {})
    requires ReportsOn(r2, Streamed(common + tail2, key, None), p2, blockSize, {})
    requires c in r1.clients && c in r2.clients
    ensures r1.clients[c] == r2.clients[c]
  {
    NewRuntimesSpare(common, tail1, key, None);
    NewRuntimesSpare(common, tail2, key, None);
    SparedFilesAgree(common, tail1, tail2, key, p1, p2, r1, r2, blockSize, c);
  }

  // ----- at most half are short, in what the pass returns -----

  /** Counted windows, and short ones, as reported per client. */
  ghost function ReportedWindows(clients: map<ClientId, ClientSteady>, size: Size): (r: map<ClientId, int>)
    ensures r.Keys == clients.Keys
  {
    map c | c in clients :: Counts(clients[c], size).windows
  }

  ghost function ReportedShort(clients: map<ClientId, ClientSteady>, size: Size): (r: map<ClientId, int>)
    ensures r.Keys == clients.Keys
  {
    map c | c in clients :: Counts(clients[c], size).short
  }

  lemma {:induction false} ReportedCounts(r: SteadyReport, h: seq<Snapshot>, p: Settings, blockSize: Option<int>,
                                          size: Size, c: ClientId)
    requires |h| == |p.runtimes| && BoundsIn(p) && ReportsOn(r, h, p, blockSize, {}) && c in r.clients
    ensures Counts(r.clients[c], size) == StatsBefore(h, p, size, |h|, c)
  {
    if p.window.None? {
      NoCountsWithoutWindow(h, p, size, |h|, c);
    }
  }

  /** Over what a whole pass reports, short windows of all clients are at most half of all counted
      windows, for either size. */
  lemma {:induction false} ReportedHalf(r: SteadyReport, h: seq<Snapshot>, p: Settings, blockSize: Option<int>,
                                        size: Size)
    requires |h| == |p.runtimes| && BoundsIn(p) && ReportsOn(r, h, p, blockSize, {}) && p.shortBelow <= 1.0
    requires forall t :: 0 <= t < |h| ==> h[t].Keys <= r.clients.Keys
    ensures 2 * Tally(ReportedShort(r.clients, size)) <= Tally(ReportedWindows(r.clients, size))
  {
    forall c | c in r.clients
      ensures Counts(r.clients[c], size) == StatsBefore(h, p, size, |h|, c)
    {
      ReportedCounts(r, h, p, blockSize, size, c);
    }
    assert ReportedShort(r.clients, size) == ShortCounts(h, p, size, |h|, r.clients.Keys);
    assert ReportedWindows(r.clients, size) == WindowCounts(h, p, size, |h|, r.clients.Keys);
    AtMostHalfShort(h, p, size, |h|, r.clients.Keys);
  }

  /** Only clients of the domain are ever streamed. */
  lemma {:induction false} StreamedClients(rows: seq<Row>, key: DomainKey, t: nat)
    requires t < |Streamed(rows, key, None)|
    ensures Streamed(rows, key, None)[t].Keys <= ClientsOf(DomainIntervals(rows, key))
  {
    forall c | c in Streamed(rows, key, None)[t].Keys
      ensures c in ClientsOf(DomainIntervals(rows, key))
    {
      var i := NothingInvented(rows, key, None, t, c);
      RowIsCounted(rows, i, key);
    }
  }

  lemma {:induction false} RowIsCounted(rows: seq<Row>, i: nat, key: DomainKey)
    requires i < |rows| && rows[i].key == key && rows[i].Counts()
    ensures rows[i].client.value in ClientsOf(DomainIntervals(rows, key))
  {
    assert rows[..i + 1] == rows[..i] + [rows[i]];
    RowOfDomain(rows[..i], rows[i], key);
    DomainGrows(rows, i + 1, key);
    var g, iv := DomainIntervals(rows[..i + 1], key), DomainIntervals(rows, key);
    assert rows[i].client.value in g[|g| - 1].samples;
    assert rows[i].client.value in iv[|g| - 1].samples;
    ClientsOfMeaning(iv, rows[i].client.value);
  }

  /** The law for the report of any file, echoes or not, and any shortfall of 0 percent or more. */
  lemma {:induction false} FileHalf(rows: seq<Row>, key: DomainKey, r: SteadyReport, p: Settings, percent: real,
                                    blockSize: Option<int>, size: Size)
    requires percent >= 0.0 && |Streamed(rows, key, None)| == |p.runtimes| && BoundsIn(WithShortfall(p, percent))
    requires ReportsOn(r, Streamed(rows, key, None), WithShortfall(p, percent), blockSize,
                       ClientsOf(DomainIntervals(rows, key)))
    ensures 2 * Tally(ReportedShort(r.clients, size)) <= Tally(ReportedWindows(r.clients, size))
  {
    var h := Streamed(rows, key, None);
    forall t | 0 <= t < |h|
      ensures h[t].Keys <= r.clients.Keys
    {
      StreamedClients(rows, key, t);
    }
    ReportedHalf(r, h, WithShortfall(p, percent), blockSize, size);
  }
}
