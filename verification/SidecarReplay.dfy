/** Writing the sidecar from a stream of rows, reading it back as rows, and replaying those
    rows through the first pass. */
module SidecarReplay {
  import opened LiveRows
  import opened StableSort
  import opened FirstPass
  import opened IntervalSnapshots
  import opened SnapshotRing
  import opened SidecarCodec

  // ----- the encoder -----

  /** The encoder's lists hold the column view of the stream of snapshots. */
  ghost predicate Holds(samples: IntervalSamples, deltas: seq<seq<Option<int>>>, ordered: seq<ClientId>, s: Stream)
    reads samples
  {
    && samples.Valid() && samples.count == |ordered|
    && deltas == Encoded(s.emitted, ordered)
    && samples.lastDone == Cells(LastDone(s.emitted), ordered)
    && samples.done == Cells(s.pending, ordered)
  }

  lemma {:induction false} NoCells(ordered: seq<ClientId>)
    ensures Cells(map[], ordered) == seq(|ordered|, _ => None)
    ensures Encoded([], ordered) == []
  {}

  /** The stream once the pending interval and the empty ones up to `target` are handed on. */
  ghost function Advanced(s: Stream, target: nat): Stream
    requires |s.emitted| <= target
  {
    Stream(Emitted(s.emitted, s.pending, target), if target == |s.emitted| then s.pending else map[])
  }

  /** Emit the pending interval and the empty ones after it, up to `target`. */
  method EmitUpTo(samples: IntervalSamples, deltas: seq<seq<Option<int>>>, ordered: seq<ClientId>, target: nat,
                  ghost s: Stream)
    returns (r: seq<seq<Option<int>>>)
    requires Holds(samples, deltas, ordered, s) && |s.emitted| <= target
    modifies samples
    ensures Holds(samples, r, ordered, Advanced(s, target))
  {
    r := deltas;
    while |r| < target
      invariant |s.emitted| <= |r| <= target
      invariant Holds(samples, r, ordered, Advanced(s, |r|))
    {
      AdvancedStep(s, |r|);
      r := EmitOne(samples, r, ordered, Advanced(s, |r|));
    }
  }

  lemma {:induction false} AdvancedStep(s: Stream, n: nat)
    requires |s.emitted| <= n
    ensures var here := Advanced(s, n); Advanced(s, n + 1) == Stream(here.emitted + [here.pending], map[])
  {}

  method EmitOne(samples: IntervalSamples, deltas: seq<seq<Option<int>>>, ordered: seq<ClientId>, ghost s: Stream)
    returns (r: seq<seq<Option<int>>>)
    requires Holds(samples, deltas, ordered, s)
    modifies samples
    ensures |r| == |deltas| + 1 && Holds(samples, r, ordered, Stream(s.emitted + [s.pending], map[]))
  {
    EncodedAppend(s.emitted, s.pending, ordered);
    CellsAppend(s.emitted, s.pending, ordered);
    NoCells(ordered);
    var row := samples.Emit();
    r := deltas + [row];
  }

  lemma {:induction false} PutCell(snapshot: Snapshot, ordered: seq<ClientId>, k: nat, done: int)
    requires k < |ordered| && Distinct(ordered)
    ensures Cells(snapshot[ordered[k] := done], ordered) == Cells(snapshot, ordered)[k := Some(done)]
  {}

  /** The column of a client. */
  method IndexOf(ordered: seq<ClientId>, c: ClientId) returns (k: nat)
    requires c in ordered
    ensures k < |ordered| && ordered[k] == c
  {
    k := 0;
    while ordered[k] != c
      invariant k < |ordered| && c in ordered[k..]
      decreases |ordered| - k
    {
      k := k + 1;
    }
  }

  /** One row of `_iter_interval_samples`, as the snapshot stream sees it. */
  method EncodeRow(samples: IntervalSamples, deltas: seq<seq<Option<int>>>, ordered: seq<ClientId>, row: Row,
                   key: DomainKey, toInterval: map<int, nat>, ghost s: Stream)
    returns (r: seq<seq<Option<int>>>)
    requires Distinct(ordered) && Holds(samples, deltas, ordered, s)
    modifies samples
    ensures Holds(samples, r, ordered, Fed(s, row, key, toInterval, Chosen(ordered)))
  {
    r := deltas;
    if row.key != key || row.TotalRow? {
      return;
    }
    if !row.Counts() || row.client.value !in ordered {
      return;
    }
    if row.runtimeMs !in toInterval || toInterval[row.runtimeMs] < |deltas| {
      return;
    }
    var interval := toInterval[row.runtimeMs];
    r := EmitUpTo(samples, deltas, ordered, interval, s);
    var k := IndexOf(ordered, row.client.value);
    PutCell(Advanced(s, interval).pending, ordered, k, row.doneBytes.value);
    samples.done := samples.done[k := Some(row.doneBytes.value)];
  }

  /** The clients with a column. */
  ghost function Chosen(ordered: seq<ClientId>): Option<set<ClientId>> {
    Some(set c | c in ordered)
  }

  /** `_iter_interval_samples`: the deltas written are the encoding of the snapshots streamed,
      and these are the first pass's samples exactly when no interval with a written client's
      samples is echoed. */
  method IterIntervalSamples(rows: seq<Row>, key: DomainKey, toInterval: map<int, nat>, intervals: nat,
                             ordered: seq<ClientId>)
    returns (deltas: seq<seq<Option<int>>>)
    requires Distinct(ordered)
    requires toInterval == RuntimeIndex(DomainIntervals(rows, key)) && intervals == |DomainIntervals(rows, key)|
    ensures deltas == Encoded(Streamed(rows, key, Chosen(ordered)), ordered) && |deltas| == intervals
    ensures var iv := DomainIntervals(rows, key);
            deltas == Encoded(RestrictedSnapshots(iv, Chosen(ordered)), ordered) <==> NoEcho(iv, Chosen(ordered))
  {
    var samples := new IntervalSamples(|ordered|);
    NoCells(ordered);
    deltas := EncodeRows(samples, rows, key, toInterval, ordered);
    AlwaysStreaming(rows, |rows|, key, Chosen(ordered));
    assert rows[..|rows|] == rows;
    deltas := EmitUpTo(samples, deltas, ordered, intervals, StreamOf(rows, key, toInterval, Chosen(ordered)));
    StreamedExactly(rows, key, Chosen(ordered));
    LostIsNotEncoded(Streamed(rows, key, Chosen(ordered)), DomainIntervals(rows, key), ordered);
  }

  /** An interval handed on empty is written empty. */
  lemma {:induction false} LostIsNotEncoded(snapshots: seq<Snapshot>, iv: seq<Interval>, ordered: seq<ClientId>)
    requires |snapshots| == |iv|
    ensures Lost(snapshots, iv, Chosen(ordered)) ==>
              Encoded(snapshots, ordered) != Encoded(RestrictedSnapshots(iv, Chosen(ordered)), ordered)
  {
    var wanted := Chosen(ordered);
    if Lost(snapshots, iv, wanted) {
      var t: nat :| t < |snapshots| && snapshots[t] == map[] && Restrict(iv[t].samples, wanted) != map[];
      var samples := RestrictedSnapshots(iv, wanted);
      assert samples[t].Keys != {};
      var c :| c in samples[t].Keys;
      assert Wants(wanted, c);
      var k: nat :| k < |ordered| && ordered[k] == c;
      assert Encoded(snapshots, ordered)[t][k] == None;
      assert Encoded(samples, ordered)[t][k] != None;
    }
  }

  /** The loop over the rows. */
  method EncodeRows(samples: IntervalSamples, rows: seq<Row>, key: DomainKey, toInterval: map<int, nat>,
                    ordered: seq<ClientId>)
    returns (deltas: seq<seq<Option<int>>>)
    requires Distinct(ordered) && Holds(samples, [], ordered, Stream([], map[]))
    modifies samples
    ensures Holds(samples, deltas, ordered, StreamOf(rows, key, toInterval, Chosen(ordered)))
  {
    deltas := [];
    for i := 0 to |rows|
      invariant Holds(samples, deltas, ordered, StreamOf(rows[..i], key, toInterval, Chosen(ordered)))
    {
      assert rows[..i + 1] == rows[..i] + [rows[i]];
      StreamAppend(rows[..i], rows[i], key, toInterval, Chosen(ordered));
      deltas := EncodeRow(samples, deltas, ordered, rows[i], key, toInterval,
                          StreamOf(rows[..i], key, toInterval, Chosen(ordered)));
    }
    assert rows[..|rows|] == rows;
  }

  // ----- the decoder -----

  /** The client rows the decoder makes of the first `n` cells of an interval. */
  ghost function RowsFrom(key: DomainKey, elapsed: int, clients: seq<ClientId>, sums: seq<int>,
                          deltas: seq<Option<int>>, n: nat): seq<Row>
    requires |deltas| == |sums| == |clients| && n <= |clients|
  {
    if n == 0 then []
    else
      var before := RowsFrom(key, elapsed, clients, sums, deltas, n - 1);
      if deltas[n - 1].None? then before
      else before + [SampleRow(key, elapsed, Some(clients[n - 1]), Some(sums[n - 1]))]
  }

  ghost predicate AllOf(rows: seq<Row>, key: DomainKey) {
    forall i :: 0 <= i < |rows| ==> rows[i].key == key
  }

  /** `_client_rows`: `done` accumulates each client's DoneBytes in place. */
  method ClientRows(key: DomainKey, elapsed: int, clients: seq<ClientId>, done: array<int>, deltas: seq<Option<int>>)
    returns (rows: seq<Row>)
    requires |deltas| == done.Length == |clients|
    modifies done
    ensures done[..] == Added(old(done[..]), deltas)
    ensures rows == RowsFrom(key, elapsed, clients, done[..], deltas, |clients|)
  {
    rows := [];
    ghost var sums := Added(done[..], deltas);
    for position := 0 to |deltas|
      invariant forall k :: 0 <= k < position ==> done[k] == sums[k]
      invariant forall k :: position <= k < done.Length ==> done[k] == old(done[k])
      invariant rows == RowsFrom(key, elapsed, clients, sums, deltas, position)
    {
      if deltas[position].None? {
        continue;
      }
      done[position] := done[position] + deltas[position].value;
      rows := rows + [SampleRow(key, elapsed, Some(clients[position]), Some(done[position]))];
    }
    assert done[..] == sums;
  }

  /** Intervals once `more` follows: neighbours with one runtime are read as one interval. */
  ghost function Join(g: seq<Interval>, more: Interval): seq<Interval> {
    var n := |g|;
    if n > 0 && g[n - 1].runtimeMs == more.runtimeMs
    then g[..n - 1] + [Interval(more.runtimeMs, g[n - 1].samples + more.samples)]
    else g + [more]
  }

  /** A document's intervals with neighbours of one runtime joined, as any reader of rows does. */
  ghost function Coalesced(iv: seq<Interval>): seq<Interval> {
    if iv == [] then [] else Join(Coalesced(iv[..|iv| - 1]), iv[|iv| - 1])
  }

  lemma {:induction false} RowJoins(g: seq<Interval>, samples: Snapshot, row: Row)
    ensures Extended(Join(g, Interval(row.runtimeMs, samples)), row)
            == Join(g, Interval(row.runtimeMs, WithRow(samples, row)))
  {
    var n := |g|;
    if n > 0 && g[n - 1].runtimeMs == row.runtimeMs {
      RowAfterBoth(g[n - 1].samples, samples, row);
    }
  }

  lemma {:induction false} RowAfterBoth(a: Snapshot, b: Snapshot, row: Row)
    ensures WithRow(a + b, row) == a + WithRow(b, row) && WithRow(a, row) == a + WithRow(map[], row)
  {}

  lemma {:induction false} RowStarts(g: seq<Interval>, row: Row)
    ensures Extended(g, row) == Join(g, Interval(row.runtimeMs, WithRow(map[], row)))
  {
    if g != [] {
      RowAfterBoth(g[|g| - 1].samples, map[], row);
    }
  }

  /** The last DoneBytes each client reports in some rows. */
  ghost function SamplesOf(rows: seq<Row>): Snapshot {
    if rows == [] then map[] else WithRow(SamplesOf(rows[..|rows| - 1]), rows[|rows| - 1])
  }

  ghost predicate AllAt(rows: seq<Row>, elapsed: int) {
    forall i :: 0 <= i < |rows| ==> rows[i].runtimeMs == elapsed
  }

  lemma {:induction false} RowFollows(rows: seq<Row>, row: Row, g: seq<Interval>, samples: Snapshot)
    requires IntervalsOf(rows) == Join(g, Interval(row.runtimeMs, samples))
    ensures IntervalsOf(rows + [row]) == Join(g, Interval(row.runtimeMs, WithRow(samples, row)))
  {
    IntervalsAppend(rows, row);
    RowJoins(g, samples, row);
  }

  /** Rows of one runtime after other rows: one more interval to join, with their samples. */
  lemma {:induction false} RowsMakeInterval(before: seq<Row>, rows: seq<Row>, elapsed: int)
    requires rows != [] && AllAt(rows, elapsed)
    ensures IntervalsOf(before + rows) == Join(IntervalsOf(before), Interval(elapsed, SamplesOf(rows)))
  {
    var front, last := rows[..|rows| - 1], rows[|rows| - 1];
    assert rows == front + [last];
    Associates(before, front, [last]);
    if front == [] {
      assert before + front == before;
      IntervalsAppend(before, last);
      RowStarts(IntervalsOf(before), last);
    } else {
      RowsMakeInterval(before, front, elapsed);
      RowFollows(before + front, last, IntervalsOf(before), SamplesOf(front));
    }
  }

  lemma {:induction false} RowsFromAt(key: DomainKey, elapsed: int, clients: seq<ClientId>, sums: seq<int>,
                                      deltas: seq<Option<int>>, n: nat)
    requires |deltas| == |sums| == |clients| && n <= |clients|
    ensures AllAt(RowsFrom(key, elapsed, clients, sums, deltas, n), elapsed)
  {
    if n > 0 {
      RowsFromAt(key, elapsed, clients, sums, deltas, n - 1);
    }
  }

  lemma {:induction false} RowsFromSamples(key: DomainKey, elapsed: int, clients: seq<ClientId>, sums: seq<int>,
                                           deltas: seq<Option<int>>, n: nat)
    requires |deltas| == |sums| == |clients| && n <= |clients|
    ensures SamplesOf(RowsFrom(key, elapsed, clients, sums, deltas, n)) == SamplesFrom(deltas, sums, clients, n)
  {
    if n > 0 {
      RowsFromSamples(key, elapsed, clients, sums, deltas, n - 1);
      if deltas[n - 1].Some? {
        OneMoreSample(RowsFrom(key, elapsed, clients, sums, deltas, n - 1),
                      SampleRow(key, elapsed, Some(clients[n - 1]), Some(sums[n - 1])),
                      SamplesFrom(deltas, sums, clients, n - 1));
      }
    }
  }

  lemma {:induction false} OneMoreSample(rows: seq<Row>, row: Row, samples: Snapshot)
    requires row.Counts() && SamplesOf(rows) == samples
    ensures SamplesOf(rows + [row]) == samples[row.client.value := row.doneBytes.value]
  {
    SamplesAppend(rows, row);
  }

  lemma {:induction false} SamplesAppend(rows: seq<Row>, row: Row)
    ensures SamplesOf(rows + [row]) == WithRow(SamplesOf(rows), row)
  {
    assert (rows + [row])[..|rows|] == rows;
  }

  /** A leading Total row adds no sample. */
  lemma {:induction false} LeadSamples(total: Row, rows: seq<Row>)
    requires total.TotalRow?
    ensures SamplesOf([total] + rows) == SamplesOf(rows)
  {
    if rows == [] {
      SamplesAppend([], total);
      assert [total] + rows == [] + [total];
    } else {
      var front, last := rows[..|rows| - 1], rows[|rows| - 1];
      LeadSamples(total, front);
      SamplesAppend([total] + front, last);
      assert [total] + rows == [total] + front + [last];
    }
  }

  lemma {:induction false} RowsFromAllOf(key: DomainKey, elapsed: int, clients: seq<ClientId>, sums: seq<int>,
                                         deltas: seq<Option<int>>, n: nat)
    requires |deltas| == |sums| == |clients| && n <= |clients|
    ensures AllOf(RowsFrom(key, elapsed, clients, sums, deltas, n), key)
  {
    if n > 0 {
      RowsFromAllOf(key, elapsed, clients, sums, deltas, n - 1);
    }
  }

  ghost function LeadRows(key: DomainKey, elapsed: int, totals: map<int, Option<real>>): seq<Row> {
    if elapsed in totals then [TotalRow(key, elapsed, None, totals[elapsed])] else []
  }

  /** One interval of `_document_rows`: its Total row if the document has one, its client
      rows, and a bare Total row when there is nothing else. */
  ghost function ChunkRows(key: DomainKey, elapsed: int, clients: seq<ClientId>, sums: seq<int>,
                           deltas: seq<Option<int>>, totals: map<int, Option<real>>): seq<Row>
    requires |deltas| == |sums| == |clients|
  {
    var rows := LeadRows(key, elapsed, totals) + RowsFrom(key, elapsed, clients, sums, deltas, |clients|);
    if rows == [] then [TotalRow(key, elapsed, None, None)] else rows
  }

  lemma {:induction false} ChunkSamples(key: DomainKey, elapsed: int, clients: seq<ClientId>, sums: seq<int>,
                                        deltas: seq<Option<int>>, totals: map<int, Option<real>>)
    requires |deltas| == |sums| == |clients|
    ensures var rows := ChunkRows(key, elapsed, clients, sums, deltas, totals);
            rows != [] && AllAt(rows, elapsed) && SamplesOf(rows) == SamplesFrom(deltas, sums, clients, |clients|)
  {
    var sampled := RowsFrom(key, elapsed, clients, sums, deltas, |clients|);
    RowsFromSamples(key, elapsed, clients, sums, deltas, |clients|);
    RowsFromAt(key, elapsed, clients, sums, deltas, |clients|);
    if elapsed in totals {
      LeadSamples(TotalRow(key, elapsed, None, totals[elapsed]), sampled);
    } else if sampled == [] {
      LeadSamples(TotalRow(key, elapsed, None, None), []);
    } else {
      assert LeadRows(key, elapsed, totals) + sampled == sampled;
    }
  }

  /** No interval is left without a row, and its rows are read back as that interval. */
  lemma {:induction false} ChunkMakesInterval(before: seq<Row>, key: DomainKey, elapsed: int, clients: seq<ClientId>,
                                              sums: seq<int>, deltas: seq<Option<int>>,
                                              totals: map<int, Option<real>>)
    requires |deltas| == |sums| == |clients|
    ensures IntervalsOf(before + ChunkRows(key, elapsed, clients, sums, deltas, totals))
            == Join(IntervalsOf(before), Interval(elapsed, SamplesFrom(deltas, sums, clients, |clients|)))
  {
    ChunkSamples(key, elapsed, clients, sums, deltas, totals);
    RowsMakeInterval(before, ChunkRows(key, elapsed, clients, sums, deltas, totals), elapsed);
  }

  lemma {:induction false} Associates(a: seq<Row>, b: seq<Row>, c: seq<Row>)
    ensures a + (b + c) == a + b + c
  {}

  lemma {:induction false} ChunkAllOf(key: DomainKey, elapsed: int, clients: seq<ClientId>, sums: seq<int>,
                                      deltas: seq<Option<int>>, totals: map<int, Option<real>>)
    requires |deltas| == |sums| == |clients|
    ensures AllOf(ChunkRows(key, elapsed, clients, sums, deltas, totals), key)
  {
    RowsFromAllOf(key, elapsed, clients, sums, deltas, |clients|);
  }

  method IntervalRows(key: DomainKey, elapsed: int, clients: seq<ClientId>, done: array<int>,
                      deltas: seq<Option<int>>, totals: map<int, Option<real>>)
    returns (rows: seq<Row>)
    requires |deltas| == done.Length == |clients|
    modifies done
    ensures done[..] == Added(old(done[..]), deltas)
    ensures rows == ChunkRows(key, elapsed, clients, done[..], deltas, totals)
  {
    rows := [];
    if elapsed in totals {
      rows := [TotalRow(key, elapsed, None, totals[elapsed])];
    }
    var sampled := ClientRows(key, elapsed, clients, done, deltas);
    rows := rows + sampled;
    if |rows| == 0 {
      rows := [TotalRow(key, elapsed, None, None)];
    }
  }

  /** `_document_rows`: rows whose intervals are what the sidecar says, neighbours of one runtime
      read as one interval. */
  method DocumentRows(key: DomainKey, elapsed: seq<int>, deltas: seq<seq<Option<int>>>, clients: seq<ClientId>,
                      totals: map<int, Option<real>>)
    returns (rows: seq<Row>)
    requires |elapsed| == |deltas| && Rectangular(deltas, |clients|)
    ensures AllOf(rows, key) && IntervalsOf(rows) == Coalesced(Decoded(elapsed, deltas, clients))
  {
    rows := [];
    var done := new int[|clients|](_ => 0);
    for t := 0 to |elapsed|
      invariant done[..] == Accumulated(deltas, |clients|, t)
      invariant ReadSoFar(rows, key, elapsed, deltas, clients, t)
    {
      rows := ReadInterval(rows, key, elapsed, deltas, clients, totals, done, t);
    }
    assert Decoded(elapsed, deltas, clients)[..|elapsed|] == Decoded(elapsed, deltas, clients);
  }

  /** The rows with those of one more interval. */
  method ReadInterval(rows: seq<Row>, key: DomainKey, elapsed: seq<int>, deltas: seq<seq<Option<int>>>,
                      clients: seq<ClientId>, totals: map<int, Option<real>>, done: array<int>, t: nat)
    returns (r: seq<Row>)
    requires |elapsed| == |deltas| && Rectangular(deltas, |clients|) && t < |elapsed|
    requires done[..] == Accumulated(deltas, |clients|, t) && ReadSoFar(rows, key, elapsed, deltas, clients, t)
    modifies done
    ensures done[..] == Accumulated(deltas, |clients|, t + 1)
    ensures ReadSoFar(r, key, elapsed, deltas, clients, t + 1)
  {
    assert done.Length == |done[..]|;
    var more := IntervalRows(key, elapsed[t], clients, done, deltas[t], totals);
    ReadNext(rows, key, elapsed, deltas, clients, totals, t);
    r := rows + more;
  }

  /** The rows of the first `t` intervals. */
  ghost predicate ReadSoFar(rows: seq<Row>, key: DomainKey, elapsed: seq<int>, deltas: seq<seq<Option<int>>>,
                            clients: seq<ClientId>, t: nat)
    requires |elapsed| == |deltas| && Rectangular(deltas, |clients|) && t <= |elapsed|
  {
    AllOf(rows, key) && IntervalsOf(rows) == Coalesced(Decoded(elapsed, deltas, clients)[..t])
  }

  lemma {:induction false} ReadNext(rows: seq<Row>, key: DomainKey, elapsed: seq<int>, deltas: seq<seq<Option<int>>>,
                                    clients: seq<ClientId>, totals: map<int, Option<real>>, t: nat)
    requires |elapsed| == |deltas| && Rectangular(deltas, |clients|) && t < |elapsed|
    requires ReadSoFar(rows, key, elapsed, deltas, clients, t)
    ensures var sums := Accumulated(deltas, |clients|, t + 1);
            ReadSoFar(rows + ChunkRows(key, elapsed[t], clients, sums, deltas[t], totals), key, elapsed, deltas,
                      clients, t + 1)
  {
    var sums := Accumulated(deltas, |clients|, t + 1);
    DecodedStep(elapsed, deltas, clients, t);
    ChunkMakesInterval(rows, key, elapsed[t], clients, sums, deltas[t], totals);
    ChunkAllOf(key, elapsed[t], clients, sums, deltas[t], totals);
  }

  lemma {:induction false} DecodedStep(elapsed: seq<int>, deltas: seq<seq<Option<int>>>, clients: seq<ClientId>,
                                       t: nat)
    requires |elapsed| == |deltas| && Rectangular(deltas, |clients|) && t < |elapsed|
    ensures var d := Decoded(elapsed, deltas, clients);
            Coalesced(d[..t + 1]) == Join(Coalesced(d[..t]), Interval(elapsed[t],
              SamplesFrom(deltas[t], Accumulated(deltas, |clients|, t + 1), clients, |clients|)))
  {
    var d := Decoded(elapsed, deltas, clients);
    assert d[..t + 1][..t] == d[..t];
  }

  /** Neighbouring intervals have different runtimes. */
  ghost predicate Alternates(iv: seq<Interval>) {
    forall t :: 0 < t < |iv| ==> iv[t - 1].runtimeMs != iv[t].runtimeMs
  }

  /** Joining changes nothing exactly when neighbours have different runtimes. */
  lemma {:induction false} CoalescedExactly(iv: seq<Interval>)
    ensures Coalesced(iv) == iv <==> Alternates(iv)
    ensures |Coalesced(iv)| <= |iv| && (iv != [] ==> Coalesced(iv) != [])
    ensures iv != [] ==> Coalesced(iv)[|Coalesced(iv)| - 1].runtimeMs == iv[|iv| - 1].runtimeMs
  {
    if iv != [] {
      var n := |iv| - 1;
      CoalescedExactly(iv[..n]);
      assert iv == iv[..n] + [iv[n]];
      AlternatesStep(iv);
      if Coalesced(iv[..n]) == iv[..n] {
        assert Alternates(iv) ==> Join(iv[..n], iv[n]) == iv;
      }
    }
  }

  lemma {:induction false} AlternatesStep(iv: seq<Interval>)
    requires iv != []
    ensures var n := |iv| - 1;
            Alternates(iv) <==> Alternates(iv[..n]) && (n > 0 ==> iv[n - 1].runtimeMs != iv[n].runtimeMs)
  {
    var n := |iv| - 1;
    assert iv == iv[..n] + [iv[n]];
    if Alternates(iv) && n > 0 {
      assert iv[n - 1].runtimeMs != iv[n].runtimeMs;
    }
  }

  // ----- replay -----

  lemma {:induction false} OnlyDomain(rows: seq<Row>, key: DomainKey)
    requires AllOf(rows, key)
    ensures RowsOf(rows, key) == rows
  {
    if rows != [] {
      OnlyDomain(rows[..|rows| - 1], key);
      assert rows == rows[..|rows| - 1] + [rows[|rows| - 1]];
    }
  }

  /** The columns are the domain's clients, each once. */
  ghost predicate Columns(ordered: seq<ClientId>, iv: seq<Interval>) {
    Distinct(ordered) && (set c | c in ordered) == ClientsOf(iv)
  }

  lemma {:induction false} AllColumns(iv: seq<Interval>, ordered: seq<ClientId>)
    requires Columns(ordered, iv)
    ensures var wanted := Chosen(ordered);
            && RestrictedSnapshots(iv, wanted) == Snapshots(iv)
            && (NoEcho(iv, wanted) <==> NoEcho(iv, None))
            && forall t, c :: 0 <= t < |iv| && c in iv[t].samples ==> c in ordered
  {
    var wanted := Chosen(ordered);
    forall t, c | 0 <= t < |iv| && c in iv[t].samples
      ensures c in ordered
    {
      ClientsOfMeaning(iv, c);
      assert c in ClientsOf(iv);
    }
    forall t | 0 <= t < |iv|
      ensures Restrict(iv[t].samples, wanted) == iv[t].samples
    {}
    assert RestrictedSnapshots(iv, wanted) == Snapshots(iv);
    assert NoEcho(iv, wanted) <==> NoEcho(iv, None);
  }

  lemma {:induction false} EncodedRectangular(h: seq<Snapshot>, clients: seq<ClientId>)
    ensures Rectangular(Encoded(h, clients), |clients|)
  {}

  lemma {:induction false} EmptyRowDecodes(deltas: seq<Option<int>>, sums: seq<int>, clients: seq<ClientId>, n: nat)
    requires |deltas| == |sums| == |clients| && n <= |clients|
    requires forall k :: 0 <= k < |deltas| ==> deltas[k] == None
    ensures SamplesFrom(deltas, sums, clients, n) == map[]
  {
    if n > 0 {
      EmptyRowDecodes(deltas, sums, clients, n - 1);
    }
  }

  /** An interval lost by the encoder is not in what the sidecar says. */
  lemma {:induction false} LostIsNotDecoded(iv: seq<Interval>, snapshots: seq<Snapshot>, ordered: seq<ClientId>,
                                            wanted: Option<set<ClientId>>)
    requires |snapshots| == |iv| && Lost(snapshots, iv, wanted)
    ensures Rectangular(Encoded(snapshots, ordered), |ordered|)
    ensures Decoded(Runtimes(iv), Encoded(snapshots, ordered), ordered) != iv
  {
    EncodedRectangular(snapshots, ordered);
    var t :| 0 <= t < |snapshots| && snapshots[t] == map[] && Restrict(iv[t].samples, wanted) != map[];
    var row := Encoded(snapshots, ordered)[t];
    EmptyRowDecodes(row, Accumulated(Encoded(snapshots, ordered), |ordered|, t + 1), ordered, |ordered|);
    assert Decoded(Runtimes(iv), Encoded(snapshots, ordered), ordered)[t].samples == map[];
    assert iv[t].samples != map[];
  }

  lemma {:induction false} IntervalsAlternate(rows: seq<Row>, iv: seq<Interval>)
    requires Runtimes(iv) == Runtimes(IntervalsOf(rows))
    ensures Alternates(iv)
  {
    forall t | 0 < t < |iv|
      ensures iv[t - 1].runtimeMs != iv[t].runtimeMs
    {
      NeighboursDiffer(rows, t);
      assert Runtimes(iv)[t - 1] == iv[t - 1].runtimeMs && Runtimes(iv)[t] == iv[t].runtimeMs;
    }
  }

  /** What the sidecar of a domain says. */
  ghost function Written(rows: seq<Row>, key: DomainKey, ordered: seq<ClientId>): seq<Interval> {
    var deltas := Encoded(Streamed(rows, key, Chosen(ordered)), ordered);
    EncodedRectangular(Streamed(rows, key, Chosen(ordered)), ordered);
    StreamedExactly(rows, key, Chosen(ordered));
    Decoded(Runtimes(DomainIntervals(rows, key)), deltas, ordered)
  }

  /** Write a domain's sidecar and read it back as rows.  Whatever Total rows the document
      adds, the replayed rows have the intervals the sidecar says, and these are the original
      ones with their samples exactly when no interval with samples is echoed, in particular
      whenever runtimes increase. */
  method WriteAndReadBack(rows: seq<Row>, key: DomainKey, runtimes: seq<int>, toInterval: map<int, nat>,
                          ordered: seq<ClientId>, totals: map<int, Option<real>>)
    returns (replayed: seq<Row>)
    requires var iv := DomainIntervals(rows, key);
             runtimes == Runtimes(iv) && toInterval == RuntimeIndex(iv) && Columns(ordered, iv)
    ensures AllOf(replayed, key) && DomainIntervals(replayed, key) == Written(rows, key, ordered)
    ensures var iv := DomainIntervals(rows, key);
            DomainIntervals(replayed, key) == iv <==> NoEcho(iv, None)
  {
    var deltas := IterIntervalSamples(rows, key, toInterval, |runtimes|, ordered);
    EncodedRectangular(Streamed(rows, key, Chosen(ordered)), ordered);
    replayed := DocumentRows(key, runtimes, deltas, ordered, totals);
    OnlyDomain(replayed, key);
    WrittenAlternates(rows, key, ordered);
    ReplayCorrect(rows, key, ordered);
  }

  lemma {:induction false} WrittenAlternates(rows: seq<Row>, key: DomainKey, ordered: seq<ClientId>)
    ensures Coalesced(Written(rows, key, ordered)) == Written(rows, key, ordered)
  {
    var written := Written(rows, key, ordered);
    assert Runtimes(written) == Runtimes(DomainIntervals(rows, key));
    IntervalsAlternate(RowsOf(rows, key), written);
    CoalescedExactly(written);
  }

  /** Round trip: the sidecar says the original intervals exactly when none is echoed. */
  lemma {:induction false} ReplayCorrect(rows: seq<Row>, key: DomainKey, ordered: seq<ClientId>)
    requires Columns(ordered, DomainIntervals(rows, key))
    ensures Written(rows, key, ordered) == DomainIntervals(rows, key) <==> NoEcho(DomainIntervals(rows, key), None)
  {
    var iv := DomainIntervals(rows, key);
    AllColumns(iv, ordered);
    StreamedExactly(rows, key, Chosen(ordered));
    if NoEcho(iv, Chosen(ordered)) {
      DecodeEncode(iv, ordered);
    } else {
      LostIsNotDecoded(iv, Streamed(rows, key, Chosen(ordered)), ordered, Chosen(ordered));
    }
  }

  /** `analyze_document_live`: the first pass over the replayed rows analyses what the sidecar
      says.  Without echoes that is the first-pass analysis of the original rows: the same
      intervals, and for every client the same rates, statistics, missing and invalid counts,
      finish and first progress. */
  method AnalyzeDocumentLive(rows: seq<Row>, key: DomainKey, runtimes: seq<int>, toInterval: map<int, nat>,
                             ordered: seq<ClientId>, totals: map<int, Option<real>>)
    returns (domain: Option<DomainAnalysis>)
    requires var iv := DomainIntervals(rows, key);
             runtimes == Runtimes(iv) && toInterval == RuntimeIndex(iv) && Columns(ordered, iv)
    ensures var iv := DomainIntervals(rows, key);
            && domain == (if iv == [] then None else Some(AnalysisOf(Written(rows, key, ordered))))
            && (NoEcho(iv, None) ==> domain == if iv == [] then None else Some(AnalysisOf(iv)))
  {
    var replayed := WriteAndReadBack(rows, key, runtimes, toInterval, ordered, totals);
    var domains := AnalyzeLiveCsv(replayed);
    domain := if key in domains then Some(domains[key]) else None;
    DomainPresent(replayed, key);
    assert |Written(rows, key, ordered)| == |DomainIntervals(rows, key)|;
    assert key in domains ==> IsAnalysis(domains[key], replayed, key);
  }

  lemma {:induction false} DomainPresent(rows: seq<Row>, key: DomainKey)
    requires AllOf(rows, key)
    ensures key in KeysOf(rows) <==> DomainIntervals(rows, key) != []
  {
    OnlyDomain(rows, key);
    if rows != [] {
      assert rows[0] in rows && rows[0].key == key;
    }
  }
}
