/** The re-streaming shared by the later passes: rows of a domain back into one snapshot of
    DoneBytes per interval, optionally restricted to chosen clients. */
module IntervalSnapshots {
  import opened LiveRows
  import opened FirstPass

  /** A snapshot limited to the wanted clients; None wants everyone. */
  ghost function Restrict(s: Snapshot, wanted: Option<set<ClientId>>): Snapshot {
    if wanted.None? then s else map c | c in s && c in wanted.value :: s[c]
  }

  predicate Wants(wanted: Option<set<ClientId>>, c: ClientId) {
    wanted.None? || c in wanted.value
  }

  ghost function RestrictedSnapshots(iv: seq<Interval>, wanted: Option<set<ClientId>>): (r: seq<Snapshot>)
    ensures |r| == |iv|
  {
    seq(|iv|, t requires 0 <= t < |iv| => Restrict(iv[t].samples, wanted))
  }

  /** No interval with wanted samples has its runtime repeated by a later interval. */
  ghost predicate NoEcho(iv: seq<Interval>, wanted: Option<set<ClientId>>) {
    forall s, t :: 0 <= s < t < |iv| && Restrict(iv[s].samples, wanted) != map[] ==>
      iv[s].runtimeMs != iv[t].runtimeMs
  }

  lemma {:induction false} IncreasingHasNoEcho(iv: seq<Interval>, wanted: Option<set<ClientId>>)
    requires Increasing(iv)
    ensures NoEcho(iv, wanted)
  {}

  lemma {:induction false} FewerClientsNoEcho(iv: seq<Interval>, wanted: Option<set<ClientId>>)
    requires NoEcho(iv, None)
    ensures NoEcho(iv, wanted)
  {
    forall s, t | 0 <= s < t < |iv| && Restrict(iv[s].samples, wanted) != map[]
      ensures iv[s].runtimeMs != iv[t].runtimeMs
    {
      assert iv[s].samples != map[];
    }
  }

  lemma {:induction false} RowsOfPrefix(rows: seq<Row>, i: nat, key: DomainKey)
    requires i <= |rows|
    ensures RowsOf(rows[..i], key) <= RowsOf(rows, key)
    decreases |rows| - i
  {
    if i == |rows| {
      assert rows[..i] == rows;
    } else {
      RowsOfPrefix(rows, i + 1, key);
      assert rows[..i + 1] == rows[..i] + [rows[i]];
      RowsOfAppend(rows[..i], rows[i], key);
    }
  }

  lemma {:induction false} DomainGrows(rows: seq<Row>, i: nat, key: DomainKey)
    requires i <= |rows|
    ensures GrowsTo(DomainIntervals(rows[..i], key), DomainIntervals(rows, key))
  {
    RowsOfPrefix(rows, i, key);
    var all := RowsOf(rows, key);
    var some := RowsOf(rows[..i], key);
    assert all[..|some|] == some;
    PrefixIntervals(all, |some|);
  }

  // ----- what the stream has done after some rows -----

  /** The stream is faithful so far: everything emitted, and the snapshot being filled,
      are the intervals `g` read so far, and no interval was taken for a later one. */
  ghost predicate Faithful(emitted: seq<Snapshot>, snapshot: Snapshot, g: seq<Interval>, index: map<int, nat>,
                           wanted: Option<set<ClientId>>) {
    var current := |emitted|;
    && (if g == [] then current == 0 && snapshot == map[]
        else current < |g| && snapshot == Restrict(g[current].samples, wanted))
    && (forall t :: 0 <= t < current && t < |g| ==> emitted[t] == Restrict(g[t].samples, wanted))
    && (forall t :: current < t < |g| ==> Restrict(g[t].samples, wanted) == map[])
    && (forall t :: 0 <= t < |g| && Restrict(g[t].samples, wanted) != map[] ==>
          g[t].runtimeMs in index && index[g[t].runtimeMs] == t)
  }

  /** Some interval with wanted samples has already been emitted without them. */
  ghost predicate Lost(emitted: seq<Snapshot>, iv: seq<Interval>, wanted: Option<set<ClientId>>) {
    exists t :: 0 <= t < |emitted| && t < |iv| && emitted[t] == map[] && Restrict(iv[t].samples, wanted) != map[]
  }

  ghost function Blank(n: nat): (r: seq<Snapshot>)
    ensures |r| == n && forall t :: 0 <= t < n ==> r[t] == map[]
  {
    seq(n, _ => map[])
  }

  /** What the emitting loop appends on the way from the current interval to `target`. */
  ghost function Emitted(emitted: seq<Snapshot>, snapshot: Snapshot, target: nat): (r: seq<Snapshot>)
    requires |emitted| <= target
    ensures |r| == target
  {
    if target == |emitted| then emitted else emitted + [snapshot] + Blank(target - |emitted| - 1)
  }

  lemma {:induction false} RestrictRow(samples: Snapshot, row: Row, wanted: Option<set<ClientId>>)
    ensures Restrict(WithRow(samples, row), wanted)
            == if row.Counts() && Wants(wanted, row.client.value)
               then Restrict(samples, wanted)[row.client.value := row.doneBytes.value]
               else Restrict(samples, wanted)
  {}

  /** A row that is not streamed leaves a faithful stream faithful. */
  lemma {:induction false} SkippedRow(emitted: seq<Snapshot>, snapshot: Snapshot, g: seq<Interval>,
                                      index: map<int, nat>, wanted: Option<set<ClientId>>, row: Row)
    requires Faithful(emitted, snapshot, g, index, wanted)
    requires !(row.Counts() && Wants(wanted, row.client.value))
    ensures Faithful(emitted, snapshot, Extended(g, row), index, wanted)
  {
    var g' := Extended(g, row);
    RestrictRow(map[], row, wanted);
    if g != [] {
      RestrictRow(g[|g| - 1].samples, row, wanted);
    }
    assert Restrict(map[], wanted) == map[];
    assert forall t :: 0 <= t < |g| ==> Restrict(g'[t].samples, wanted) == Restrict(g[t].samples, wanted)
                                        && g'[t].runtimeMs == g[t].runtimeMs;
  }

  /** A streamed row whose runtime is indexed as its own interval keeps the stream faithful. */
  lemma {:induction false} FaithfulRow(emitted: seq<Snapshot>, snapshot: Snapshot, g: seq<Interval>,
                                       index: map<int, nat>, wanted: Option<set<ClientId>>, row: Row)
    requires Faithful(emitted, snapshot, g, index, wanted)
    requires row.Counts() && Wants(wanted, row.client.value)
    requires var g' := Extended(g, row); row.runtimeMs in index && index[row.runtimeMs] == |g'| - 1
    ensures var g' := Extended(g, row); var target := |g'| - 1;
            var base := if target == |emitted| then snapshot else map[];
            && |emitted| <= target
            && Faithful(Emitted(emitted, snapshot, target), base[row.client.value := row.doneBytes.value],
                        g', index, wanted)
  {
    var g' := Extended(g, row);
    var target := |g'| - 1;
    RestrictRow(map[], row, wanted);
    if g != [] {
      RestrictRow(g[|g| - 1].samples, row, wanted);
    }
    assert Restrict(map[], wanted) == map[];
    assert forall t :: 0 <= t < target ==> g'[t] == g[t];
    assert |emitted| <= target;
    var e := Emitted(emitted, snapshot, target);
    forall t | 0 <= t < target
      ensures e[t] == Restrict(g'[t].samples, wanted)
    {
      assert g'[t] == g[t];
    }
  }

  /** A streamed row whose runtime is indexed as a later interval loses its own interval. */
  lemma {:induction false} EchoedRow(emitted: seq<Snapshot>, snapshot: Snapshot, g: seq<Interval>,
                                     index: map<int, nat>, wanted: Option<set<ClientId>>, row: Row, iv: seq<Interval>,
                                     target: nat)
    requires Faithful(emitted, snapshot, g, index, wanted) && GrowsTo(Extended(g, row), iv)
    requires row.Counts() && Wants(wanted, row.client.value)
    requires row.runtimeMs in index && index[row.runtimeMs] == target
    requires |Extended(g, row)| - 1 < target < |iv| && iv[target].runtimeMs == row.runtimeMs
    ensures |emitted| <= target && Lost(Emitted(emitted, snapshot, target), iv, wanted) && !NoEcho(iv, wanted)
  {
    var own := |Extended(g, row)| - 1;
    var c := row.client.value;
    assert c in Extended(g, row)[own].samples && c in iv[own].samples;
    assert c in Restrict(iv[own].samples, wanted);
    var e := Emitted(emitted, snapshot, target);
    assert e[own] == map[];
    assert iv[own].runtimeMs == iv[target].runtimeMs;
  }

  /** What holds after every row: faithful, or an interval has been lost to a repeated runtime. */
  ghost predicate Streaming(emitted: seq<Snapshot>, snapshot: Snapshot, g: seq<Interval>, iv: seq<Interval>,
                            wanted: Option<set<ClientId>>) {
    && (iv == [] ==> |emitted| == 0) && (iv != [] ==> |emitted| < |iv|)
    && (|| Faithful(emitted, snapshot, g, RuntimeIndex(iv), wanted)
        || (Lost(emitted, iv, wanted) && !NoEcho(iv, wanted)))
  }

  lemma {:induction false} LostStaysLost(emitted: seq<Snapshot>, more: seq<Snapshot>, iv: seq<Interval>,
                                         wanted: Option<set<ClientId>>)
    requires Lost(emitted, iv, wanted) && emitted <= more
    ensures Lost(more, iv, wanted)
  {
    var t :| 0 <= t < |emitted| && t < |iv| && emitted[t] == map[] && Restrict(iv[t].samples, wanted) != map[];
    assert more[t] == map[];
  }

  lemma {:induction false} SkipKeepsStreaming(emitted: seq<Snapshot>, snapshot: Snapshot, g: seq<Interval>,
                                              iv: seq<Interval>, wanted: Option<set<ClientId>>, row: Row)
    requires Streaming(emitted, snapshot, g, iv, wanted) && !(row.Counts() && Wants(wanted, row.client.value))
    ensures Streaming(emitted, snapshot, Extended(g, row), iv, wanted)
  {
    if Faithful(emitted, snapshot, g, RuntimeIndex(iv), wanted) {
      SkippedRow(emitted, snapshot, g, RuntimeIndex(iv), wanted, row);
    }
  }

  /** The row's interval as the index gives it, and what streaming the row leads to. */
  lemma {:induction false} StreamedRow(emitted: seq<Snapshot>, snapshot: Snapshot, g: seq<Interval>,
                                       iv: seq<Interval>, wanted: Option<set<ClientId>>, row: Row)
    requires Streaming(emitted, snapshot, g, iv, wanted) && row.Counts() && Wants(wanted, row.client.value)
    requires GrowsTo(Extended(g, row), iv)
    ensures row.runtimeMs in RuntimeIndex(iv)
    ensures var target := RuntimeIndex(iv)[row.runtimeMs];
            && target < |iv|
            && (target < |emitted| ==> Streaming(emitted, snapshot, Extended(g, row), iv, wanted))
            && (target >= |emitted| ==>
                  var base := if target == |emitted| then snapshot else map[];
                  Streaming(Emitted(emitted, snapshot, target), base[row.client.value := row.doneBytes.value],
                            Extended(g, row), iv, wanted))
  {
    var g' := Extended(g, row);
    var own := |g'| - 1;
    IndexedInterval(iv, own);
    var target := RuntimeIndex(iv)[row.runtimeMs];
    if Faithful(emitted, snapshot, g, RuntimeIndex(iv), wanted) {
      if target == own {
        FaithfulRow(emitted, snapshot, g, RuntimeIndex(iv), wanted, row);
      } else {
        EchoedRow(emitted, snapshot, g, RuntimeIndex(iv), wanted, row, iv, target);
      }
    } else if target >= |emitted| {
      LostStaysLost(emitted, Emitted(emitted, snapshot, target), iv, wanted);
    }
  }

  /** At the end of the stream: the snapshots are the intervals' samples exactly when no
      interval with samples is echoed. */
  lemma {:induction false} StreamEnd(emitted: seq<Snapshot>, snapshot: Snapshot, iv: seq<Interval>,
                                     wanted: Option<set<ClientId>>)
    requires Streaming(emitted, snapshot, iv, iv, wanted)
    ensures var all := Emitted(emitted, snapshot, |iv|);
            && (all == RestrictedSnapshots(iv, wanted) <==> NoEcho(iv, wanted))
            && (NoEcho(iv, wanted) || Lost(all, iv, wanted))
  {
    var all := Emitted(emitted, snapshot, |iv|);
    if Faithful(emitted, snapshot, iv, RuntimeIndex(iv), wanted) {
      forall s, t | 0 <= s < t < |iv| && Restrict(iv[s].samples, wanted) != map[]
        ensures iv[s].runtimeMs != iv[t].runtimeMs
      {
        IndexedInterval(iv, t);
      }
      assert all == RestrictedSnapshots(iv, wanted);
    } else {
      LostStaysLost(emitted, all, iv, wanted);
      var t :| 0 <= t < |all| && t < |iv| && all[t] == map[] && Restrict(iv[t].samples, wanted) != map[];
      assert all[t] != RestrictedSnapshots(iv, wanted)[t];
    }
  }

  // ----- the whole stream -----

  /** What has been handed on, and the snapshot being filled. */
  datatype Stream = Stream(emitted: seq<Snapshot>, pending: Snapshot)

  predicate Streams(row: Row, key: DomainKey, index: map<int, nat>, wanted: Option<set<ClientId>>) {
    row.Counts() && row.key == key && Wants(wanted, row.client.value) && row.runtimeMs in index
  }

  /** One row: it goes into the interval its runtime is indexed as, unless that is gone. */
  ghost function Fed(s: Stream, row: Row, key: DomainKey, index: map<int, nat>, wanted: Option<set<ClientId>>): Stream {
    if !Streams(row, key, index, wanted) || index[row.runtimeMs] < |s.emitted| then s
    else
      var target := index[row.runtimeMs];
      var base := if target == |s.emitted| then s.pending else map[];
      Stream(Emitted(s.emitted, s.pending, target), base[row.client.value := row.doneBytes.value])
  }

  ghost function StreamOf(rows: seq<Row>, key: DomainKey, index: map<int, nat>, wanted: Option<set<ClientId>>): Stream {
    if rows == [] then Stream([], map[])
    else Fed(StreamOf(rows[..|rows| - 1], key, index, wanted), rows[|rows| - 1], key, index, wanted)
  }

  lemma {:induction false} StreamAppend(rows: seq<Row>, row: Row, key: DomainKey, index: map<int, nat>,
                                        wanted: Option<set<ClientId>>)
    ensures StreamOf(rows + [row], key, index, wanted)
            == Fed(StreamOf(rows, key, index, wanted), row, key, index, wanted)
  {
    assert (rows + [row])[..|rows|] == rows;
  }

  /** The snapshots of a domain's intervals as a later pass sees them, in any stream. */
  ghost function Streamed(rows: seq<Row>, key: DomainKey, wanted: Option<set<ClientId>>): seq<Snapshot> {
    var iv := DomainIntervals(rows, key);
    Closed(StreamOf(rows, key, RuntimeIndex(iv), wanted), |iv|)
  }

  ghost function Closed(s: Stream, intervals: nat): seq<Snapshot> {
    if |s.emitted| <= intervals then Emitted(s.emitted, s.pending, intervals) else s.emitted
  }

  lemma {:induction false} FedStreaming(s: Stream, row: Row, key: DomainKey, rows: seq<Row>, iv: seq<Interval>,
                                        wanted: Option<set<ClientId>>)
    requires Streaming(s.emitted, s.pending, DomainIntervals(rows, key), iv, wanted)
    requires GrowsTo(DomainIntervals(rows + [row], key), iv)
    ensures var r := Fed(s, row, key, RuntimeIndex(iv), wanted);
            Streaming(r.emitted, r.pending, DomainIntervals(rows + [row], key), iv, wanted)
  {
    RowOfDomain(rows, row, key);
    if row.key == key {
      if row.Counts() && Wants(wanted, row.client.value) {
        StreamedRow(s.emitted, s.pending, DomainIntervals(rows, key), iv, wanted, row);
      } else {
        SkipKeepsStreaming(s.emitted, s.pending, DomainIntervals(rows, key), iv, wanted, row);
      }
    }
  }

  lemma {:induction false} AlwaysStreaming(rows: seq<Row>, i: nat, key: DomainKey, wanted: Option<set<ClientId>>)
    requires i <= |rows|
    ensures var iv := DomainIntervals(rows, key);
            var s := StreamOf(rows[..i], key, RuntimeIndex(iv), wanted);
            Streaming(s.emitted, s.pending, DomainIntervals(rows[..i], key), iv, wanted)
    decreases i
  {
    var iv := DomainIntervals(rows, key);
    if i > 0 {
      AlwaysStreaming(rows, i - 1, key, wanted);
      assert rows[..i] == rows[..i - 1] + [rows[i - 1]];
      DomainGrows(rows, i, key);
      StreamAppend(rows[..i - 1], rows[i - 1], key, RuntimeIndex(iv), wanted);
      FedStreaming(StreamOf(rows[..i - 1], key, RuntimeIndex(iv), wanted), rows[i - 1], key, rows[..i - 1], iv, wanted);
    } else {
      NoRowsNoIntervals(rows, key);
    }
  }

  lemma {:induction false} NoRowsNoIntervals(rows: seq<Row>, key: DomainKey)
    ensures DomainIntervals(rows[..0], key) == []
  {
    assert rows[..0] == [];
  }

  /** The later passes see the first pass's samples exactly when no interval with wanted samples
      is echoed; otherwise some interval that had samples is handed on empty. */
  lemma {:induction false} StreamedExactly(rows: seq<Row>, key: DomainKey, wanted: Option<set<ClientId>>)
    ensures var iv := DomainIntervals(rows, key);
            && |Streamed(rows, key, wanted)| == |iv|
            && (Streamed(rows, key, wanted) == RestrictedSnapshots(iv, wanted) <==> NoEcho(iv, wanted))
            && (NoEcho(iv, wanted) || Lost(Streamed(rows, key, wanted), iv, wanted))
  {
    var iv := DomainIntervals(rows, key);
    AlwaysStreaming(rows, |rows|, key, wanted);
    assert rows[..|rows|] == rows;
    var s := StreamOf(rows, key, RuntimeIndex(iv), wanted);
    StreamEnd(s.emitted, s.pending, iv, wanted);
  }

  // ----- nothing is invented -----

  /** Some row of the domain that is indexed as interval `t` reports this sample. */
  ghost predicate Reported(rows: seq<Row>, key: DomainKey, index: map<int, nat>, t: nat, c: ClientId, done: int) {
    exists i :: 0 <= i < |rows| && Reports(rows[i], key, index, t, c, done)
  }

  ghost predicate Reports(row: Row, key: DomainKey, index: map<int, nat>, t: nat, c: ClientId, done: int) {
    && row.key == key && row.Counts() && row.client == Some(c) && row.doneBytes == Some(done)
    && row.runtimeMs in index && index[row.runtimeMs] == t
  }

  ghost predicate Sourced(snapshot: Snapshot, rows: seq<Row>, key: DomainKey, index: map<int, nat>, t: nat) {
    forall c :: c in snapshot ==> Reported(rows, key, index, t, c, snapshot[c])
  }

  ghost predicate AllSourced(s: Stream, rows: seq<Row>, key: DomainKey, index: map<int, nat>) {
    && (forall t: nat :: t < |s.emitted| ==> Sourced(s.emitted[t], rows, key, index, t))
    && Sourced(s.pending, rows, key, index, |s.emitted|)
  }

  lemma {:induction false} SourcedLater(snapshot: Snapshot, rows: seq<Row>, row: Row, key: DomainKey,
                                        index: map<int, nat>, t: nat)
    requires Sourced(snapshot, rows, key, index, t)
    ensures Sourced(snapshot, rows + [row], key, index, t)
  {
    forall c | c in snapshot
      ensures Reported(rows + [row], key, index, t, c, snapshot[c])
    {
      var i :| 0 <= i < |rows| && Reports(rows[i], key, index, t, c, snapshot[c]);
      assert (rows + [row])[i] == rows[i];
    }
  }

  lemma {:induction false} SourcedNow(snapshot: Snapshot, rows: seq<Row>, row: Row, key: DomainKey,
                                      index: map<int, nat>, t: nat)
    requires Sourced(snapshot, rows + [row], key, index, t) && row.Counts()
    requires Reports(row, key, index, t, row.client.value, row.doneBytes.value)
    ensures Sourced(snapshot[row.client.value := row.doneBytes.value], rows + [row], key, index, t)
  {
    assert (rows + [row])[|rows|] == row;
    assert Reported(rows + [row], key, index, t, row.client.value, row.doneBytes.value);
  }

  lemma {:induction false} FedSourced(s: Stream, rows: seq<Row>, row: Row, key: DomainKey, index: map<int, nat>,
                                      wanted: Option<set<ClientId>>)
    requires AllSourced(s, rows, key, index)
    ensures AllSourced(Fed(s, row, key, index, wanted), rows + [row], key, index)
  {
    forall t: nat | t < |s.emitted|
      ensures Sourced(s.emitted[t], rows + [row], key, index, t)
    {
      SourcedLater(s.emitted[t], rows, row, key, index, t);
    }
    SourcedLater(s.pending, rows, row, key, index, |s.emitted|);
    if Streams(row, key, index, wanted) && index[row.runtimeMs] >= |s.emitted| {
      var target := index[row.runtimeMs];
      SourcedNow(if target == |s.emitted| then s.pending else map[], rows, row, key, index, target);
    }
  }

  lemma {:induction false} StreamSourced(rows: seq<Row>, key: DomainKey, index: map<int, nat>,
                                         wanted: Option<set<ClientId>>)
    ensures AllSourced(StreamOf(rows, key, index, wanted), rows, key, index)
  {
    if rows != [] {
      var n := |rows| - 1;
      StreamSourced(rows[..n], key, index, wanted);
      FedSourced(StreamOf(rows[..n], key, index, wanted), rows[..n], rows[n], key, index, wanted);
      assert rows == rows[..n] + [rows[n]];
    }
  }

  /** Even in a stream with echoes, every sample handed on for interval `t` was reported by a row
      of the domain at the runtime of interval `t`. */
  lemma {:induction false} NothingInvented(rows: seq<Row>, key: DomainKey, wanted: Option<set<ClientId>>, t: nat,
                                           c: ClientId)
    returns (i: nat)
    requires t < |Streamed(rows, key, wanted)| && c in Streamed(rows, key, wanted)[t]
    ensures t < |DomainIntervals(rows, key)| && i < |rows|
    ensures rows[i].key == key && rows[i].SampleRow? && rows[i].client == Some(c)
    ensures rows[i].doneBytes == Some(Streamed(rows, key, wanted)[t][c])
    ensures rows[i].runtimeMs == DomainIntervals(rows, key)[t].runtimeMs
  {
    var iv := DomainIntervals(rows, key);
    var index := RuntimeIndex(iv);
    StreamedExactly(rows, key, wanted);
    StreamSourced(rows, key, index, wanted);
    assert Sourced(Streamed(rows, key, wanted)[t], rows, key, index, t);
    i :| i < |rows| && Reports(rows[i], key, index, t, c, Streamed(rows, key, wanted)[t][c]);
    IndexedRuntime(iv, rows[i].runtimeMs);
  }

  lemma {:induction false} IndexedRuntime(iv: seq<Interval>, runtimeMs: int)
    requires runtimeMs in RuntimeIndex(iv)
    ensures RuntimeIndex(iv)[runtimeMs] < |iv| && iv[RuntimeIndex(iv)[runtimeMs]].runtimeMs == runtimeMs
  {
    if iv[|iv| - 1].runtimeMs != runtimeMs {
      IndexedRuntime(iv[..|iv| - 1], runtimeMs);
    }
  }

  // ----- the loops -----

  /** `_iter_interval_snapshots` over `_domain_client_rows`, its yields collected.  One
      snapshot per interval always; the samples of each interval exactly when no interval
      with wanted samples is echoed by a later one. */
  method IterIntervalSnapshots(rows: seq<Row>, key: DomainKey, toInterval: map<int, nat>, intervals: nat,
                               hasClients: bool, wanted: Option<set<ClientId>>)
    returns (snapshots: seq<Snapshot>)
    requires var iv := DomainIntervals(rows, key);
             && toInterval == RuntimeIndex(iv) && intervals == |iv| && (hasClients <==> ClientsOf(iv) != {})
    ensures snapshots == Streamed(rows, key, wanted) && |snapshots| == intervals
    ensures var iv := DomainIntervals(rows, key);
            snapshots == RestrictedSnapshots(iv, wanted) <==> NoEcho(iv, wanted)
  {
    StreamedExactly(rows, key, wanted);
    if !hasClients || wanted == Some({}) {
      NothingToStream(DomainIntervals(rows, key), wanted);
      snapshots := EmitTo([], map[], intervals);
      return;
    }
    var snapshot: Snapshot := map[];
    snapshots := [];
    for i := 0 to |rows|
      invariant Stream(snapshots, snapshot) == StreamOf(rows[..i], key, toInterval, wanted)
    {
      assert rows[..i + 1] == rows[..i] + [rows[i]];
      StreamAppend(rows[..i], rows[i], key, toInterval, wanted);
      snapshots, snapshot := StreamRow(rows[i], key, toInterval, wanted, snapshots, snapshot);
    }
    assert rows[..|rows|] == rows;
    AlwaysStreaming(rows, |rows|, key, wanted);
    snapshots := EmitTo(snapshots, snapshot, intervals);
  }

  /** One row of the stream. */
  method StreamRow(row: Row, key: DomainKey, toInterval: map<int, nat>, wanted: Option<set<ClientId>>,
                   snapshots: seq<Snapshot>, snapshot: Snapshot)
    returns (emitted: seq<Snapshot>, pending: Snapshot)
    ensures Stream(emitted, pending) == Fed(Stream(snapshots, snapshot), row, key, toInterval, wanted)
  {
    emitted, pending := snapshots, snapshot;
    if !row.Counts() || row.key != key || !Wants(wanted, row.client.value) || row.runtimeMs !in toInterval {
      return;
    }
    var interval := toInterval[row.runtimeMs];
    if interval < |snapshots| {
      return;
    }
    if interval > |snapshots| {
      emitted := EmitTo(snapshots, snapshot, interval);
      pending := map[];
    }
    pending := pending[row.client.value := row.doneBytes.value];
  }

  /** The inner loop: yield the current snapshot, then empty ones, up to `target`. */
  method EmitTo(emitted: seq<Snapshot>, snapshot: Snapshot, target: nat) returns (r: seq<Snapshot>)
    requires |emitted| <= target
    ensures r == Emitted(emitted, snapshot, target)
  {
    r := emitted;
    var pending := snapshot;
    while |r| < target
      invariant |emitted| <= |r| <= target
      invariant r == Emitted(emitted, snapshot, |r|)
      invariant pending == if |r| == |emitted| then snapshot else map[]
    {
      r := r + [pending];
      pending := map[];
    }
  }

  lemma {:induction false} NothingToStream(iv: seq<Interval>, wanted: Option<set<ClientId>>)
    requires ClientsOf(iv) == {} || wanted == Some({})
    ensures NoEcho(iv, wanted) && Emitted([], map[], |iv|) == RestrictedSnapshots(iv, wanted)
  {
    forall t | 0 <= t < |iv|
      ensures Restrict(iv[t].samples, wanted) == map[]
    {
      forall c | c in iv[t].samples
        ensures c in ClientsOf(iv)
      {
        ClientsOfMeaning(iv, c);
      }
    }
  }
}
