/** What rows at the end of a file can do to the snapshots of the intervals before them.  The
    index maps a runtime to its last interval, so a late row can reach back: the snapshots that
    were streamed stay as they were exactly when the tail spares the intervals they come from. */
module StreamTail {
  import opened LiveRows
  import opened FirstPass
  import opened IntervalSnapshots

  // ----- runtimes used again -----

  /** A later interval has the runtime of interval `t`. */
  ghost predicate Reused(iv: seq<Interval>, t: int)
    requires 0 <= t < |iv|
  {
    exists u :: t < u < |iv| && iv[u].runtimeMs == iv[t].runtimeMs
  }

  lemma {:induction false} IndexedAsOwn(iv: seq<Interval>, t: int)
    requires 0 <= t < |iv|
    ensures iv[t].runtimeMs in RuntimeIndex(iv) && t <= RuntimeIndex(iv)[iv[t].runtimeMs] < |iv|
    ensures RuntimeIndex(iv)[iv[t].runtimeMs] == t <==> !Reused(iv, t)
  {
    IndexedInterval(iv, t);
    if Reused(iv, t) {
      var u :| t < u < |iv| && iv[u].runtimeMs == iv[t].runtimeMs;
      IndexedInterval(iv, u);
    }
  }

  /** What is left of an interval's wanted samples: nothing once its runtime is used again. */
  ghost function Surviving(iv: seq<Interval>, wanted: Option<set<ClientId>>, t: int): Snapshot
    requires 0 <= t < |iv|
  {
    if Reused(iv, t) then map[] else Restrict(iv[t].samples, wanted)
  }

  /** No snapshot is handed on for an interval whose runtime is used again. */
  lemma {:induction false} ReusedIsEmpty(rows: seq<Row>, key: DomainKey, wanted: Option<set<ClientId>>, t: nat)
    requires t < |DomainIntervals(rows, key)| && Reused(DomainIntervals(rows, key), t)
    ensures t < |Streamed(rows, key, wanted)| && Streamed(rows, key, wanted)[t] == map[]
  {
    var iv := DomainIntervals(rows, key);
    StreamedExactly(rows, key, wanted);
    StreamSourced(rows, key, RuntimeIndex(iv), wanted);
    var snapshot := Streamed(rows, key, wanted)[t];
    IndexedAsOwn(iv, t);
    if snapshot.Keys != {} {
      var c :| c in snapshot.Keys;
      assert Sourced(snapshot, rows, key, RuntimeIndex(iv), t);
      var i :| 0 <= i < |rows| && Reports(rows[i], key, RuntimeIndex(iv), t, c, snapshot[c]);
      IndexedRuntime(iv, rows[i].runtimeMs);
    }
  }

  // ----- the first snapshots of a stream -----

  /** The first `n` snapshots if the stream were closed now. */
  ghost function Head(s: Stream, n: nat): (r: seq<Snapshot>)
    ensures |r| == n
  {
    if |s.emitted| <= n then Emitted(s.emitted, s.pending, n) else s.emitted[..n]
  }

  /** A row changes at most the snapshot of the interval its runtime is indexed as. */
  lemma {:induction false} FedHead(s: Stream, row: Row, key: DomainKey, index: map<int, nat>,
                                   wanted: Option<set<ClientId>>, n: nat)
    ensures var r := Fed(s, row, key, index, wanted);
            if !Streams(row, key, index, wanted) || index[row.runtimeMs] < |s.emitted| || index[row.runtimeMs] >= n
            then Head(r, n) == Head(s, n)
            else
              var target := index[row.runtimeMs];
              Head(r, n) == Head(s, n)[target := Head(s, n)[target][row.client.value := row.doneBytes.value]]
  {
    if Streams(row, key, index, wanted) && index[row.runtimeMs] >= |s.emitted| {
      var target := index[row.runtimeMs];
      if target >= n {
        EmittedHead(s, target, n);
      } else {
        EmittedEntry(s, target, n, row.client.value, row.doneBytes.value);
      }
    }
  }

  lemma {:induction false} EmittedHead(s: Stream, target: nat, n: nat)
    requires |s.emitted| <= target && n <= target
    ensures Emitted(s.emitted, s.pending, target)[..n] == Head(s, n)
  {}

  lemma {:induction false} EmittedEntry(s: Stream, target: nat, n: nat, c: ClientId, done: int)
    requires |s.emitted| <= target < n
    ensures var base := if target == |s.emitted| then s.pending else map[];
            Head(Stream(Emitted(s.emitted, s.pending, target), base[c := done]), n)
            == Head(s, n)[target := Head(s, n)[target][c := done]]
  {}

  /** Of the first `n` intervals all but the last keep their samples: none has its runtime used
      again, unless it had no wanted sample. */
  ghost predicate KeepsSamples(iv: seq<Interval>, wanted: Option<set<ClientId>>, n: nat)
    requires n <= |iv|
  {
    forall t :: 0 <= t < n - 1 && Restrict(iv[t].samples, wanted) != map[] ==> !Reused(iv, t)
  }

  /** The first `n` snapshots after reading the intervals `g` of the file's `iv`. */
  ghost function HeadFrom(g: seq<Interval>, iv: seq<Interval>, wanted: Option<set<ClientId>>, n: nat)
    : (r: seq<Snapshot>)
    requires n <= |iv|
    ensures |r| == n
  {
    seq(n, t requires 0 <= t < n =>
      if t < |g| && !Reused(iv, t) then Restrict(g[t].samples, wanted) else map[])
  }

  /** The stream has not been carried past the interval being read. */
  ghost predicate InTime(s: Stream, g: seq<Interval>, iv: seq<Interval>, n: nat)
    requires n <= |iv|
  {
    |g| < n || (|g| == n > 0 && !Reused(iv, n - 1)) ==> |s.emitted| <= if g == [] then 0 else |g| - 1
  }

  ghost predicate HeadHolds(s: Stream, g: seq<Interval>, iv: seq<Interval>, wanted: Option<set<ClientId>>, n: nat)
    requires n <= |iv|
  {
    Head(s, n) == HeadFrom(g, iv, wanted, n) && InTime(s, g, iv, n)
  }

  /** A row that is not streamed adds no wanted sample. */
  lemma {:induction false} HeadSkips(g: seq<Interval>, row: Row, iv: seq<Interval>, wanted: Option<set<ClientId>>,
                                     n: nat)
    requires n <= |iv| && !(row.Counts() && Wants(wanted, row.client.value))
    ensures HeadFrom(Extended(g, row), iv, wanted, n) == HeadFrom(g, iv, wanted, n)
  {
    RestrictRow(map[], row, wanted);
    if g != [] {
      RestrictRow(g[|g| - 1].samples, row, wanted);
    }
    assert Restrict(map[], wanted) == map[];
  }

  /** A streamed row changes only the interval it belongs to. */
  lemma {:induction false} HeadTakes(g: seq<Interval>, row: Row, iv: seq<Interval>, wanted: Option<set<ClientId>>,
                                     n: nat)
    requires n <= |iv| && row.Counts() && Wants(wanted, row.client.value)
    ensures var own, before := |Extended(g, row)| - 1, HeadFrom(g, iv, wanted, n);
            HeadFrom(Extended(g, row), iv, wanted, n)
            == if own >= n || Reused(iv, own) then before
               else before[own := before[own][row.client.value := row.doneBytes.value]]
  {
    RestrictRow(map[], row, wanted);
    if g != [] {
      RestrictRow(g[|g| - 1].samples, row, wanted);
    }
    assert Restrict(map[], wanted) == map[];
  }

  lemma {:induction false} OwnTarget(g: seq<Interval>, row: Row, iv: seq<Interval>, wanted: Option<set<ClientId>>,
                                     n: nat)
    requires n <= |iv| && row.Counts() && Wants(wanted, row.client.value)
    requires GrowsTo(Extended(g, row), iv) && KeepsSamples(iv, wanted, n)
    ensures var own := |Extended(g, row)| - 1;
            && row.runtimeMs in RuntimeIndex(iv) && own <= RuntimeIndex(iv)[row.runtimeMs]
            && own < |iv| && (RuntimeIndex(iv)[row.runtimeMs] == own <==> !Reused(iv, own))
            && (own < n - 1 ==> !Reused(iv, own))
  {
    var g' := Extended(g, row);
    var own := |g'| - 1;
    IndexedAsOwn(iv, own);
    assert row.client.value in g'[own].samples;
    assert row.client.value in Restrict(iv[own].samples, wanted);
  }

  lemma {:induction false} HeadStep(s: Stream, row: Row, key: DomainKey, g: seq<Interval>, iv: seq<Interval>,
                                    wanted: Option<set<ClientId>>, n: nat)
    requires n <= |iv| && HeadHolds(s, g, iv, wanted, n) && row.key == key
    requires GrowsTo(Extended(g, row), iv) && KeepsSamples(iv, wanted, n)
    ensures HeadHolds(Fed(s, row, key, RuntimeIndex(iv), wanted), Extended(g, row), iv, wanted, n)
  {
    FedHead(s, row, key, RuntimeIndex(iv), wanted, n);
    if row.Counts() && Wants(wanted, row.client.value) {
      OwnTarget(g, row, iv, wanted, n);
      HeadTakes(g, row, iv, wanted, n);
    } else {
      HeadSkips(g, row, iv, wanted, n);
    }
  }

  lemma {:induction false} AlwaysHead(rows: seq<Row>, i: nat, key: DomainKey, wanted: Option<set<ClientId>>, n: nat)
    requires i <= |rows| && n <= |DomainIntervals(rows, key)|
    requires KeepsSamples(DomainIntervals(rows, key), wanted, n)
    ensures var iv := DomainIntervals(rows, key);
            HeadHolds(StreamOf(rows[..i], key, RuntimeIndex(iv), wanted), DomainIntervals(rows[..i], key), iv, wanted,
                      n)
    decreases i
  {
    var iv := DomainIntervals(rows, key);
    if i == 0 {
      NoRowsNoIntervals(rows, key);
    } else {
      AlwaysHead(rows, i - 1, key, wanted, n);
      assert rows[..i] == rows[..i - 1] + [rows[i - 1]];
      DomainGrows(rows, i, key);
      StreamAppend(rows[..i - 1], rows[i - 1], key, RuntimeIndex(iv), wanted);
      RowOfDomain(rows[..i - 1], rows[i - 1], key);
      if rows[i - 1].key == key {
        HeadStep(StreamOf(rows[..i - 1], key, RuntimeIndex(iv), wanted), rows[i - 1], key,
                 DomainIntervals(rows[..i - 1], key), iv, wanted, n);
      }
    }
  }

  lemma {:induction false} StreamedHead(rows: seq<Row>, key: DomainKey, wanted: Option<set<ClientId>>, n: nat)
    requires n <= |DomainIntervals(rows, key)|
    ensures var iv := DomainIntervals(rows, key);
            && |Streamed(rows, key, wanted)| == |iv|
            && Streamed(rows, key, wanted)[..n] == Head(StreamOf(rows, key, RuntimeIndex(iv), wanted), n)
  {
    AlwaysStreaming(rows, |rows|, key, wanted);
    assert rows[..|rows|] == rows;
    StreamedExactly(rows, key, wanted);
  }

  /** While sampled intervals keep their runtimes to themselves, the first `n` snapshots are what
      survives of the first `n` intervals, whatever the rest of the file does. */
  lemma {:induction false} FirstSnapshots(rows: seq<Row>, key: DomainKey, wanted: Option<set<ClientId>>, n: nat)
    requires n <= |DomainIntervals(rows, key)| && KeepsSamples(DomainIntervals(rows, key), wanted, n)
    ensures |Streamed(rows, key, wanted)| == |DomainIntervals(rows, key)|
    ensures forall t :: 0 <= t < n ==>
      Streamed(rows, key, wanted)[t] == Surviving(DomainIntervals(rows, key), wanted, t)
  {
    var iv := DomainIntervals(rows, key);
    AlwaysHead(rows, |rows|, key, wanted, n);
    assert rows[..|rows|] == rows;
    StreamedHead(rows, key, wanted, n);
    forall t | 0 <= t < n
      ensures Streamed(rows, key, wanted)[t] == Surviving(iv, wanted, t)
    {
      assert Streamed(rows, key, wanted)[t] == Streamed(rows, key, wanted)[..n][t];
      assert HeadFrom(iv, iv, wanted, n)[t] == Surviving(iv, wanted, t);
    }
  }

  // ----- the exact condition -----

  /** The tail leaves every interval of `iv0` its wanted samples. */
  ghost predicate Spared(iv0: seq<Interval>, iv: seq<Interval>, wanted: Option<set<ClientId>>) {
    |iv0| <= |iv| && forall t :: 0 <= t < |iv0| ==> Surviving(iv, wanted, t) == Restrict(iv0[t].samples, wanted)
  }

  lemma {:induction false} TailGrows(common: seq<Row>, tail: seq<Row>, key: DomainKey)
    ensures GrowsTo(DomainIntervals(common, key), DomainIntervals(common + tail, key))
  {
    assert (common + tail)[..|common|] == common;
    DomainGrows(common + tail, |common|, key);
  }

  /** The snapshots of a file without echoes are still the first ones once a tail follows, if and
      only if what survives of each of its intervals is the wanted samples it had: the tail uses
      the runtime of none with wanted samples again, and the last interval gains none that
      survive. */
  lemma {:induction false} TailSparesExactly(common: seq<Row>, tail: seq<Row>, key: DomainKey,
                                             wanted: Option<set<ClientId>>)
    requires NoEcho(DomainIntervals(common, key), wanted)
    ensures Streamed(common, key, wanted) <= Streamed(common + tail, key, wanted)
            <==> Spared(DomainIntervals(common, key), DomainIntervals(common + tail, key), wanted)
  {
    var rows := common + tail;
    var iv0, iv := DomainIntervals(common, key), DomainIntervals(rows, key);
    var n := |iv0|;
    TailGrows(common, tail, key);
    StreamedExactly(common, key, wanted);
    StreamedExactly(rows, key, wanted);
    if Streamed(common, key, wanted) <= Streamed(rows, key, wanted) {
      PrefixKeeps(common, rows, key, wanted);
      FirstSnapshots(rows, key, wanted, n);
      forall t | 0 <= t < n
        ensures Surviving(iv, wanted, t) == Restrict(iv0[t].samples, wanted)
      {
        assert Streamed(rows, key, wanted)[t] == Streamed(common, key, wanted)[t];
      }
    }
    if Spared(iv0, iv, wanted) {
      SparedKeeps(iv0, iv, wanted);
      FirstSnapshots(rows, key, wanted, n);
      assert forall t :: 0 <= t < n ==> Streamed(rows, key, wanted)[t] == Streamed(common, key, wanted)[t];
    }
  }

  lemma {:induction false} PrefixKeeps(common: seq<Row>, rows: seq<Row>, key: DomainKey,
                                       wanted: Option<set<ClientId>>)
    requires GrowsTo(DomainIntervals(common, key), DomainIntervals(rows, key))
    requires NoEcho(DomainIntervals(common, key), wanted)
    requires Streamed(common, key, wanted) <= Streamed(rows, key, wanted)
    ensures KeepsSamples(DomainIntervals(rows, key), wanted, |DomainIntervals(common, key)|)
  {
    var iv0, iv := DomainIntervals(common, key), DomainIntervals(rows, key);
    StreamedExactly(common, key, wanted);
    forall t | 0 <= t < |iv0| - 1 && Restrict(iv[t].samples, wanted) != map[]
      ensures !Reused(iv, t)
    {
      assert Streamed(common, key, wanted)[t] == Restrict(iv0[t].samples, wanted);
      if Reused(iv, t) {
        ReusedIsEmpty(rows, key, wanted, t);
      }
    }
  }

  lemma {:induction false} SparedKeeps(iv0: seq<Interval>, iv: seq<Interval>, wanted: Option<set<ClientId>>)
    requires GrowsTo(iv0, iv) && Spared(iv0, iv, wanted)
    ensures KeepsSamples(iv, wanted, |iv0|)
  {
    forall t | 0 <= t < |iv0| - 1 && Restrict(iv[t].samples, wanted) != map[]
      ensures !Reused(iv, t)
    {
      assert Surviving(iv, wanted, t) == Restrict(iv0[t].samples, wanted);
    }
  }

  // ----- tails with new runtimes only -----

  /** No row of the domain in `tail` has the runtime of an interval of `common`. */
  ghost predicate NewRuntimes(common: seq<Row>, tail: seq<Row>, key: DomainKey) {
    forall i, t :: 0 <= i < |tail| && tail[i].key == key && 0 <= t < |DomainIntervals(common, key)| ==>
      tail[i].runtimeMs != DomainIntervals(common, key)[t].runtimeMs
  }

  /** The intervals `iv0` come first and later ones have other runtimes. */
  ghost predicate Continues(iv0: seq<Interval>, iv: seq<Interval>) {
    iv0 <= iv && forall t, u :: 0 <= t < |iv0| <= u < |iv| ==> iv[u].runtimeMs != iv0[t].runtimeMs
  }

  lemma {:induction false} ContinuesStep(iv0: seq<Interval>, g: seq<Interval>, row: Row)
    requires Continues(iv0, g) && forall t :: 0 <= t < |iv0| ==> row.runtimeMs != iv0[t].runtimeMs
    ensures Continues(iv0, Extended(g, row))
  {
    if g == iv0 {
      assert Extended(g, row) == g + [Interval(row.runtimeMs, WithRow(map[], row))];
    }
  }

  lemma {:induction false} TailContinues(common: seq<Row>, tail: seq<Row>, key: DomainKey)
    requires NewRuntimes(common, tail, key)
    ensures Continues(DomainIntervals(common, key), DomainIntervals(common + tail, key))
  {
    if tail == [] {
      assert common + tail == common;
    } else {
      var n := |tail| - 1;
      TailContinues(common, tail[..n], key);
      assert common + tail == common + tail[..n] + [tail[n]];
      RowOfDomain(common + tail[..n], tail[n], key);
      if tail[n].key == key {
        ContinuesStep(DomainIntervals(common, key), DomainIntervals(common + tail[..n], key), tail[n]);
      }
    }
  }

  lemma {:induction false} IndexContinues(iv0: seq<Interval>, iv: seq<Interval>, runtimeMs: int)
    requires Continues(iv0, iv) && runtimeMs in RuntimeIndex(iv)
    ensures if exists t :: 0 <= t < |iv0| && iv0[t].runtimeMs == runtimeMs
            then runtimeMs in RuntimeIndex(iv0) && RuntimeIndex(iv)[runtimeMs] == RuntimeIndex(iv0)[runtimeMs] < |iv0|
            else runtimeMs !in RuntimeIndex(iv0) && RuntimeIndex(iv)[runtimeMs] >= |iv0|
  {
    IndexedRuntime(iv, runtimeMs);
    var x := RuntimeIndex(iv)[runtimeMs];
    if t :| 0 <= t < |iv0| && iv0[t].runtimeMs == runtimeMs {
      IndexedInterval(iv0, t);
      IndexedInterval(iv, RuntimeIndex(iv0)[runtimeMs]);
      IndexedInterval(iv0, x);
    } else if runtimeMs in RuntimeIndex(iv0) {
      IndexedRuntime(iv0, runtimeMs);
    }
  }

  lemma {:induction false} RowHasInterval(rows: seq<Row>, k: nat, key: DomainKey) returns (t: nat)
    requires k < |rows| && rows[k].key == key
    ensures t < |DomainIntervals(rows, key)| && DomainIntervals(rows, key)[t].runtimeMs == rows[k].runtimeMs
  {
    assert rows[..k + 1] == rows[..k] + [rows[k]];
    RowOfDomain(rows[..k], rows[k], key);
    DomainGrows(rows, k + 1, key);
    t := |DomainIntervals(rows[..k + 1], key)| - 1;
  }

  /** The index of the longer file sends the rows of `common` where its own index does. */
  lemma {:induction false} SameStream(common: seq<Row>, i: nat, key: DomainKey, iv: seq<Interval>,
                                      wanted: Option<set<ClientId>>)
    requires i <= |common| && Continues(DomainIntervals(common, key), iv)
    ensures StreamOf(common[..i], key, RuntimeIndex(iv), wanted)
            == StreamOf(common[..i], key, RuntimeIndex(DomainIntervals(common, key)), wanted)
    decreases i
  {
    if i > 0 {
      var iv0, row := DomainIntervals(common, key), common[i - 1];
      SameStream(common, i - 1, key, iv, wanted);
      assert common[..i] == common[..i - 1] + [row];
      StreamAppend(common[..i - 1], row, key, RuntimeIndex(iv), wanted);
      StreamAppend(common[..i - 1], row, key, RuntimeIndex(iv0), wanted);
      if row.key == key {
        SameTarget(common, i - 1, key, iv);
      }
      SameFed(StreamOf(common[..i - 1], key, RuntimeIndex(iv), wanted), row, key, RuntimeIndex(iv0), RuntimeIndex(iv),
              wanted);
    }
  }

  lemma {:induction false} SameTarget(common: seq<Row>, k: nat, key: DomainKey, iv: seq<Interval>)
    requires k < |common| && common[k].key == key && Continues(DomainIntervals(common, key), iv)
    ensures var index0, index := RuntimeIndex(DomainIntervals(common, key)), RuntimeIndex(iv);
            && common[k].runtimeMs in index0 && common[k].runtimeMs in index
            && index0[common[k].runtimeMs] == index[common[k].runtimeMs]
  {
    var t := RowHasInterval(common, k, key);
    IndexedInterval(iv, t);
    IndexContinues(DomainIntervals(common, key), iv, common[k].runtimeMs);
  }

  lemma {:induction false} SameFed(s: Stream, row: Row, key: DomainKey, index0: map<int, nat>, index: map<int, nat>,
                                   wanted: Option<set<ClientId>>)
    requires row.key == key ==> row.runtimeMs in index0 && row.runtimeMs in index
                                && index0[row.runtimeMs] == index[row.runtimeMs]
    ensures Fed(s, row, key, index0, wanted) == Fed(s, row, key, index, wanted)
  {}

  /** Rows with new runtimes leave the first snapshots alone. */
  lemma {:induction false} TailKeepsHead(common: seq<Row>, tail: seq<Row>, j: nat, key: DomainKey, iv: seq<Interval>,
                                         wanted: Option<set<ClientId>>)
    requires j <= |tail| && Continues(DomainIntervals(common, key), iv) && NewRuntimes(common, tail, key)
    ensures Head(StreamOf(common + tail[..j], key, RuntimeIndex(iv), wanted), |DomainIntervals(common, key)|)
            == Head(StreamOf(common, key, RuntimeIndex(iv), wanted), |DomainIntervals(common, key)|)
    decreases j
  {
    if j == 0 {
      assert common + tail[..j] == common;
    } else {
      var row, iv0 := tail[j - 1], DomainIntervals(common, key);
      TailKeepsHead(common, tail, j - 1, key, iv, wanted);
      assert common + tail[..j] == common + tail[..j - 1] + [row];
      StreamAppend(common + tail[..j - 1], row, key, RuntimeIndex(iv), wanted);
      FedHead(StreamOf(common + tail[..j - 1], key, RuntimeIndex(iv), wanted), row, key, RuntimeIndex(iv), wanted,
              |iv0|);
      if row.key == key && row.runtimeMs in RuntimeIndex(iv) {
        IndexContinues(iv0, iv, row.runtimeMs);
      }
    }
  }

  /** In any file, with echoes or not, rows that use no earlier runtime of the domain leave the
      snapshots streamed so far as they were. */
  lemma {:induction false} NewRuntimesSpare(common: seq<Row>, tail: seq<Row>, key: DomainKey,
                                            wanted: Option<set<ClientId>>)
    requires NewRuntimes(common, tail, key)
    ensures Streamed(common, key, wanted) <= Streamed(common + tail, key, wanted)
    ensures DomainIntervals(common, key) <= DomainIntervals(common + tail, key)
  {
    var iv0, iv := DomainIntervals(common, key), DomainIntervals(common + tail, key);
    TailContinues(common, tail, key);
    SameStream(common, |common|, key, iv, wanted);
    assert common[..|common|] == common;
    TailKeepsHead(common, tail, |tail|, key, iv, wanted);
    assert tail[..|tail|] == tail;
    StreamedHead(common, key, wanted, |iv0|);
    StreamedHead(common + tail, key, wanted, |iv0|);
    assert Streamed(common, key, wanted)[..|iv0|] == Streamed(common, key, wanted);
  }
}
