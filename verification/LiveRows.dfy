/** The rows of an elbencho live CSV, and what they mean: a sequence of intervals, each
    with the last DoneBytes every client reported in it. */
module LiveRows {

  datatype Option<+T> = None | Some(value: T)

  const MIB := 1048576.0

  /** A standalone worker or a distributed service. */
  datatype ClientId = ClientId(rank: string, service: string)

  /** An independent counter domain: a phase, a mix type and which repetition of them. */
  datatype DomainKey = DomainKey(phase: string, mixType: string, occurrence: nat)

  /** One parsed row.  Only `Rank=Total` rows carry an aggregate rate; a client row may
      lack its client or its counter. */
  datatype Row =
    | TotalRow(key: DomainKey, runtimeMs: int, doneBytes: Option<int>, mibPerSec: Option<real>)
    | SampleRow(key: DomainKey, runtimeMs: int, client: Option<ClientId>, doneBytes: Option<int>)
  {
    predicate Counts() {
      SampleRow? && client.Some? && doneBytes.Some?
    }
  }

  /** DoneBytes per client within one interval. */
  type Snapshot = map<ClientId, int>

  datatype Interval = Interval(runtimeMs: int, samples: Snapshot)

  /** The rows of one domain, in stream order. */
  function RowsOf(rows: seq<Row>, key: DomainKey): (r: seq<Row>)
  {
    if rows == [] then []
    else
      var earlier := RowsOf(rows[..|rows| - 1], key);
      if rows[|rows| - 1].key == key then earlier + [rows[|rows| - 1]] else earlier
  }

  ghost function KeysOf(rows: seq<Row>): set<DomainKey> {
    set row | row in rows :: row.key
  }

  lemma {:induction false} RowsOfAppend(rows: seq<Row>, row: Row, key: DomainKey)
    ensures RowsOf(rows + [row], key) == if row.key == key then RowsOf(rows, key) + [row] else RowsOf(rows, key)
  {
    assert (rows + [row])[..|rows|] == rows;
  }

  lemma {:induction false} IntervalsAppend(rows: seq<Row>, row: Row)
    ensures IntervalsOf(rows + [row]) == Extended(IntervalsOf(rows), row)
  {
    assert (rows + [row])[..|rows|] == rows;
  }

  /** The intervals of one domain's rows: maximal runs of one RuntimeMS. */
  function IntervalsOf(rows: seq<Row>): (r: seq<Interval>) {
    if rows == [] then [] else Extended(IntervalsOf(rows[..|rows| - 1]), rows[|rows| - 1])
  }

  /** The intervals once one more row of the domain arrives. */
  function Extended(intervals: seq<Interval>, row: Row): (r: seq<Interval>)
    ensures r != [] && r[|r| - 1].runtimeMs == row.runtimeMs
  {
    var n := |intervals|;
    if n > 0 && intervals[n - 1].runtimeMs == row.runtimeMs then
      intervals[..n - 1] + [Interval(row.runtimeMs, WithRow(intervals[n - 1].samples, row))]
    else
      intervals + [Interval(row.runtimeMs, WithRow(map[], row))]
  }

  /** Neighbouring intervals have different runtimes. */
  lemma {:induction false} NeighboursDiffer(rows: seq<Row>, t: int)
    requires 0 < t < |IntervalsOf(rows)|
    ensures IntervalsOf(rows)[t - 1].runtimeMs != IntervalsOf(rows)[t].runtimeMs
  {
    var earlier := IntervalsOf(rows[..|rows| - 1]);
    if t < |earlier| {
      NeighboursDiffer(rows[..|rows| - 1], t);
    }
  }

  function WithRow(samples: Snapshot, row: Row): Snapshot {
    if row.Counts() then samples[row.client.value := row.doneBytes.value] else samples
  }

  ghost function Runtimes(intervals: seq<Interval>): (r: seq<int>)
    ensures |r| == |intervals|
  {
    seq(|intervals|, t requires 0 <= t < |intervals| => intervals[t].runtimeMs)
  }

  ghost function Snapshots(intervals: seq<Interval>): (r: seq<Snapshot>)
    ensures |r| == |intervals|
  {
    seq(|intervals|, t requires 0 <= t < |intervals| => intervals[t].samples)
  }

  /** The intervals of one domain of a file. */
  ghost function DomainIntervals(rows: seq<Row>, key: DomainKey): seq<Interval> {
    IntervalsOf(RowsOf(rows, key))
  }

  /** Every client with a sample somewhere. */
  ghost function ClientsOf(intervals: seq<Interval>): set<ClientId> {
    if intervals == [] then {}
    else ClientsOf(intervals[..|intervals| - 1]) + intervals[|intervals| - 1].samples.Keys
  }

  /** Interval runtimes strictly increase. */
  ghost predicate Increasing(intervals: seq<Interval>) {
    forall s, t :: 0 <= s < t < |intervals| ==> intervals[s].runtimeMs < intervals[t].runtimeMs
  }

  lemma {:induction false} ClientsOfMeaning(intervals: seq<Interval>, client: ClientId)
    ensures client in ClientsOf(intervals) <==>
            exists t :: 0 <= t < |intervals| && client in intervals[t].samples
  {
    if intervals != [] {
      var n := |intervals| - 1;
      ClientsOfMeaning(intervals[..n], client);
      if client in ClientsOf(intervals[..n]) {
        var t :| 0 <= t < n && client in intervals[..n][t].samples;
        assert client in intervals[t].samples;
      }
      if exists t :: 0 <= t < |intervals| && client in intervals[t].samples {
        var t :| 0 <= t < |intervals| && client in intervals[t].samples;
        if t < n {
          assert client in intervals[..n][t].samples;
        }
      }
    }
  }

  /** What reading on may do to intervals already seen: only the last can change, and in
      it samples are only added or overwritten. */
  ghost predicate GrowsTo(g: seq<Interval>, full: seq<Interval>) {
    && |g| <= |full|
    && (forall t :: 0 <= t < |g| - 1 ==> g[t] == full[t])
    && (g != [] ==> && g[|g| - 1].runtimeMs == full[|g| - 1].runtimeMs
                    && g[|g| - 1].samples.Keys <= full[|g| - 1].samples.Keys)
  }

  lemma {:induction false} ExtendedGrows(g: seq<Interval>, row: Row)
    ensures GrowsTo(g, Extended(g, row))
  {}

  lemma {:induction false} GrowsTransitive(a: seq<Interval>, b: seq<Interval>, c: seq<Interval>)
    requires GrowsTo(a, b) && GrowsTo(b, c)
    ensures GrowsTo(a, c)
  {}

  lemma {:induction false} PrefixIntervals(rows: seq<Row>, k: nat)
    requires k <= |rows|
    ensures GrowsTo(IntervalsOf(rows[..k]), IntervalsOf(rows))
    decreases |rows| - k
  {
    if k == |rows| {
      assert rows[..k] == rows;
    } else {
      assert rows[..k + 1][..k] == rows[..k];
      PrefixIntervals(rows, k + 1);
      ExtendedGrows(IntervalsOf(rows[..k]), rows[k]);
      GrowsTransitive(IntervalsOf(rows[..k]), IntervalsOf(rows[..k + 1]), IntervalsOf(rows));
    }
  }
}
