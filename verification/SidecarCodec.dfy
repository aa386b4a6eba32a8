/** The sidecar's delta encoding of DoneBytes, and what it means on snapshots. */
module SidecarCodec {
  import opened LiveRows
  import opened StableSort
  import opened Dictionaries
  import opened SnapshotRing

  function Or0(x: Option<int>): int {
    if x.Some? then x.value else 0
  }

  /** One interval's samples as one cell per column. */
  ghost function Cells(s: Snapshot, clients: seq<ClientId>): (r: seq<Option<int>>)
    ensures |r| == |clients|
  {
    seq(|clients|, k requires 0 <= k < |clients| => Get(s, clients[k]))
  }

  /** A cell's delta against the column's last emitted value; the first is absolute. */
  function Delta(last: Option<int>, done: Option<int>): Option<int> {
    if done.Some? then Some(done.value - Or0(last)) else None
  }

  function Deltas(last: seq<Option<int>>, done: seq<Option<int>>): (r: seq<Option<int>>)
    requires |last| == |done|
    ensures |r| == |done|
  {
    seq(|done|, k requires 0 <= k < |done| => Delta(last[k], done[k]))
  }

  function Merge(last: seq<Option<int>>, done: seq<Option<int>>): (r: seq<Option<int>>)
    requires |last| == |done|
    ensures |r| == |done|
  {
    seq(|done|, k requires 0 <= k < |done| => if done[k].Some? then done[k] else last[k])
  }

  /** What the sidecar must hold for a history of snapshots: one row of deltas per interval. */
  ghost function Encoded(h: seq<Snapshot>, clients: seq<ClientId>): (r: seq<seq<Option<int>>>)
    ensures |r| == |h|
  {
    seq(|h|, t requires 0 <= t < |h| => EncodedRow(h[..t], h[t], clients))
  }

  /** One interval's row of deltas, after the snapshots `before`. */
  ghost function EncodedRow(before: seq<Snapshot>, s: Snapshot, clients: seq<ClientId>): (r: seq<Option<int>>)
    ensures |r| == |clients|
  {
    Deltas(Cells(LastDone(before), clients), Cells(s, clients))
  }

  lemma {:induction false} EncodedAppend(h: seq<Snapshot>, s: Snapshot, clients: seq<ClientId>)
    ensures Encoded(h + [s], clients) == Encoded(h, clients) + [EncodedRow(h, s, clients)]
  {
    var more := h + [s];
    assert more[..|h|] == h;
    forall t | 0 <= t < |h|
      ensures Encoded(more, clients)[t] == Encoded(h, clients)[t]
    {
      assert more[..t] == h[..t] && more[t] == h[t];
    }
  }

  lemma {:induction false} CellsAppend(h: seq<Snapshot>, s: Snapshot, clients: seq<ClientId>)
    ensures Cells(LastDone(h + [s]), clients) == Merge(Cells(LastDone(h), clients), Cells(s, clients))
  {
    assert (h + [s])[..|h|] == h;
  }

  /** One interval's samples and each column's last emitted DoneBytes. */
  class IntervalSamples {
    const count: nat
    var lastDone: seq<Option<int>>
    var done: seq<Option<int>>

    ghost predicate Valid()
      reads this
    {
      |lastDone| == |done| == count
    }

    constructor (count: nat)
      ensures Valid() && this.count == count
      ensures lastDone == seq(count, _ => None) && done == seq(count, _ => None)
    {
      this.count := count;
      lastDone, done := seq(count, _ => None), seq(count, _ => None);
    }

    /** The deltas of the interval; its samples become the base of the next deltas. */
    method Emit() returns (deltas: seq<Option<int>>)
      requires Valid()
      modifies this
      ensures Valid()
      ensures deltas == Deltas(old(lastDone), old(done))
      ensures lastDone == Merge(old(lastDone), old(done)) && done == seq(count, _ => None)
    {
      deltas := seq(count, _ => None);
      for position := 0 to count
        invariant |deltas| == count && Valid() && done == old(done)
        invariant forall k :: 0 <= k < position ==>
          deltas[k] == Delta(old(lastDone)[k], done[k]) && lastDone[k] == Merge(old(lastDone), done)[k]
        invariant forall k :: position <= k < count ==> deltas[k] == None && lastDone[k] == old(lastDone)[k]
      {
        if done[position].Some? {
          deltas := deltas[position := Some(done[position].value - Or0(lastDone[position]))];
          lastDone := lastDone[position := done[position]];
        }
      }
      assert deltas == Deltas(old(lastDone), done);
      assert lastDone == Merge(old(lastDone), done);
      done := seq(count, _ => None);
    }
  }

  // ----- decoding -----

  /** The running sum of each column after the first `t` rows of deltas. */
  ghost function Accumulated(deltas: seq<seq<Option<int>>>, width: nat, t: nat): (r: seq<int>)
    requires t <= |deltas| && Rectangular(deltas, width)
    ensures |r| == width
  {
    if t == 0 then seq(width, _ => 0) else Added(Accumulated(deltas, width, t - 1), deltas[t - 1])
  }

  /** Sums once a row of deltas is added; a missing cell adds nothing. */
  ghost function Added(sums: seq<int>, deltas: seq<Option<int>>): (r: seq<int>)
    requires |sums| == |deltas|
    ensures |r| == |sums|
  {
    seq(|sums|, k requires 0 <= k < |sums| => sums[k] + Or0(deltas[k]))
  }

  /** The samples the decoder reads out of the first `n` cells of a row of deltas, given
      the sums it leads to. */
  ghost function SamplesFrom(deltas: seq<Option<int>>, sums: seq<int>, clients: seq<ClientId>, n: nat): Snapshot
    requires |deltas| == |sums| == |clients| && n <= |clients|
  {
    if n == 0 then map[]
    else
      var before := SamplesFrom(deltas, sums, clients, n - 1);
      if deltas[n - 1].Some? then before[clients[n - 1] := sums[n - 1]] else before
  }

  ghost predicate Rectangular(deltas: seq<seq<Option<int>>>, width: nat) {
    forall i :: 0 <= i < |deltas| ==> |deltas[i]| == width
  }

  /** What a sidecar says: the intervals and samples it stands for. */
  ghost function Decoded(elapsed: seq<int>, deltas: seq<seq<Option<int>>>, clients: seq<ClientId>): (r: seq<Interval>)
    requires |elapsed| == |deltas| && Rectangular(deltas, |clients|)
    ensures |r| == |elapsed|
  {
    seq(|elapsed|, t requires 0 <= t < |elapsed| =>
      Interval(elapsed[t], SamplesFrom(deltas[t], Accumulated(deltas, |clients|, t + 1), clients, |clients|)))
  }

  /** Summing an encoded column gives back the last sample. */
  lemma {:induction false} SumsAreLastDone(h: seq<Snapshot>, clients: seq<ClientId>, t: nat, k: nat)
    requires t <= |h| && k < |clients|
    ensures Rectangular(Encoded(h, clients), |clients|)
    ensures Accumulated(Encoded(h, clients), |clients|, t)[k] == Or0(Get(LastDone(h[..t]), clients[k]))
  {
    if t > 0 {
      SumsAreLastDone(h, clients, t - 1, k);
      assert h[..t][..t - 1] == h[..t - 1];
      assert Encoded(h, clients)[t - 1] == EncodedRow(h[..t - 1], h[t - 1], clients);
    }
  }

  lemma {:induction false} SamplesFromMeaning(deltas: seq<Option<int>>, sums: seq<int>, clients: seq<ClientId>,
                                              n: nat, c: ClientId)
    requires |deltas| == |sums| == |clients| && n <= |clients| && Distinct(clients)
    ensures c in SamplesFrom(deltas, sums, clients, n) <==> exists k :: 0 <= k < n && clients[k] == c && deltas[k].Some?
    ensures forall k :: 0 <= k < n && clients[k] == c && deltas[k].Some? ==>
      c in SamplesFrom(deltas, sums, clients, n) && SamplesFrom(deltas, sums, clients, n)[c] == sums[k]
  {
    if n > 0 {
      SamplesFromMeaning(deltas, sums, clients, n - 1, c);
    }
  }

  /** Decoding one encoded interval gives back its samples. */
  lemma {:induction false} IntervalRoundTrip(h: seq<Snapshot>, clients: seq<ClientId>, t: nat)
    requires t < |h| && Distinct(clients) && forall c :: c in h[t] ==> c in clients
    ensures Rectangular(Encoded(h, clients), |clients|)
    ensures SamplesFrom(Encoded(h, clients)[t], Accumulated(Encoded(h, clients), |clients|, t + 1), clients, |clients|)
            == h[t]
  {
    forall c {
      CellRoundTrip(h, clients, t, c);
    }
    SameDictionary(DecodedAt(h, clients, t), h[t]);
  }

  ghost function DecodedAt(h: seq<Snapshot>, clients: seq<ClientId>, t: nat): Snapshot
    requires t < |h|
  {
    var row := Encoded(h, clients);
    SamplesFrom(row[t], Accumulated(row, |clients|, t + 1), clients, |clients|)
  }

  lemma {:induction false} CellRoundTrip(h: seq<Snapshot>, clients: seq<ClientId>, t: nat, c: ClientId)
    requires t < |h| && Distinct(clients) && forall c :: c in h[t] ==> c in clients
    ensures Get(DecodedAt(h, clients, t), c) == Get(h[t], c)
  {
    var row := Encoded(h, clients)[t];
    SamplesFromMeaning(row, Accumulated(Encoded(h, clients), |clients|, t + 1), clients, |clients|, c);
    assert forall k :: 0 <= k < |clients| ==> (row[k].Some? <==> clients[k] in h[t]);
    if c in h[t] {
      var k :| 0 <= k < |clients| && clients[k] == c;
      SumsAreLastDone(h, clients, t + 1, k);
      assert h[..t + 1][..t] == h[..t] && h[..t + 1][t] == h[t];
      assert LastDone(h[..t + 1])[c] == h[t][c];
    }
  }

  /** Round trip: decoding what the encoder must write gives back every interval. */
  lemma {:induction false} DecodeEncode(iv: seq<Interval>, clients: seq<ClientId>)
    requires Distinct(clients) && forall t, c :: 0 <= t < |iv| && c in iv[t].samples ==> c in clients
    ensures Rectangular(Encoded(Snapshots(iv), clients), |clients|)
    ensures Decoded(Runtimes(iv), Encoded(Snapshots(iv), clients), clients) == iv
  {
    var h := Snapshots(iv);
    var r := Decoded(Runtimes(iv), Encoded(h, clients), clients);
    forall t | 0 <= t < |iv|
      ensures r[t] == iv[t]
    {
      IntervalRoundTrip(h, clients, t);
    }
  }
}
