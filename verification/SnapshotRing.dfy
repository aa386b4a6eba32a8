/** The ring of recent snapshots.  With `depth + 1` snapshots and one last-reset index per
    client it answers window queries exactly as the full history would. */
module SnapshotRing {
  import opened LiveRows
  import opened Dictionaries

  // ----- the full-history meaning of a window -----

  /** The sampled counter never decreases between `begin` and `end`, gaps allowed. */
  ghost predicate NeverDrops(h: seq<Snapshot>, c: ClientId, begin: int, end: int)
    requires 0 <= begin <= end < |h|
  {
    forall i, j :: begin <= i <= j <= end && c in h[i] && c in h[j] ==> h[i][c] <= h[j][c]
  }

  /** The last sample at or before `t`, given one at `begin`. */
  ghost function Latest(h: seq<Snapshot>, c: ClientId, begin: int, t: int): int
    requires 0 <= begin <= t < |h| && c in h[begin]
  {
    if c in h[t] then h[t][c] else Latest(h, c, begin, t - 1)
  }

  /** All increments of the sampled counter in the window, added up. */
  ghost function Gained(h: seq<Snapshot>, c: ClientId, begin: int, t: int): int
    requires 0 <= begin <= t < |h| && c in h[begin]
  {
    if t == begin then 0
    else Gained(h, c, begin, t - 1) + if c in h[t] then h[t][c] - Latest(h, c, begin, t - 1) else 0
  }

  /** Bytes per client in the window: present exactly when both ends are sampled and the
      counter never dropped in between, and then the sum of its increments. */
  ghost function WindowBytes(h: seq<Snapshot>, begin: int, end: int): (r: Snapshot)
    requires 0 <= begin <= end < |h|
  {
    map c | c in h[end].Keys && c in h[begin] && NeverDrops(h, c, begin, end) :: Gained(h, c, begin, end)
  }

  lemma {:induction false} GainedTelescopes(h: seq<Snapshot>, c: ClientId, begin: int, t: int)
    requires 0 <= begin <= t < |h| && c in h[begin]
    ensures Gained(h, c, begin, t) == Latest(h, c, begin, t) - h[begin][c]
    decreases t
  {
    if t > begin {
      GainedTelescopes(h, c, begin, t - 1);
    }
  }

  lemma {:induction false} WindowNonNegative(h: seq<Snapshot>, begin: int, end: int, c: ClientId)
    requires 0 <= begin <= end < |h| && c in WindowBytes(h, begin, end)
    ensures WindowBytes(h, begin, end)[c] == h[end][c] - h[begin][c] >= 0
  {
    GainedTelescopes(h, c, begin, end);
  }

  // ----- what the ring keeps -----

  /** Every client's last sample. */
  ghost function LastDone(h: seq<Snapshot>): Snapshot {
    if h == [] then map[] else LastDone(h[..|h| - 1]) + h[|h| - 1]
  }

  /** Clients whose counter goes back from `before` to `snapshot`. */
  ghost function Dropped(before: Snapshot, snapshot: Snapshot): set<ClientId> {
    set c | c in snapshot && c in before && snapshot[c] < before[c]
  }

  /** Every client's last reset. */
  ghost function ResetAt(h: seq<Snapshot>): map<ClientId, int> {
    if h == [] then map[]
    else
      var n := |h| - 1;
      WithResets(ResetAt(h[..n]), Dropped(LastDone(h[..n]), h[n]), n)
  }

  lemma {:induction false} LastDoneIsLatest(h: seq<Snapshot>, c: ClientId, begin: int)
    requires 0 <= begin < |h| && c in h[begin]
    ensures c in LastDone(h) && LastDone(h)[c] == Latest(h, c, begin, |h| - 1)
  {
    var n := |h| - 1;
    if n > begin && c !in h[n] {
      LastDoneIsLatest(h[..n], c, begin);
      LatestPrefix(h, c, begin, n - 1, n);
    }
  }

  /** Later snapshots do not change what was latest. */
  lemma {:induction false} LatestPrefix(h: seq<Snapshot>, c: ClientId, begin: int, t: int, n: int)
    requires 0 <= begin <= t < n <= |h| && c in h[begin]
    ensures Latest(h[..n], c, begin, t) == Latest(h, c, begin, t)
    decreases t
  {
    if t > begin && c !in h[t] {
      LatestPrefix(h, c, begin, t - 1, n);
    }
  }

  lemma {:induction false} ResetInRange(h: seq<Snapshot>, c: ClientId)
    ensures c in ResetAt(h) ==> 0 <= ResetAt(h)[c] < |h|
  {
    if h != [] {
      ResetInRange(h[..|h| - 1], c);
    }
  }

  lemma {:induction false} LatestBounds(h: seq<Snapshot>, c: ClientId, begin: int, t: int)
    requires 0 <= begin <= t < |h| && c in h[begin] && NeverDrops(h, c, begin, t)
    ensures forall i :: begin <= i <= t && c in h[i] ==> h[i][c] <= Latest(h, c, begin, t)
    decreases t
  {
    if t > begin && c !in h[t] {
      LatestBounds(h, c, begin, t - 1);
    }
  }

  lemma {:induction false} LatestIsSample(h: seq<Snapshot>, c: ClientId, begin: int, t: int) returns (i: int)
    requires 0 <= begin <= t < |h| && c in h[begin]
    ensures begin <= i <= t && c in h[i] && h[i][c] == Latest(h, c, begin, t)
    decreases t
  {
    i := t;
    if t > begin && c !in h[t] {
      i := LatestIsSample(h, c, begin, t - 1);
    }
  }

  lemma {:induction false} NeverDropsPrefix(h: seq<Snapshot>, c: ClientId, begin: int, t: int, n: int)
    requires 0 <= begin <= t < n <= |h|
    ensures NeverDrops(h[..n], c, begin, t) <==> NeverDrops(h, c, begin, t)
  {
    assert forall i :: 0 <= i <= t ==> h[..n][i] == h[i];
    if NeverDrops(h[..n], c, begin, t) {
      forall i, j | begin <= i <= j <= t && c in h[i] && c in h[j]
        ensures h[i][c] <= h[j][c]
      {
        assert c in h[..n][i] && c in h[..n][j];
      }
    }
  }

  lemma {:induction false} ResetStep(h: seq<Snapshot>, c: ClientId)
    requires h != []
    ensures var n := |h| - 1;
            if c in Dropped(LastDone(h[..n]), h[n]) then c in ResetAt(h) && ResetAt(h)[c] == n
            else && (c in ResetAt(h) <==> c in ResetAt(h[..n]))
                 && (c in ResetAt(h) ==> ResetAt(h)[c] == ResetAt(h[..n])[c])
  {}

  lemma {:induction false} DropStep(h: seq<Snapshot>, c: ClientId, begin: int)
    requires 0 <= begin < |h| - 1 && c in h[begin]
    ensures var n := |h| - 1;
            && c in LastDone(h[..n])
            && (NeverDrops(h, c, begin, n) <==>
                NeverDrops(h[..n], c, begin, n - 1) && c !in Dropped(LastDone(h[..n]), h[n]))
  {
    var n := |h| - 1;
    NeverDropsPrefix(h, c, begin, n - 1, n);
    LastDoneIsLatest(h[..n], c, begin);
    LatestPrefix(h, c, begin, n - 1, n);
    if c in h[n] {
      if h[n][c] < LastDone(h[..n])[c] {
        var i := LatestIsSample(h, c, begin, n - 1);
        assert h[i][c] > h[n][c];
      } else if NeverDrops(h, c, begin, n - 1) {
        LatestBounds(h, c, begin, n - 1);
      }
    }
  }

  /** One last-reset index per client is enough: a client sampled at `begin` was reset after
      `begin` exactly when its sampled counter drops somewhere in the window. */
  lemma {:induction false} ResetMeansDrop(h: seq<Snapshot>, c: ClientId, begin: int)
    requires 0 <= begin < |h| && c in h[begin]
    ensures (c in ResetAt(h) && ResetAt(h)[c] > begin) <==> !NeverDrops(h, c, begin, |h| - 1)
  {
    var n := |h| - 1;
    ResetInRange(h, c);
    if n > begin {
      ResetMeansDrop(h[..n], c, begin);
      ResetStep(h, c);
      DropStep(h, c, begin);
    } else {
      NeverDropsAlone(h, c, begin);
    }
  }

  lemma {:induction false} NeverDropsAlone(h: seq<Snapshot>, c: ClientId, t: int)
    requires 0 <= t < |h|
    ensures NeverDrops(h, c, t, t)
  {}

  /** The window of `length` intervals ending at `end`. */
  ghost function WindowEnding(h: seq<Snapshot>, length: nat, end: int): Snapshot
    requires length <= end < |h|
  {
    WindowBytes(h, end - length, end)
  }

  /** A window depends only on the snapshots up to its end. */
  lemma {:induction false} WindowPrefix(h: seq<Snapshot>, n: int, begin: int, end: int)
    requires 0 <= begin <= end < n <= |h|
    ensures WindowBytes(h[..n], begin, end) == WindowBytes(h, begin, end)
  {
    forall c | c in h[begin] && c in h[end]
      ensures NeverDrops(h[..n], c, begin, end) <==> NeverDrops(h, c, begin, end)
      ensures Gained(h[..n], c, begin, end) == Gained(h, c, begin, end)
    {
      NeverDropsPrefix(h, c, begin, end, n);
      GainedTelescopes(h, c, begin, end);
      GainedTelescopes(h[..n], c, begin, end);
    }
  }

  // ----- the ring -----

  ghost function DeltasBetween(snapshot: Snapshot, previous: Snapshot, resets: map<ClientId, int>, begin: int)
    : Snapshot
  {
    map c | c in snapshot && c in previous && snapshot[c] >= previous[c] && !(c in resets && resets[c] > begin)
      :: snapshot[c] - previous[c]
  }

  lemma {:induction false} RingAnswer(h: seq<Snapshot>, c: ClientId, begin: int)
    requires 0 <= begin < |h| && c in h[begin] && c in h[|h| - 1]
    ensures var t := |h| - 1;
            && Gained(h, c, begin, t) == h[t][c] - h[begin][c]
            && (NeverDrops(h, c, begin, t) <==>
                h[t][c] >= h[begin][c] && !(c in ResetAt(h) && ResetAt(h)[c] > begin))
  {
    ResetMeansDrop(h, c, begin);
    GainedTelescopes(h, c, begin, |h| - 1);
  }

  /** Two snapshots and the last resets give the window's bytes from full history. */
  lemma {:induction false} RingAnswers(h: seq<Snapshot>, begin: int)
    requires 0 <= begin < |h|
    ensures DeltasBetween(h[|h| - 1], h[begin], ResetAt(h), begin) == WindowBytes(h, begin, |h| - 1)
  {
    var deltas := DeltasBetween(h[|h| - 1], h[begin], ResetAt(h), begin);
    var bytes := WindowBytes(h, begin, |h| - 1);
    forall c
      ensures Get(deltas, c) == Get(bytes, c)
    {
      if c in h[|h| - 1] && c in h[begin] {
        RingAnswer(h, c, begin);
      }
    }
    SameDictionary(deltas, bytes);
  }

  /** The part of the history the ring keeps. */
  ghost function Kept(h: seq<Snapshot>, depth: nat): map<int, Snapshot> {
    map i | 0 <= i < |h| && |h| - depth - 1 <= i :: h[i]
  }

  lemma {:induction false} KeptStep(h: seq<Snapshot>, s: Snapshot, depth: nat)
    ensures Kept(h + [s], depth) == Kept(h, depth)[|h| := s] - {|h| - depth - 1}
  {}

  lemma {:induction false} AddStep(h: seq<Snapshot>, s: Snapshot)
    ensures LastDone(h + [s]) == LastDone(h) + s
    ensures ResetAt(h + [s]) == WithResets(ResetAt(h), Dropped(LastDone(h), s), |h|)
  {
    assert (h + [s])[..|h|] == h;
  }

  ghost function WithResets(resets: map<ClientId, int>, dropped: set<ClientId>, interval: int): map<ClientId, int> {
    resets + map c | c in dropped :: interval
  }

  method NoteResets(resetAt: map<ClientId, int>, lastDone: Snapshot, snapshot: Snapshot, interval: int)
    returns (resets: map<ClientId, int>)
    ensures resets == WithResets(resetAt, Dropped(lastDone, snapshot), interval)
  {
    ghost var done: set<ClientId>, dropped := {}, Dropped(lastDone, snapshot);
    var todo := snapshot.Keys;
    resets := resetAt;
    while todo != {}
      invariant done + todo == snapshot.Keys && done !! todo
      invariant resets == WithResets(resetAt, dropped * done, interval)
    {
      var c :| c in todo;
      if c in lastDone && snapshot[c] < lastDone[c] {
        resets := resets[c := interval];
        assert dropped * (done + {c}) == dropped * done + {c};
      } else {
        assert dropped * (done + {c}) == dropped * done;
      }
      todo, done := todo - {c}, done + {c};
    }
    assert dropped * done == dropped;
  }

  method WindowDeltas(snapshot: Snapshot, previous: Snapshot, resets: map<ClientId, int>, begin: int)
    returns (deltas: Snapshot)
    ensures deltas == DeltasBetween(snapshot, previous, resets, begin)
  {
    deltas := map[];
    var todo := snapshot.Keys;
    while todo != {}
      invariant todo <= snapshot.Keys
      invariant deltas == DeltasBetween(map c | c in snapshot && c !in todo :: snapshot[c], previous, resets, begin)
    {
      var c :| c in todo;
      todo := todo - {c};
      if c !in previous || snapshot[c] < previous[c] {
        continue;
      }
      if c in resets && resets[c] > begin {
        continue;
      }
      deltas := deltas[c := snapshot[c] - previous[c]];
    }
    assert (map c | c in snapshot && c !in todo :: snapshot[c]) == snapshot;
  }

  /** What pass 2 remembers of the stream: enough recent snapshots for the longest window, and when
      each client's counter last went back.  `history` is the ghost record of every snapshot
      added. */
  class Ring {
    const depth: nat
    var snapshots: map<int, Snapshot>
    var lastDone: Snapshot
    var resetAt: map<ClientId, int>
    ghost var history: seq<Snapshot>

    ghost predicate Valid()
      reads this
    {
      && snapshots == Kept(history, depth)
      && lastDone == LastDone(history)
      && resetAt == ResetAt(history)
    }

    constructor (depth: nat)
      ensures Valid() && history == [] && this.depth == depth
    {
      this.depth := depth;
      snapshots, lastDone, resetAt, history := map[], map[], map[], [];
    }

    method Add(interval: int, snapshot: Snapshot)
      requires Valid() && interval == |history|
      modifies this
      ensures Valid() && history == old(history) + [snapshot]
    {
      var resets := NoteResets(resetAt, lastDone, snapshot, interval);
      KeptStep(history, snapshot, depth);
      AddStep(history, snapshot);
      resetAt := resets;
      lastDone := lastDone + snapshot;
      snapshots := snapshots[interval := snapshot] - {interval - depth - 1};
      history := history + [snapshot];
    }

    /** The window from `begin` to the latest interval, if the ring still has its first snapshot.  However far
        back the run goes, the answer is that of full history. */
    method Deltas(interval: int, begin: int) returns (r: Option<Snapshot>)
      requires Valid() && interval == |history| - 1 && begin <= interval
      ensures r.Some? <==> 0 <= begin && interval - depth <= begin
      ensures r.Some? ==> r.value == WindowBytes(history, begin, interval)
    {
      if begin < 0 || begin !in snapshots {
        return None;
      }
      var deltas := WindowDeltas(snapshots[interval], snapshots[begin], resetAt, begin);
      RingAnswers(history, begin);
      return Some(deltas);
    }
  }
}
