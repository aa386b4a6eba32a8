/** The third pass, restricted to chosen clients, and how the three passes agree. */
module ClientWindows {
  import opened LiveRows
  import opened ClientHistory
  import opened FirstPass
  import opened IntervalSnapshots
  import opened SnapshotRing

  ghost function RestrictHistory(h: seq<Snapshot>, wanted: Option<set<ClientId>>): (r: seq<Snapshot>)
    ensures |r| == |h|
  {
    seq(|h|, t requires 0 <= t < |h| => Restrict(h[t], wanted))
  }

  /** Dropping other clients from every snapshot drops them from every window, no more. */
  lemma {:induction false} RestrictedWindow(h: seq<Snapshot>, wanted: Option<set<ClientId>>, begin: int, end: int)
    requires 0 <= begin <= end < |h|
    ensures WindowBytes(RestrictHistory(h, wanted), begin, end) == Restrict(WindowBytes(h, begin, end), wanted)
  {
    var r := RestrictHistory(h, wanted);
    forall c | Wants(wanted, c)
      ensures NeverDrops(r, c, begin, end) <==> NeverDrops(h, c, begin, end)
      ensures c in h[begin] && c in h[end] ==> Gained(r, c, begin, end) == Gained(h, c, begin, end)
    {
      RestrictedClient(h, wanted, c, begin, end);
    }
  }

  lemma {:induction false} RestrictedClient(h: seq<Snapshot>, wanted: Option<set<ClientId>>, c: ClientId, begin: int,
                                            end: int)
    requires 0 <= begin <= end < |h| && Wants(wanted, c)
    ensures var r := RestrictHistory(h, wanted);
            && (NeverDrops(r, c, begin, end) <==> NeverDrops(h, c, begin, end))
            && (c in h[begin] && c in h[end] ==> Gained(r, c, begin, end) == Gained(h, c, begin, end))
  {
    var r := RestrictHistory(h, wanted);
    assert forall t :: 0 <= t < |h| ==> (c in r[t] <==> c in h[t]) && (c in h[t] ==> r[t][c] == h[t][c]);
    if c in h[begin] && c in h[end] {
      GainedTelescopes(h, c, begin, end);
      GainedTelescopes(r, c, begin, end);
    }
  }

  /** Pass 1 and pass 2 agree: a client has a one-interval window at `t` exactly when pass 1
      derived a rate for it there, and the rate is the window's bytes over the elapsed time. */
  lemma {:induction false} RateMatchesWindow(iv: seq<Interval>, t: int, c: ClientId)
    requires 0 < t < |iv| && iv[t - 1].runtimeMs < iv[t].runtimeMs
    ensures var bytes := WindowBytes(Snapshots(iv), t - 1, t);
            && (c in bytes <==> RateAt(iv, t, c).Some?)
            && (c in bytes ==> RateAt(iv, t, c)
                               == Some(MiBPerSecond(bytes[c], iv[t].runtimeMs - iv[t - 1].runtimeMs)))
  {
    var h := Snapshots(iv);
    if c in h[t - 1] && c in h[t] {
      GainedTelescopes(h, c, t - 1, t);
      assert NeverDrops(h, c, t - 1, t) <==> h[t - 1][c] <= h[t][c];
    }
  }

  /** `_client_window_deltas`: a ring over the snapshots of the clients asked for, queried at the
      window ends asked for. */
  method ClientWindowDeltas(rows: seq<Row>, key: DomainKey, toInterval: map<int, nat>, intervals: nat,
                            hasClients: bool, length: nat, ends: set<int>, chosen: seq<ClientId>)
    returns (byEnd: map<int, Snapshot>)
    requires var iv := DomainIntervals(rows, key);
             && toInterval == RuntimeIndex(iv) && intervals == |iv| && (hasClients <==> ClientsOf(iv) != {})
    ensures chosen == [] ==> byEnd == map[]
    ensures var h := Streamed(rows, key, Some(set c | c in chosen));
            chosen != [] ==> |h| == intervals && byEnd == WindowsBefore(h, length, ends, |h|)
    ensures var iv := DomainIntervals(rows, key);
            NoEcho(iv, Some(set c | c in chosen)) ==>
              RestrictsWindows(byEnd, Snapshots(iv), length, Some(set c | c in chosen))
  {
    byEnd := map[];
    StreamedExactly(rows, key, Some(set c | c in chosen));
    if |ends| == 0 || chosen == [] {
      return;
    }
    var wanted := Some(set c | c in chosen);
    var snapshots := IterIntervalSnapshots(rows, key, toInterval, intervals, hasClients, wanted);
    byEnd := RingWindows(snapshots, length, ends);
    ghost var iv := DomainIntervals(rows, key);
    if NoEcho(iv, wanted) {
      assert snapshots == RestrictHistory(Snapshots(iv), wanted);
      WindowsRestrict(Snapshots(iv), wanted, length, ends);
    }
  }

  /** Every window is the chosen clients' part of the window over all clients. */
  ghost predicate RestrictsWindows(byEnd: map<int, Snapshot>, h: seq<Snapshot>, length: nat,
                                   wanted: Option<set<ClientId>>) {
    forall e :: e in byEnd ==> length <= e < |h| && byEnd[e] == Restrict(WindowEnding(h, length, e), wanted)
  }

  lemma {:induction false} WindowsRestrict(h: seq<Snapshot>, wanted: Option<set<ClientId>>, length: nat,
                                           ends: set<int>)
    ensures RestrictsWindows(WindowsBefore(RestrictHistory(h, wanted), length, ends, |h|), h, length, wanted)
  {
    forall e | length <= e < |h|
      ensures WindowEnding(RestrictHistory(h, wanted), length, e) == Restrict(WindowEnding(h, length, e), wanted)
    {
      RestrictedWindow(h, wanted, e - length, e);
    }
  }

  lemma {:induction false} WindowsStep(h: seq<Snapshot>, length: nat, ends: set<int>, n: nat)
    requires n < |h|
    ensures WindowsBefore(h, length, ends, n + 1)
            == if n in ends && length <= n then WindowsBefore(h, length, ends, n)[n := WindowEnding(h, length, n)]
               else WindowsBefore(h, length, ends, n)
  {}

  ghost function WindowsBefore(h: seq<Snapshot>, length: nat, ends: set<int>, n: int): map<int, Snapshot>
    requires n <= |h|
  {
    map e | e in ends && length <= e < n :: WindowEnding(h, length, e)
  }

  /** The ring fed with every snapshot, asked for the windows ending at `ends`. */
  method RingWindows(snapshots: seq<Snapshot>, length: nat, ends: set<int>) returns (byEnd: map<int, Snapshot>)
    ensures byEnd == WindowsBefore(snapshots, length, ends, |snapshots|)
  {
    byEnd := map[];
    var ring := new Ring(length);
    for interval := 0 to |snapshots|
      invariant fresh(ring) && ring.Valid() && ring.depth == length && ring.history == snapshots[..interval]
      invariant byEnd == WindowsBefore(snapshots, length, ends, interval)
    {
      WindowsStep(snapshots, length, ends, interval);
      var deltas := AddAndAsk(ring, snapshots[interval], length, snapshots, interval);
      if interval in ends && deltas.Some? {
        byEnd := byEnd[interval := deltas.value];
      }
    }
  }

  method AddAndAsk(ring: Ring, snapshot: Snapshot, length: nat, ghost h: seq<Snapshot>, interval: nat)
    returns (deltas: Option<Snapshot>)
    requires interval < |h| && h[interval] == snapshot && length <= ring.depth
    requires ring.Valid() && ring.history == h[..interval]
    modifies ring
    ensures ring.Valid() && ring.history == h[..interval + 1]
    ensures deltas.Some? <==> length <= interval
    ensures deltas.Some? ==> deltas.value == WindowEnding(h, length, interval)
  {
    ring.Add(interval, snapshot);
    assert ring.history == h[..interval + 1];
    deltas := ring.Deltas(interval, interval - length);
    if deltas.Some? {
      WindowPrefix(h, interval + 1, interval - length, interval);
    }
  }
}
