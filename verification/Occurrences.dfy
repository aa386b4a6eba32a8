/** Splitting a repeated phase into occurrences while its rows stream by. */
module Occurrences {
  import opened LiveRows
  import opened Sums
  import opened FirstPass
  import opened IntervalSnapshots
  import opened StreamTail

  const JUMP_MAX_MS := 100
  const JUMP_FACTOR := 4.0

  /** Who a row is about: the whole run, or a client (None when the row names no rank). */
  datatype Identity = Everyone | Someone(client: Option<ClientId>)

  function IdentityOf(row: Row): Identity {
    if row.TotalRow? then Everyone else Someone(row.client)
  }

  /** A phase and mix type, whatever the occurrence. */
  datatype Base = Base(phase: string, mixType: string)

  function BaseOf(row: Row): Base {
    Base(row.key.phase, row.key.mixType)
  }

  function KeyFor(b: Base, occurrence: nat): DomainKey {
    DomainKey(b.phase, b.mixType, occurrence)
  }

  datatype State = State(occurrence: nat, runtimeMs: Option<int>, identities: set<Identity>, totalDone: Option<int>)

  const Fresh := State(0, None, {}, None)

  /** Nearby Total counters imply a rate the row itself denies. */
  predicate RateJumps(s: State, row: Row)
    requires row.TotalRow?
  {
    if s.runtimeMs.None? || s.totalDone.None? || row.doneBytes.None? || row.mibPerSec.None?
       || row.mibPerSec.value <= 0.0
    then false
    else
      var elapsed := row.runtimeMs - s.runtimeMs.value;
      var bytes := row.doneBytes.value - s.totalDone.value;
      if elapsed <= 0 || bytes <= 0 || elapsed > JUMP_MAX_MS then false
      else
        var implied := bytes as real * 1000.0 / elapsed as real / MIB;
        var rate := row.mibPerSec.value;
        var threshold := if rate * JUMP_FACTOR >= rate + 1.0 then rate * JUMP_FACTOR else rate + 1.0;
        implied > threshold
  }

  predicate StartsNew(s: State, row: Row) {
    if !row.TotalRow? || s.runtimeMs.None? then false
    else
      || row.runtimeMs < s.runtimeMs.value
      || (row.runtimeMs == s.runtimeMs.value && Everyone in s.identities)
      || (row.doneBytes.Some? && s.totalDone.Some? && row.doneBytes.value < s.totalDone.value)
      || RateJumps(s, row)
  }

  function Next(s: State, row: Row): State {
    var opening := if StartsNew(s, row) then State(s.occurrence + 1, s.runtimeMs, {}, None)
                   else if s.runtimeMs != Some(row.runtimeMs) then s.(identities := {})
                   else s;
    State(opening.occurrence, Some(row.runtimeMs), opening.identities + {IdentityOf(row)},
          if row.TotalRow? && row.doneBytes.Some? then row.doneBytes else opening.totalDone)
  }

  /** The tracker's state for one phase and mix after some rows. */
  function StateAfter(rows: seq<Row>, b: Base): (r: State)
    ensures r.totalDone.Some? ==> r.runtimeMs.Some?
  {
    if rows == [] then Fresh
    else
      var n := |rows| - 1;
      var before := StateAfter(rows[..n], b);
      if BaseOf(rows[n]) == b then Next(before, rows[n]) else before
  }

  function Keyed(row: Row, occurrence: nat): Row {
    row.(key := KeyFor(BaseOf(row), occurrence))
  }

  /** The occurrence number the row at `i` gets. */
  function OccurrenceAt(rows: seq<Row>, i: nat): nat
    requires i < |rows|
  {
    StateAfter(rows[..i + 1], BaseOf(rows[i])).occurrence
  }

  /** The rows with their occurrence-qualified keys. */
  function Numbered(rows: seq<Row>): (r: seq<Row>)
    ensures |r| == |rows|
  {
    seq(|rows|, i requires 0 <= i < |rows| => Keyed(rows[i], OccurrenceAt(rows, i)))
  }

  /** Assigns occurrence numbers while streaming; `read` is the ghost record of the rows. */
  class Tracker {
    var states: map<Base, State>
    ghost var read: seq<Row>

    ghost predicate Valid()
      reads this
    {
      forall b :: StateAfter(read, b) == if b in states then states[b] else Fresh
    }

    constructor ()
      ensures Valid() && read == []
    {
      states, read := map[], [];
    }

    method Key(row: Row) returns (key: DomainKey)
      requires Valid()
      modifies this
      ensures Valid() && read == old(read) + [row]
      ensures key == KeyFor(BaseOf(row), StateAfter(read, BaseOf(row)).occurrence)
    {
      var b := BaseOf(row);
      var s := if b in states then states[b] else Fresh;
      if StartsNew(s, row) {
        s := State(s.occurrence + 1, s.runtimeMs, {}, None);
      } else if s.runtimeMs != Some(row.runtimeMs) {
        s := s.(identities := {});
      }
      s := s.(runtimeMs := Some(row.runtimeMs), identities := s.identities + {IdentityOf(row)});
      if row.TotalRow? && row.doneBytes.Some? {
        s := s.(totalDone := row.doneBytes);
      }
      forall other {
        AppendState(read, row, other);
      }
      states := states[b := s];
      read := read + [row];
      key := KeyFor(b, s.occurrence);
    }
  }

  lemma {:induction false} AppendState(rows: seq<Row>, row: Row, b: Base)
    ensures StateAfter(rows + [row], b)
            == if BaseOf(row) == b then Next(StateAfter(rows, b), row) else StateAfter(rows, b)
  {
    assert (rows + [row])[..|rows|] == rows;
  }

  /** `iter_parsed_rows` after parsing. */
  method IterParsedRows(rows: seq<Row>) returns (r: seq<Row>)
    ensures r == Numbered(rows)
  {
    r := [];
    var tracker := new Tracker();
    for i := 0 to |rows|
      invariant fresh(tracker) && tracker.Valid() && tracker.read == rows[..i]
      invariant r == Numbered(rows)[..i]
    {
      assert rows[..i + 1] == rows[..i] + [rows[i]];
      var key := tracker.Key(rows[i]);
      r := r + [rows[i].(key := key)];
    }
  }

  // ----- laws over every stream -----

  /** Occurrence numbers never decrease along a phase and mix. */
  lemma {:induction false} OccurrenceGrows(rows: seq<Row>, b: Base, m: nat, n: nat)
    requires m <= n <= |rows|
    ensures StateAfter(rows[..m], b).occurrence <= StateAfter(rows[..n], b).occurrence
    decreases n
  {
    if m < n {
      OccurrenceGrows(rows, b, m, n - 1);
      assert rows[..n][..n - 1] == rows[..n - 1];
    }
  }

  lemma {:induction false} OccurrencesNeverDecrease(rows: seq<Row>, i: nat, j: nat)
    requires i <= j < |rows| && BaseOf(rows[i]) == BaseOf(rows[j])
    ensures OccurrenceAt(rows, i) <= OccurrenceAt(rows, j)
  {
    OccurrenceGrows(rows, BaseOf(rows[i]), i + 1, j + 1);
  }

  /** While the occurrence lasts, the remembered Total is at least any Total seen in it. */
  lemma {:induction false} TotalRemembered(rows: seq<Row>, i: nat, n: nat)
    requires i < n <= |rows| && rows[i].TotalRow? && rows[i].doneBytes.Some?
    requires StateAfter(rows[..n], BaseOf(rows[i])).occurrence == OccurrenceAt(rows, i)
    ensures var total := StateAfter(rows[..n], BaseOf(rows[i])).totalDone;
            total.Some? && rows[i].doneBytes.value <= total.value
    decreases n
  {
    var b := BaseOf(rows[i]);
    assert rows[..n] == rows[..n - 1] + [rows[n - 1]];
    AppendState(rows[..n - 1], rows[n - 1], b);
    if n > i + 1 {
      OccurrenceGrows(rows, b, i + 1, n - 1);
      TotalRemembered(rows, i, n - 1);
    }
  }

  /** Total DoneBytes never decreases inside one occurrence. */
  lemma {:induction false} TotalNeverDrops(rows: seq<Row>, i: nat, j: nat)
    requires i < j < |rows| && BaseOf(rows[i]) == BaseOf(rows[j]) && OccurrenceAt(rows, i) == OccurrenceAt(rows, j)
    requires rows[i].TotalRow? && rows[i].doneBytes.Some? && rows[j].TotalRow? && rows[j].doneBytes.Some?
    ensures rows[i].doneBytes.value <= rows[j].doneBytes.value
  {
    TotalRemembered(rows, i, j + 1);
    assert rows[..j + 1] == rows[..j] + [rows[j]];
    AppendState(rows[..j], rows[j], BaseOf(rows[j]));
  }

  /** Nearby Total counters that no run at the reported rate could have reached: within 100 ms,
      more bytes than four times that rate, or that rate and 1 MiB/s, would move. */
  ghost predicate TooFast(s: State, row: Row)
    requires row.TotalRow?
  {
    && s.runtimeMs.Some? && s.totalDone.Some? && row.doneBytes.Some? && row.mibPerSec.Some?
    && var elapsed, bytes := row.runtimeMs - s.runtimeMs.value, row.doneBytes.value - s.totalDone.value;
       && row.mibPerSec.value > 0.0 && 0 < elapsed <= JUMP_MAX_MS && bytes > 0
       && bytes as real * 1000.0 > Moved(row.mibPerSec.value * 4.0, elapsed)
       && bytes as real * 1000.0 > Moved(row.mibPerSec.value + 1.0, elapsed)
  }

  /** A thousand times the bytes that `rate` MiB/s moves in so many milliseconds. */
  ghost function Moved(rate: real, elapsedMs: int): real {
    Mul(Mul(rate, MIB), elapsedMs as real)
  }

  lemma {:induction false} ImpliedRate(a: real, elapsed: real, rate: real)
    requires elapsed > 0.0
    ensures a / elapsed / MIB > rate <==> a > Mul(Mul(rate, MIB), elapsed)
  {
    var q := a / elapsed;
    assert q * elapsed == a;
    var target := Mul(rate, MIB);
    assert q / MIB > rate <==> q > target;
    assert Mul(q - target, elapsed) == a - Mul(target, elapsed);
    if q > target {
      MulPositive(q - target, elapsed);
    } else if q < target {
      MulPositive(target - q, elapsed);
      assert Mul(target - q, elapsed) == Mul(target, elapsed) - a;
    }
  }

  /** The jump rule restarts exactly on those counters. */
  lemma {:induction false} JumpMeaning(s: State, row: Row)
    requires row.TotalRow?
    ensures RateJumps(s, row) <==> TooFast(s, row)
  {
    if s.runtimeMs.Some? && s.totalDone.Some? && row.doneBytes.Some? && row.mibPerSec.Some? {
      var elapsed, bytes := row.runtimeMs - s.runtimeMs.value, row.doneBytes.value - s.totalDone.value;
      if elapsed > 0 {
        ImpliedRate(bytes as real * 1000.0, elapsed as real, row.mibPerSec.value * 4.0);
        ImpliedRate(bytes as real * 1000.0, elapsed as real, row.mibPerSec.value + 1.0);
      }
    }
  }

  // ----- when runtimes increase -----

  /** No client row goes back in runtime from the row before it in its phase and mix. */
  ghost predicate NoBackStep(rows: seq<Row>) {
    forall i :: 0 <= i < |rows| ==> !StepsBack(rows, i)
  }

  ghost predicate StepsBack(rows: seq<Row>, i: int)
    requires 0 <= i < |rows|
  {
    var before := StateAfter(rows[..i], BaseOf(rows[i])).runtimeMs;
    rows[i].SampleRow? && before.Some? && rows[i].runtimeMs < before.value
  }

  /** The runtime of the last row of a phase and mix, if it has one. */
  ghost function LastRuntimeOf(rows: seq<Row>, b: Base): Option<int> {
    if rows == [] then None
    else if BaseOf(rows[|rows| - 1]) == b then Some(rows[|rows| - 1].runtimeMs)
    else LastRuntimeOf(rows[..|rows| - 1], b)
  }

  /** What `StepsBack` and `LedByTotal` compare with is read off the rows: the tracker's runtime
      is that of the last row of the phase and mix. */
  lemma {:induction false} TrackerKeepsLastRuntime(rows: seq<Row>, b: Base)
    ensures StateAfter(rows, b).runtimeMs == LastRuntimeOf(rows, b)
  {
    if rows != [] {
      TrackerKeepsLastRuntime(rows[..|rows| - 1], b);
    }
  }

  /** Every runtime change within a phase and mix is led by a Total row. */
  ghost predicate LedByTotal(rows: seq<Row>) {
    forall i :: 0 <= i < |rows| ==>
      var before := StateAfter(rows[..i], BaseOf(rows[i])).runtimeMs;
      rows[i].SampleRow? && before.Some? ==> rows[i].runtimeMs == before.value
  }

  lemma {:induction false} LedByTotalNeverStepsBack(rows: seq<Row>)
    requires LedByTotal(rows)
    ensures NoBackStep(rows)
  {}

  /** While the occurrence lasts, the runtime of a Total row has been passed, or is current and
      its Total row is remembered. */
  lemma {:induction false} RuntimePassed(rows: seq<Row>, i: nat, n: nat)
    requires i < n <= |rows| && rows[i].TotalRow? && NoBackStep(rows)
    requires StateAfter(rows[..n], BaseOf(rows[i])).occurrence == OccurrenceAt(rows, i)
    ensures var s := StateAfter(rows[..n], BaseOf(rows[i]));
            && s.runtimeMs.Some? && rows[i].runtimeMs <= s.runtimeMs.value
            && (rows[i].runtimeMs == s.runtimeMs.value ==> Everyone in s.identities)
    decreases n
  {
    var b := BaseOf(rows[i]);
    assert rows[..n] == rows[..n - 1] + [rows[n - 1]];
    AppendState(rows[..n - 1], rows[n - 1], b);
    if n > i + 1 {
      OccurrenceGrows(rows, b, i + 1, n - 1);
      RuntimePassed(rows, i, n - 1);
      assert !StepsBack(rows, n - 1);
    }
  }

  /** Inside one occurrence Total rows come at strictly increasing runtimes, one per interval. */
  lemma {:induction false} TotalsAdvance(rows: seq<Row>, i: nat, j: nat)
    requires NoBackStep(rows) && i < j < |rows| && rows[i].TotalRow? && rows[j].TotalRow?
    requires BaseOf(rows[i]) == BaseOf(rows[j]) && OccurrenceAt(rows, i) == OccurrenceAt(rows, j)
    ensures rows[i].runtimeMs < rows[j].runtimeMs
  {
    OccurrenceGrows(rows, BaseOf(rows[i]), i + 1, j);
    assert rows[..j + 1] == rows[..j] + [rows[j]];
    AppendState(rows[..j], rows[j], BaseOf(rows[j]));
    RuntimePassed(rows, i, j);
  }

  ghost function LastRuntime(iv: seq<Interval>): Option<int> {
    if iv == [] then None else Some(iv[|iv| - 1].runtimeMs)
  }

  /** The current occurrence's intervals end at the remembered runtime; later ones are empty. */
  ghost predicate InStep(numbered: seq<Row>, b: Base, s: State) {
    && LastRuntime(DomainIntervals(numbered, KeyFor(b, s.occurrence))) == s.runtimeMs
    && forall k: nat :: k > s.occurrence ==> DomainIntervals(numbered, KeyFor(b, k)) == []
  }

  lemma {:induction false} NumberedAppend(rows: seq<Row>, row: Row)
    ensures Numbered(rows + [row])
            == Numbered(rows) + [Keyed(row, Next(StateAfter(rows, BaseOf(row)), row).occurrence)]
  {
    var more := rows + [row];
    AppendState(rows, row, BaseOf(row));
    assert more[..|rows| + 1] == more;
    forall i | 0 <= i < |rows|
      ensures Numbered(more)[i] == Numbered(rows)[i]
    {
      assert more[..i + 1] == rows[..i + 1];
    }
  }

  lemma {:induction false} AlwaysInStep(rows: seq<Row>, b: Base)
    ensures InStep(Numbered(rows), b, StateAfter(rows, b))
  {
    if rows == [] {
    } else {
      var n := |rows| - 1;
      var front, row := rows[..n], rows[n];
      assert rows == front + [row];
      AlwaysInStep(front, b);
      NumberedAppend(front, row);
      InStepAppend(Numbered(front), b, StateAfter(front, BaseOf(row)), StateAfter(front, b), row);
    }
  }

  lemma {:induction false} InStepAppend(numbered: seq<Row>, b: Base, s: State, sb: State, row: Row)
    requires InStep(numbered, b, sb) && (BaseOf(row) == b ==> s == sb)
    ensures InStep(numbered + [Keyed(row, Next(s, row).occurrence)], b, if BaseOf(row) == b then Next(sb, row) else sb)
  {
    InStepKeyed(numbered, b, sb, Keyed(row, Next(s, row).occurrence), if BaseOf(row) == b then Next(sb, row) else sb);
  }

  /** The same on any row that is in another phase and mix, or keyed by the new state. */
  lemma {:induction false} InStepKeyed(numbered: seq<Row>, b: Base, s: State, keyed: Row, after: State)
    requires InStep(numbered, b, s)
    requires BaseOf(keyed) != b ==> after == s
    requires BaseOf(keyed) == b ==>
      && keyed.key == KeyFor(b, after.occurrence) && after.runtimeMs == Some(keyed.runtimeMs)
      && s.occurrence <= after.occurrence
    ensures InStep(numbered + [keyed], b, after)
  {
    forall k: nat
      ensures DomainIntervals(numbered + [keyed], KeyFor(b, k))
              == if keyed.key == KeyFor(b, k) then Extended(DomainIntervals(numbered, KeyFor(b, k)), keyed)
                 else DomainIntervals(numbered, KeyFor(b, k))
    {
      RowOfDomain(numbered, keyed, KeyFor(b, k));
    }
  }

  lemma {:induction false} ExtendedIncreasing(iv: seq<Interval>, row: Row)
    ensures Increasing(Extended(iv, row)) <==>
            Increasing(iv) && (iv != [] ==> iv[|iv| - 1].runtimeMs <= row.runtimeMs)
  {
    var r := Extended(iv, row);
    if Increasing(r) {
      assert forall t :: 0 <= t < |iv| ==> r[t].runtimeMs == iv[t].runtimeMs;
      if iv != [] {
        assert iv[|iv| - 1].runtimeMs == r[|iv| - 1].runtimeMs;
      }
    }
  }

  /** Every domain's interval runtimes strictly increase. */
  ghost predicate AllIncreasing(numbered: seq<Row>) {
    forall key :: Increasing(DomainIntervals(numbered, key))
  }

  /** A row keeps its own domain increasing exactly when it does not step back. */
  lemma {:induction false} RowKeepsIncreasing(rows: seq<Row>, row: Row)
    ensures var s := StateAfter(rows, BaseOf(row));
            var g := DomainIntervals(Numbered(rows), KeyFor(BaseOf(row), Next(s, row).occurrence));
            (g == [] || g[|g| - 1].runtimeMs <= row.runtimeMs)
            <==> !(row.SampleRow? && s.runtimeMs.Some? && row.runtimeMs < s.runtimeMs.value)
  {
    AlwaysInStep(rows, BaseOf(row));
  }

  lemma {:induction false} AllIncreasingStep(rows: seq<Row>, row: Row)
    ensures AllIncreasing(Numbered(rows + [row])) <==> AllIncreasing(Numbered(rows)) && !StepsBack(rows + [row], |rows|)
  {
    var b := BaseOf(row);
    var keyed := Keyed(row, Next(StateAfter(rows, b), row).occurrence);
    NumberedAppend(rows, row);
    assert (rows + [row])[..|rows|] == rows;
    IncreasingAppend(Numbered(rows), keyed);
    var g := DomainIntervals(Numbered(rows), keyed.key);
    ExtendedIncreasing(g, keyed);
    assert (g == [] || g[|g| - 1].runtimeMs <= keyed.runtimeMs) <==> !StepsBack(rows + [row], |rows|) by {
      RowKeepsIncreasing(rows, row);
    }
  }

  lemma {:induction false} IncreasingAppend(numbered: seq<Row>, keyed: Row)
    ensures AllIncreasing(numbered + [keyed])
            <==> AllIncreasing(numbered) && Increasing(Extended(DomainIntervals(numbered, keyed.key), keyed))
  {
    forall key {
      RowOfDomain(numbered, keyed, key);
    }
    ExtendedIncreasing(DomainIntervals(numbered, keyed.key), keyed);
    if AllIncreasing(numbered + [keyed]) {
      forall key
        ensures Increasing(DomainIntervals(numbered, key))
      {
        assert Increasing(DomainIntervals(numbered + [keyed], key));
      }
      assert Increasing(DomainIntervals(numbered + [keyed], keyed.key));
    }
  }

  /** Occurrence splitting gives every domain strictly increasing runtimes exactly when no
      client row steps back; Total rows can never spoil it. */
  lemma {:induction false} IncreasingExactly(rows: seq<Row>)
    ensures AllIncreasing(Numbered(rows)) <==> NoBackStep(rows)
  {
    if rows == [] {
      assert Numbered(rows) == [];
    } else {
      var n := |rows| - 1;
      var front := rows[..n];
      assert rows == front + [rows[n]];
      IncreasingExactly(front);
      AllIncreasingStep(front, rows[n]);
      NoBackStepAppend(front, rows[n]);
    }
  }

  lemma {:induction false} NoBackStepAppend(rows: seq<Row>, row: Row)
    ensures NoBackStep(rows + [row]) <==> NoBackStep(rows) && !StepsBack(rows + [row], |rows|)
  {
    var more := rows + [row];
    forall i | 0 <= i < |rows|
      ensures StepsBack(more, i) <==> StepsBack(rows, i)
    {
      assert more[..i] == rows[..i] && more[i] == rows[i];
    }
    if NoBackStep(more) {
      assert !StepsBack(more, |rows|);
      forall i | 0 <= i < |rows|
        ensures !StepsBack(rows, i)
      {
        assert !StepsBack(more, i);
      }
    }
  }

  /** So a stream whose runtime changes are led by Total rows satisfies what the later passes
      and the sidecar need: no interval of any domain is echoed. */
  lemma {:induction false} LedByTotalNeverEchoes(rows: seq<Row>, key: DomainKey, wanted: Option<set<ClientId>>)
    requires LedByTotal(rows)
    ensures Increasing(DomainIntervals(Numbered(rows), key)) && NoEcho(DomainIntervals(Numbered(rows), key), wanted)
  {
    LedByTotalNeverStepsBack(rows);
    IncreasingExactly(rows);
    IncreasingHasNoEcho(DomainIntervals(Numbered(rows), key), wanted);
  }

  /** A row of one client. */
  function LoneRow(runtimeMs: int, done: int): Row {
    SampleRow(KeyFor(Base("WRITE", ""), 0), runtimeMs, Some(ClientId("0", "")), Some(done))
  }

  /** Rows of one client, without Total rows, at these runtimes. */
  function LoneClient(runtimes: seq<int>): seq<Row> {
    if runtimes == [] then []
    else
      var n := |runtimes| - 1;
      LoneClient(runtimes[..n])
      + [LoneRow(runtimes[n], n)]
  }

  lemma {:induction false} LoneClientStays(runtimes: seq<int>)
    ensures StateAfter(LoneClient(runtimes), Base("WRITE", "")).occurrence == 0
    ensures Numbered(LoneClient(runtimes)) == LoneClient(runtimes)
    ensures RowsOf(LoneClient(runtimes), KeyFor(Base("WRITE", ""), 0)) == LoneClient(runtimes)
  {
    if runtimes != [] {
      var n := |runtimes| - 1;
      var front := LoneClient(runtimes[..n]);
      var row := LoneRow(runtimes[n], n);
      LoneClientStays(runtimes[..n]);
      AppendState(front, row, Base("WRITE", ""));
      NumberedAppend(front, row);
      RowsOfAppend(front, row, row.key);
    }
  }

  /** Without Total rows a clock that goes back does spoil it: runtimes 10, 20, 10 stay one
      domain whose first interval is echoed, so the later passes and the sidecar lose it. */
  lemma {:induction false} BackStepEchoes()
    ensures var rows := LoneClient([10, 20, 10]);
            !NoBackStep(rows) && !NoEcho(DomainIntervals(Numbered(rows), KeyFor(Base("WRITE", ""), 0)), None)
  {
    var rows, c, key := LoneClient([10, 20, 10]), ClientId("0", ""), KeyFor(Base("WRITE", ""), 0);
    LoneClientStays([10, 20, 10]);
    LoneIntervals();
    var iv := DomainIntervals(rows, key);
    assert iv[0].runtimeMs == iv[2].runtimeMs && c in Restrict(iv[0].samples, None);
    IncreasingExactly(rows);
    assert DomainIntervals(Numbered(rows), key) == iv && !Increasing(DomainIntervals(Numbered(rows), key));
  }

  /** The intervals of client rows at 10 and 20 ms, and of one more at 10 ms. */
  lemma {:induction false} LoneIntervals()
    ensures var c, key := ClientId("0", ""), KeyFor(Base("WRITE", ""), 0);
            && LoneClient([10, 20, 10]) == LoneClient([10, 20]) + [LoneRow(10, 2)]
            && DomainIntervals(LoneClient([10, 20]), key) == [Interval(10, map[c := 0]), Interval(20, map[c := 1])]
            && DomainIntervals(LoneClient([10, 20, 10]), key)
               == [Interval(10, map[c := 0]), Interval(20, map[c := 1]), Interval(10, map[c := 2])]
  {
    LoneClientStays([10, 20]);
    LoneClientStays([10, 20, 10]);
    LoneRows();
    LoneReads();
  }

  lemma {:induction false} LoneReads()
    ensures var c, a, b := ClientId("0", ""), [LoneRow(10, 0)], [LoneRow(20, 1)];
            && IntervalsOf(a + b) == [Interval(10, map[c := 0]), Interval(20, map[c := 1])]
            && IntervalsOf(a + b + [LoneRow(10, 2)])
               == [Interval(10, map[c := 0]), Interval(20, map[c := 1]), Interval(10, map[c := 2])]
  {
    var a, b := [LoneRow(10, 0)], [LoneRow(20, 1)];
    LoneExtends();
    assert a == [] + [LoneRow(10, 0)];
    IntervalsAppend([], LoneRow(10, 0));
    IntervalsAppend(a, LoneRow(20, 1));
    IntervalsAppend(a + b, LoneRow(10, 2));
  }

  lemma {:induction false} LoneExtends()
    ensures var c := ClientId("0", "");
            var i, j, k := Interval(10, map[c := 0]), Interval(20, map[c := 1]), Interval(10, map[c := 2]);
            && Extended([], LoneRow(10, 0)) == [i] && Extended([i], LoneRow(20, 1)) == [i, j]
            && Extended([i, j], LoneRow(10, 2)) == [i, j, k]
  {}

  /** Why a tail must not use an earlier runtime again: after client rows at 10 and 20 ms, one more
      row at 10 ms empties both snapshots streamed so far. */
  lemma {:induction false} TailReachesBack()
    ensures var common, c, key := LoneClient([10, 20]), ClientId("0", ""), KeyFor(Base("WRITE", ""), 0);
            var tail := [LoneRow(10, 2)];
            && !NewRuntimes(common, tail, key)
            && Streamed(common, key, None) == [map[c := 0], map[c := 1]]
            && Streamed(common + tail, key, None) == [map[], map[], map[c := 2]]
  {
    var common, c, key := LoneClient([10, 20]), ClientId("0", ""), KeyFor(Base("WRITE", ""), 0);
    var row := LoneRow(10, 2);
    LoneIntervals();
    var iv0, iv := DomainIntervals(common, key), DomainIntervals(common + [row], key);
    assert [row][0].runtimeMs == iv0[0].runtimeMs;
    StreamedExactly(common, key, None);
    IncreasingHasNoEcho(iv0, None);
    assert Streamed(common, key, None) == RestrictedSnapshots(iv0, None);
    LoneStream(common + [row], iv);
  }

  lemma {:induction false} LoneRows()
    ensures LoneClient([10, 20, 10])
            == [LoneRow(10, 0)] + [LoneRow(20, 1)] + [LoneRow(10, 2)]
    ensures LoneClient([10, 20]) == [LoneRow(10, 0)] + [LoneRow(20, 1)]
  {
    assert [10, 20, 10][..2] == [10, 20] && [10, 20][..1] == [10] && [10][..0] == [];
    assert LoneClient([]) == [] && LoneClient([10]) == [LoneRow(10, 0)];
  }

  lemma {:induction false} LoneFed(index: map<int, nat>)
    requires index == map[10 := 2, 20 := 1]
    ensures var c, key := ClientId("0", ""), KeyFor(Base("WRITE", ""), 0);
            && Fed(Stream([], map[]), LoneRow(10, 0), key, index, None) == Stream([map[], map[]], map[c := 0])
            && Fed(Stream([map[], map[]], map[c := 0]), LoneRow(20, 1), key, index, None)
               == Stream([map[], map[]], map[c := 0])
            && Fed(Stream([map[], map[]], map[c := 0]), LoneRow(10, 2), key, index, None)
               == Stream([map[], map[]], map[c := 2])
  {
    var c, key := ClientId("0", ""), KeyFor(Base("WRITE", ""), 0);
    var s := Fed(Stream([], map[]), LoneRow(10, 0), key, index, None);
    assert s.emitted == [map[], map[]] && s.pending == map[c := 0];
  }

  lemma {:induction false} LoneStream(rows: seq<Row>, iv: seq<Interval>)
    requires rows == LoneClient([10, 20, 10]) && iv == DomainIntervals(rows, KeyFor(Base("WRITE", ""), 0))
    ensures var c, key := ClientId("0", ""), KeyFor(Base("WRITE", ""), 0);
            Streamed(rows, key, None) == [map[], map[], map[c := 2]]
  {
    var key := KeyFor(Base("WRITE", ""), 0);
    LoneIntervals();
    LoneIndex(iv);
    LoneRows();
    LoneStreamOf(RuntimeIndex(iv));
  }

  lemma {:induction false} LoneStreamOf(index: map<int, nat>)
    requires index == map[10 := 2, 20 := 1]
    ensures var c, key := ClientId("0", ""), KeyFor(Base("WRITE", ""), 0);
            StreamOf([LoneRow(10, 0)] + [LoneRow(20, 1)] + [LoneRow(10, 2)], key, index, None)
            == Stream([map[], map[]], map[c := 2])
  {
    var key := KeyFor(Base("WRITE", ""), 0);
    var a, b := [LoneRow(10, 0)], [LoneRow(20, 1)];
    assert a == [] + [LoneRow(10, 0)];
    StreamAppend([], LoneRow(10, 0), key, index, None);
    StreamAppend(a, LoneRow(20, 1), key, index, None);
    StreamAppend(a + b, LoneRow(10, 2), key, index, None);
    LoneFed(index);
  }

  lemma {:induction false} LoneIndex(iv: seq<Interval>)
    requires |iv| == 3 && iv[0].runtimeMs == iv[2].runtimeMs == 10 && iv[1].runtimeMs == 20
    ensures RuntimeIndex(iv) == map[10 := 2, 20 := 1]
  {
    assert iv == [iv[0]] + [iv[1]] + [iv[2]] && [iv[0]] == [] + [iv[0]];
    FlushedIndex([], iv[0]);
    FlushedIndex([iv[0]], iv[1]);
    FlushedIndex([iv[0]] + [iv[1]], iv[2]);
  }
}
