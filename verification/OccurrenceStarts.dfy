/** When an occurrence starts, read off the rows alone. */
module OccurrenceStarts {
  import opened LiveRows
  import opened Occurrences

  ghost predicate Concerns(row: Row, phase: string, mixType: string) {
    row.key.phase == phase && row.key.mixType == mixType
  }

  /** The occurrence number of the last row of the phase and mix, 0 before any. */
  ghost function LastNumber(rows: seq<Row>, phase: string, mixType: string): nat {
    if rows == [] then 0
    else if Concerns(rows[|rows| - 1], phase, mixType) then OccurrenceAt(rows, |rows| - 1)
    else LastNumber(rows[..|rows| - 1], phase, mixType)
  }

  /** The runtime of that row. */
  ghost function LastTime(rows: seq<Row>, phase: string, mixType: string): Option<int> {
    if rows == [] then None
    else if Concerns(rows[|rows| - 1], phase, mixType) then Some(rows[|rows| - 1].runtimeMs)
    else LastTime(rows[..|rows| - 1], phase, mixType)
  }

  /** The last rows of the phase and mix that share one runtime include a Total row. */
  ghost predicate TotalInRun(rows: seq<Row>, phase: string, mixType: string) {
    if rows == [] then false
    else
      var front, last := rows[..|rows| - 1], rows[|rows| - 1];
      if !Concerns(last, phase, mixType) then TotalInRun(front, phase, mixType)
      else last.TotalRow?
           || (LastTime(front, phase, mixType) == Some(last.runtimeMs) && TotalInRun(front, phase, mixType))
  }

  /** The last Total DoneBytes of the current occurrence. */
  ghost function CurrentTotal(rows: seq<Row>, phase: string, mixType: string): Option<int> {
    if rows == [] then None
    else
      var front, last := rows[..|rows| - 1], rows[|rows| - 1];
      if !Concerns(last, phase, mixType) then CurrentTotal(front, phase, mixType)
      else if last.TotalRow? && last.doneBytes.Some? then last.doneBytes
      else if LastNumber(rows, phase, mixType) != LastNumber(front, phase, mixType) then None
      else CurrentTotal(front, phase, mixType)
  }

  /** The Total row's counter has grown within 100 ms by more bytes than four times its own rate,
      and than that rate and 1 MiB/s, would move. */
  ghost predicate Jumps(row: Row, lastTime: int, total: Option<int>)
    requires row.TotalRow?
  {
    && total.Some? && row.doneBytes.Some? && row.mibPerSec.Some? && row.mibPerSec.value > 0.0
    && 0 < row.runtimeMs - lastTime <= 100 && row.doneBytes.value > total.value
    && var bytes, ms := (row.doneBytes.value - total.value) as real, (row.runtimeMs - lastTime) as real;
       && bytes * 1000.0 > row.mibPerSec.value * 4.0 * 1048576.0 * ms
       && bytes * 1000.0 > (row.mibPerSec.value + 1.0) * 1048576.0 * ms
  }

  /** The row cannot belong to the occurrence that the rows before it are in. */
  ghost predicate Restarts(rows: seq<Row>, row: Row) {
    var phase, mixType := row.key.phase, row.key.mixType;
    var lastTime, total := LastTime(rows, phase, mixType), CurrentTotal(rows, phase, mixType);
    && row.TotalRow? && lastTime.Some?
    && (|| row.runtimeMs < lastTime.value
        || (row.runtimeMs == lastTime.value && TotalInRun(rows, phase, mixType))
        || (row.doneBytes.Some? && total.Some? && row.doneBytes.value < total.value)
        || Jumps(row, lastTime.value, total))
  }

  lemma {:induction false} NumberIsTracked(rows: seq<Row>, b: Base)
    ensures StateAfter(rows, b).occurrence == LastNumber(rows, b.phase, b.mixType)
  {
    if rows != [] {
      var front, last := rows[..|rows| - 1], rows[|rows| - 1];
      NumberIsTracked(front, b);
      if Concerns(last, b.phase, b.mixType) {
        assert BaseOf(last) == b && rows[..|rows|] == rows;
      }
    }
  }

  /** All the tracker remembers of a phase and mix can be read off the rows. */
  lemma {:induction false} TrackerReads(rows: seq<Row>, b: Base)
    ensures var s := StateAfter(rows, b);
            && s.runtimeMs == LastTime(rows, b.phase, b.mixType)
            && (Everyone in s.identities <==> TotalInRun(rows, b.phase, b.mixType))
            && s.totalDone == CurrentTotal(rows, b.phase, b.mixType)
  {
    if rows != [] {
      var front, last := rows[..|rows| - 1], rows[|rows| - 1];
      TrackerReads(front, b);
      if Concerns(last, b.phase, b.mixType) {
        assert BaseOf(last) == b;
        NumberIsTracked(front, b);
        NumberIsTracked(rows, b);
        StepReads(StateAfter(front, b), last);
      }
    }
  }

  lemma {:induction false} StepReads(s: State, row: Row)
    ensures var r := Next(s, row);
            && r.runtimeMs == Some(row.runtimeMs)
            && (Everyone in r.identities <==>
                  row.TotalRow? || (s.runtimeMs == Some(row.runtimeMs) && Everyone in s.identities))
            && r.totalDone == (if row.TotalRow? && row.doneBytes.Some? then row.doneBytes
                               else if r.occurrence != s.occurrence then None else s.totalDone)
            && r.occurrence == s.occurrence + if StartsNew(s, row) then 1 else 0
  {}

  lemma {:induction false} JumpRead(s: State, row: Row)
    requires row.TotalRow? && s.runtimeMs.Some?
    ensures RateJumps(s, row) <==> Jumps(row, s.runtimeMs.value, s.totalDone)
  {
    JumpMeaning(s, row);
  }

  /** An occurrence starts at a row, one after the last, exactly when the row restarts its phase
      and mix; otherwise the row has the number of the row before it there. */
  lemma {:induction false} StartsExactly(rows: seq<Row>, i: nat)
    requires i < |rows|
    ensures OccurrenceAt(rows, i) == LastNumber(rows[..i], rows[i].key.phase, rows[i].key.mixType)
                                     + if Restarts(rows[..i], rows[i]) then 1 else 0
  {
    var b, s := BaseOf(rows[i]), StateAfter(rows[..i], BaseOf(rows[i]));
    assert rows[..i + 1] == rows[..i] + [rows[i]];
    AppendState(rows[..i], rows[i], b);
    NumberIsTracked(rows[..i], b);
    TrackerReads(rows[..i], b);
    StepReads(s, rows[i]);
    if rows[i].TotalRow? && s.runtimeMs.Some? {
      JumpRead(s, rows[i]);
    }
  }

  /** Numbering changes nothing of a row but its occurrence. */
  lemma {:induction false} NumberedRow(rows: seq<Row>, i: nat)
    requires i < |rows|
    ensures Numbered(rows)[i]
            == rows[i].(key := DomainKey(rows[i].key.phase, rows[i].key.mixType, OccurrenceAt(rows, i)))
  {}
}
