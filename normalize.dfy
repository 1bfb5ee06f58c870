/** NORM_DATA and its operations: declaring the schema, the analyze and
    process callbacks, the two passes over an event stream, the slot count
    and the sizing of the data set. */
module Normalize {
  import opened Schema
  import opened Slots
  import opened Stream

  /** DATA_SET as NormProcess leaves it. `data` is None when the element
      count handed to calloc is negative (it wraps to a size calloc cannot
      satisfy); `cursor` is the write position as an offset into `data`. */
  datatype DataSet = DataSet(
    inputCount: int,
    idealCount: int,
    recordCount: int,
    data: Option<seq<real>>,
    cursor: nat)

  /** Outcome of a pass that returns nothing on success. */
  datatype Outcome = Done | Failed(error: NormError)

  class NormData {
    /** The descriptor list, in declaration order. */
    var items: seq<Column>
    /** `_currentColumn`: the position of the next field within its row. */
    var currentColumn: nat
    var rowCount: int

    ghost predicate Valid()
      reads this
    {
      forall j :: 0 <= j < |items| ==> ColumnValid(items[j])
    }

    /** NormCreate: everything zero, as calloc leaves it. */
    constructor ()
      ensures Valid()
      ensures items == [] && currentColumn == 0 && rowCount == 0
    {
      items := [];
      currentColumn := 0;
      rowCount := 0;
    }

    /** NormDefRange: link a range descriptor at the end of the schema. */
    method DefRange(low: real, high: real)
      requires Valid()
      modifies this
      ensures Valid()
      ensures items == old(items) + [NewColumn(Range, low, high)]
      ensures currentColumn == old(currentColumn) && rowCount == old(rowCount)
    {
      items := items + [NewColumn(Range, low, high)];
    }

    /** NormDefClass: link a descriptor of the given kind at the end of the
        schema. */
    method DefClass(kind: NormType, low: real, high: real)
      requires Valid()
      modifies this
      ensures Valid()
      ensures items == old(items) + [NewColumn(kind, low, high)]
      ensures currentColumn == old(currentColumn) && rowCount == old(rowCount)
    {
      items := items + [NewColumn(kind, low, high)];
    }

    /** _AnalyzeCallbackColumn: route the field to the descriptor at the
        cursor (read before the cursor advances) and update it; `ok` is false
        for the fatal "too many columns" case, which changes nothing but the
        cursor. */
    method AnalyzeColumn(s: string, atof: string -> real) returns (ok: bool)
      requires Valid()
      modifies this
      ensures Valid()
      ensures currentColumn == old(currentColumn) + 1 && rowCount == old(rowCount)
      ensures ok <==> old(currentColumn) < |old(items)|
      ensures ok ==> items == old(items)[old(currentColumn) := AnalyzeCell(old(items)[old(currentColumn)], s, rowCount, atof)]
      ensures !ok ==> items == old(items)
    {
      var colNum := currentColumn;
      currentColumn := currentColumn + 1;
      if colNum >= |items| {
        return false;
      }
      var col := items[colNum];
      if rowCount == 0 {
        col := col.(name := Some(s));
      } else {
        var d := atof(s);
        if rowCount == 1 {
          col := col.(actualHigh := d, actualLow := d);
        } else {
          match col.kind {
            case Range =>
              col := col.(actualHigh := Max(col.actualHigh, d), actualLow := Min(col.actualLow, d));
            case Equilateral =>
              col := AppendUniqueClass(col, s);
            case OneOfN =>
              col := AppendUniqueClass(col, s);
            case Unrecognised =>
          }
        }
      }
      items := items[colNum := col];
      ok := true;
    }

    /** _AnalyzeCallbackRow: reset the cursor and count the row. */
    method AnalyzeRow()
      requires Valid()
      modifies this
      ensures Valid()
      ensures currentColumn == 0 && rowCount == old(rowCount) + 1 && items == old(items)
    {
      currentColumn := 0;
      rowCount := rowCount + 1;
    }

    /** _ProcessCallbackColumn: route the field and advance the cursor; the
        field itself is not encoded. */
    method ProcessColumn() returns (ok: bool)
      requires Valid()
      modifies this
      ensures Valid()
      ensures currentColumn == old(currentColumn) + 1
      ensures items == old(items) && rowCount == old(rowCount)
      ensures ok <==> old(currentColumn) < |items|
    {
      var colNum := currentColumn;
      currentColumn := currentColumn + 1;
      ok := colNum < |items|;
    }

    /** _ProcessCallbackRow: reset the cursor only. */
    method ProcessRow()
      requires Valid()
      modifies this
      ensures Valid()
      ensures currentColumn == 0 && items == old(items) && rowCount == old(rowCount)
    {
      currentColumn := 0;
    }

    /** NormAnalyze over the tokenizer's events: reset the cursor, drive the
        analyze callbacks and take one off the row counter for the header.
        The counter is not reset first, so the pass adds the number of row
        events minus one to whatever it held (from a fresh object, -1 for an
        empty stream). */
    method Analyze(events: seq<Event>, atof: string -> real) returns (outcome: Outcome)
      requires Valid()
      modifies this
      ensures Valid()
      ensures outcome.Failed? <==> Overflows(events, |old(items)|)
      ensures match AnalyzeEvents(Pass(old(items), 0, old(rowCount)), events, atof)
        case Ok(p) => outcome == Done && items == p.items && currentColumn == p.cursor && rowCount == p.rowCount - 1
        case Err(e) => outcome == Failed(e)
      ensures outcome == Done ==> rowCount == old(rowCount) + RowEnds(events) - 1
      ensures outcome == Done ==> currentColumn == Trailing(events)
    {
      ghost var start := Pass(items, 0, rowCount);
      currentColumn := 0;
      var i := 0;
      while i < |events|
        invariant 0 <= i <= |events|
        invariant Valid()
        invariant AnalyzeEvents(start, events[..i], atof) == Ok(Pass(items, currentColumn, rowCount))
      {
        assert events[..i + 1][..i] == events[..i];
        match events[i] {
          case RowEnd =>
            AnalyzeRow();
          case Field(s) =>
            var ok := AnalyzeColumn(s, atof);
            if !ok {
              outcome := Failed(TooManyColumns);
              AnalyzeFailurePersists(start, events, i + 1, atof);
              AnalyzeShape(start.items, start.rowCount, events, atof);
              ProcessRouting(events, |start.items|);
              return;
            }
        }
        i := i + 1;
      }
      assert events[..i] == events;
      AnalyzeShape(start.items, start.rowCount, events, atof);
      ProcessRouting(events, |start.items|);
      rowCount := rowCount - 1;
      outcome := Done;
    }

    /** CalculateActualCount: walk the schema once, adding the slots of each
        column whose index falls in [start, start + size). */
    method CalculateActualCount(start: int, size: int) returns (result: int)
      ensures result == ActualCount(items, start, size)
    {
      result := 0;
      var columnIndex := 0;
      while columnIndex < |items|
        invariant 0 <= columnIndex <= |items|
        invariant result == ActualCount(items[..columnIndex], start, size)
      {
        assert items[..columnIndex + 1][..columnIndex] == items[..columnIndex];
        if columnIndex >= start && columnIndex < start + size {
          match items[columnIndex].kind {
            case Range =>
              result := result + 1;
            case Equilateral =>
              result := result + items[columnIndex].classCount - 1;
            case OneOfN =>
              result := result + items[columnIndex].classCount;
            case Unrecognised =>
          }
        }
        columnIndex := columnIndex + 1;
      }
      assert items[..columnIndex] == items;
    }

    /** NormProcess over the tokenizer's events: size the data set from the
        slot counts of the input columns [0, inputCount) and of the ideal
        columns [inputCount, inputCount + outputCount), allocate the buffer
        (sized by column counts plus one, not by slots) and drive the process
        callbacks, which write nothing. The schema and the row counter are
        left as they were. */
    method Process(events: seq<Event>, inputCount: int, outputCount: int) returns (r: Result<DataSet>)
      requires Valid()
      modifies this
      ensures Valid()
      ensures items == old(items) && rowCount == old(rowCount)
      ensures r.Err? <==> Overflows(events, |items|)
      ensures r.Ok? ==>
        && r.value.inputCount == ActualCount(items, 0, inputCount)
        && r.value.idealCount == ActualCount(items, inputCount, outputCount)
        && r.value.recordCount == rowCount
        && r.value.data == Zeros(rowCount * (inputCount + outputCount + 1))
        && r.value.cursor == 0
        && currentColumn == Trailing(events)
      ensures r.Ok? && 0 <= inputCount && 0 <= outputCount ==>
        r.value.inputCount + r.value.idealCount == ActualCount(items, 0, inputCount + outputCount)
    {
      var inputSlots := CalculateActualCount(0, inputCount);
      var idealSlots := CalculateActualCount(inputCount, outputCount);
      var n := rowCount * (inputCount + outputCount + 1);
      var ds := DataSet(inputSlots, idealSlots, rowCount, Zeros(n), 0);

      currentColumn := 0;
      var i := 0;
      while i < |events|
        invariant 0 <= i <= |events|
        invariant items == old(items) && rowCount == old(rowCount)
        invariant Valid()
        invariant ProcessEvents(0, |items|, events[..i]) == Ok(currentColumn)
      {
        assert events[..i + 1][..i] == events[..i];
        match events[i] {
          case RowEnd =>
            ProcessRow();
          case Field(_) =>
            var ok := ProcessColumn();
            if !ok {
              ProcessFailurePersists(|items|, events, i + 1);
              ProcessRouting(events, |items|);
              return Err(TooManyColumns);
            }
        }
        i := i + 1;
      }
      assert events[..i] == events;
      ProcessRouting(events, |items|);
      if 0 <= inputCount && 0 <= outputCount {
        AdjacentWindows(items, 0, inputCount, outputCount);
      }
      r := Ok(ds);
    }
  }

  /** The zero-filled buffer calloc returns for `n` elements, or None when
      `n` is negative. */
  function Zeros(n: int): (r: Option<seq<real>>)
    ensures n < 0 <==> r == None
    ensures r.Some? ==> |r.value| == n && forall k :: 0 <= k < n ==> r.value[k] == 0.0
  {
    if n < 0 then None else Some(seq(n, _ => 0.0))
  }

  /** Once a prefix of the stream fails, the whole stream fails with it. */
  lemma {:induction false} AnalyzeFailurePersists(p: Pass, events: seq<Event>, m: nat, atof: string -> real)
    requires m <= |events| && AnalyzeEvents(p, events[..m], atof).Err?
    ensures AnalyzeEvents(p, events, atof) == AnalyzeEvents(p, events[..m], atof)
  {
    if m < |events| {
      var pre := events[..|events| - 1];
      assert pre[..m] == events[..m];
      AnalyzeFailurePersists(p, pre, m, atof);
    } else {
      assert events[..m] == events;
    }
  }

  lemma {:induction false} ProcessFailurePersists(width: nat, events: seq<Event>, m: nat)
    requires m <= |events| && ProcessEvents(0, width, events[..m]).Err?
    ensures ProcessEvents(0, width, events) == ProcessEvents(0, width, events[..m])
  {
    if m < |events| {
      var pre := events[..|events| - 1];
      assert pre[..m] == events[..m];
      ProcessFailurePersists(width, pre, m);
    } else {
      assert events[..m] == events;
    }
  }
}
