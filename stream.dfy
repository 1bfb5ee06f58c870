/** The tokenizer's output as a sequence of events and the two passes over
    it, stated as functions: the field router with its column cursor, the
    row counter, and what the analyze pass leaves in each descriptor. */
module Stream {
  import opened Schema

  /** One callback of the CSV tokenizer: a field with its text, or the end of
      a row. */
  datatype Event = Field(text: string) | RowEnd

  /** The fatal condition of the field router ("The file had too many
      columns", after which the program exits). */
  datatype NormError = TooManyColumns

  datatype Result<T> = Ok(value: T) | Err(error: NormError)

  /** The part of NORM_DATA the analyze pass works on: the schema, the column
      cursor `_currentColumn` and `rowCount`. */
  datatype Pass = Pass(items: seq<Column>, cursor: nat, rowCount: int)

  /** Number of row events in a stream. */
  function RowEnds(events: seq<Event>): nat
  {
    if events == [] then 0
    else RowEnds(events[..|events| - 1]) + (if events[|events| - 1] == RowEnd then 1 else 0)
  }

  /** Number of fields since the last row event: the position, within its
      row, of the next field. */
  function Trailing(events: seq<Event>): nat
  {
    if events == [] then 0
    else if events[|events| - 1] == RowEnd then 0
    else Trailing(events[..|events| - 1]) + 1
  }

  /** Some field of the stream lands at a position the schema does not have. */
  ghost predicate Overflows(events: seq<Event>, width: nat)
  {
    exists k :: 0 <= k < |events| && events[k].Field? && Trailing(events[..k]) >= width
  }

  /** One analyze callback: a row event resets the cursor and bumps the row
      counter; a field is routed to the descriptor at the cursor, which then
      advances, or is the fatal error when the schema has no such column. */
  function AnalyzeStep(p: Pass, e: Event, atof: string -> real): (r: Result<Pass>)
    ensures r.Ok? ==> |r.value.items| == |p.items|
  {
    match e
    case RowEnd => Ok(p.(cursor := 0, rowCount := p.rowCount + 1))
    case Field(s) =>
      if p.cursor < |p.items| then
        Ok(Pass(p.items[p.cursor := AnalyzeCell(p.items[p.cursor], s, p.rowCount, atof)], p.cursor + 1, p.rowCount))
      else
        Err(TooManyColumns)
  }

  /** The analyze callbacks driven over a stream, stopping at the first error. */
  function AnalyzeEvents(p: Pass, events: seq<Event>, atof: string -> real): (r: Result<Pass>)
    ensures r.Ok? ==> |r.value.items| == |p.items|
  {
    if events == [] then Ok(p)
    else
      match AnalyzeEvents(p, events[..|events| - 1], atof)
      case Err(e) => Err(e)
      case Ok(q) => AnalyzeStep(q, events[|events| - 1], atof)
  }

  /** One process callback: only the cursor moves; the field handler writes
      nothing. */
  function ProcessStep(cursor: nat, width: nat, e: Event): (r: Result<nat>)
    ensures r.Err? <==> e.Field? && width <= cursor
    ensures cursor <= width && r.Ok? ==> r.value <= width
  {
    match e
    case RowEnd => Ok(0)
    case Field(_) => if cursor < width then Ok(cursor + 1) else Err(TooManyColumns)
  }

  /** The process callbacks driven over a stream against a schema of `width`
      columns. */
  function ProcessEvents(cursor: nat, width: nat, events: seq<Event>): (r: Result<nat>)
    ensures cursor <= width && r.Ok? ==> r.value <= width
  {
    if events == [] then Ok(cursor)
    else
      match ProcessEvents(cursor, width, events[..|events| - 1])
      case Err(e) => Err(e)
      case Ok(c) => ProcessStep(c, width, events[|events| - 1])
  }

  lemma OverflowsSnoc(events: seq<Event>, e: Event, width: nat)
    ensures Overflows(events + [e], width) <==> Overflows(events, width) || (e.Field? && Trailing(events) >= width)
  {
    var ev := events + [e];
    assert ev[..|events|] == events;
    forall k | 0 <= k < |events|
      ensures ev[k] == events[k] && ev[..k] == events[..k]
    {
    }
    if Overflows(ev, width) {
      var k :| 0 <= k < |ev| && ev[k].Field? && Trailing(ev[..k]) >= width;
      if k < |events| {
        assert events[k].Field? && Trailing(events[..k]) >= width;
      }
    }
    if e.Field? && Trailing(events) >= width {
      assert ev[|events|].Field? && Trailing(ev[..|events|]) >= width;
    }
  }

  /** The router fails exactly when some field lands beyond the schema, at
      that field and not later; otherwise the final cursor is the number of
      fields after the last row event. */
  lemma {:induction false} ProcessRouting(events: seq<Event>, width: nat)
    ensures ProcessEvents(0, width, events).Err? <==> Overflows(events, width)
    ensures ProcessEvents(0, width, events).Ok? ==> ProcessEvents(0, width, events).value == Trailing(events)
  {
    if events != [] {
      var p := events[..|events| - 1];
      var e := events[|events| - 1];
      assert events == p + [e];
      ProcessRouting(p, width);
      OverflowsSnoc(p, e, width);
    }
  }

  /** The descriptor of the same kind and target bounds: what the analyze
      pass never changes. */
  predicate SameShape(a: Column, b: Column)
  {
    a.kind == b.kind && a.targetLow == b.targetLow && a.targetHigh == b.targetHigh
  }

  /** The analyze pass routes exactly as the process pass does, fails on the
      same streams, ends with the cursor at the fields after the last row
      event and the counter advanced by one per row event, and keeps the
      schema's length, kinds and target bounds. */
  lemma {:induction false} AnalyzeShape(items: seq<Column>, r0: int, events: seq<Event>, atof: string -> real)
    ensures AnalyzeEvents(Pass(items, 0, r0), events, atof).Err? <==> ProcessEvents(0, |items|, events).Err?
    ensures AnalyzeEvents(Pass(items, 0, r0), events, atof).Ok? ==>
      var p := AnalyzeEvents(Pass(items, 0, r0), events, atof).value;
      && p.cursor == Trailing(events)
      && p.rowCount == r0 + RowEnds(events)
      && |p.items| == |items|
      && forall j :: 0 <= j < |items| ==> SameShape(p.items[j], items[j])
  {
    ProcessRouting(events, |items|);
    if events != [] {
      var pre := events[..|events| - 1];
      AnalyzeShape(items, r0, pre, atof);
      ProcessRouting(pre, |items|);
    }
  }

  /** A field routed to one column: the row counter when it arrived and its
      text. */
  datatype Cell = Cell(row: int, text: string)

  /** The fields of a stream that the router hands to column `j`, in stream
      order, each with the row counter it arrives under when the pass starts
      with the counter at `r0`. */
  function ColumnCells(events: seq<Event>, j: nat, r0: int): seq<Cell>
  {
    if events == [] then []
    else
      var pre := events[..|events| - 1];
      ColumnCells(pre, j, r0) +
        match events[|events| - 1]
        case RowEnd => []
        case Field(s) => if Trailing(pre) == j then [Cell(r0 + RowEnds(pre), s)] else []
  }

  /** One descriptor after the analyze pass has applied the given cells to
      it, in order. */
  function FoldCells(c: Column, cells: seq<Cell>, atof: string -> real): (r: Column)
    ensures SameShape(r, c)
    ensures ColumnValid(c) ==> ColumnValid(r)
  {
    if cells == [] then c
    else
      var last := cells[|cells| - 1];
      AnalyzeCell(FoldCells(c, cells[..|cells| - 1], atof), last.text, last.row, atof)
  }

  /** The analyze pass, column by column: what it leaves in descriptor `j` is
      that descriptor with exactly the fields routed to column `j` applied. */
  lemma {:induction false} PassByColumn(items: seq<Column>, r0: int, events: seq<Event>, atof: string -> real, j: nat)
    requires j < |items|
    requires AnalyzeEvents(Pass(items, 0, r0), events, atof).Ok?
    ensures var p := AnalyzeEvents(Pass(items, 0, r0), events, atof).value;
            |p.items| == |items| && p.items[j] == FoldCells(items[j], ColumnCells(events, j, r0), atof)
  {
    if events != [] {
      var pre := events[..|events| - 1];
      PassByColumn(items, r0, pre, atof, j);
      AnalyzeShape(items, r0, pre, atof);
      var cells := ColumnCells(pre, j, r0);
      match events[|events| - 1]
      case RowEnd =>
        assert ColumnCells(events, j, r0) == cells;
      case Field(s) =>
        if Trailing(pre) == j {
          var all := ColumnCells(events, j, r0);
          assert all == cells + [Cell(r0 + RowEnds(pre), s)];
          assert all[..|all| - 1] == cells;
        } else {
          assert ColumnCells(events, j, r0) == cells;
        }
    }
  }

  predicate Increasing(cells: seq<Cell>)
  {
    forall a, b :: 0 <= a < b < |cells| ==> cells[a].row < cells[b].row
  }

  /** A column receives at most one field per row: the rows of its cells
      strictly increase, and none is later than the current position. */
  lemma {:induction false} CellsIncreasing(events: seq<Event>, j: nat, r0: int)
    ensures Increasing(ColumnCells(events, j, r0))
    ensures forall a :: 0 <= a < |ColumnCells(events, j, r0)| ==>
      var cell := ColumnCells(events, j, r0)[a];
      cell.row < r0 + RowEnds(events) || (cell.row == r0 + RowEnds(events) && j < Trailing(events))
  {
    if events != [] {
      var pre := events[..|events| - 1];
      CellsIncreasing(pre, j, r0);
    }
  }

  /** Every field routed to column `j` is among its cells. */
  lemma {:induction false} FieldIsCell(events: seq<Event>, j: nat, r0: int, k: nat)
    requires k < |events| && events[k].Field? && Trailing(events[..k]) == j
    ensures Cell(r0 + RowEnds(events[..k]), events[k].text) in ColumnCells(events, j, r0)
  {
    var pre := events[..|events| - 1];
    if k == |events| - 1 {
      assert events[..k] == pre;
    } else {
      assert pre[..k] == events[..k];
      FieldIsCell(pre, j, r0, k);
    }
  }

  /** A range column's bounds, starting ordered, end ordered and enclose
      every value applied on a row other than the header (row 0); the first
      data row resets both bounds, but every earlier cell is a header row. */
  lemma {:induction false} FoldBounds(c: Column, cells: seq<Cell>, atof: string -> real)
    requires c.kind == Range && c.actualLow <= c.actualHigh
    requires Increasing(cells)
    ensures var r := FoldCells(c, cells, atof);
      && r.actualLow <= r.actualHigh
      && forall a :: 0 <= a < |cells| && cells[a].row >= 1 ==> r.actualLow <= atof(cells[a].text) <= r.actualHigh
  {
    if cells != [] {
      var pre := cells[..|cells| - 1];
      var last := cells[|cells| - 1];
      FoldBounds(c, pre, atof);
      var q := FoldCells(c, pre, atof);
      var r := FoldCells(c, cells, atof);
      assert r == AnalyzeCell(q, last.text, last.row, atof);
      forall a | 0 <= a < |cells| && cells[a].row >= 1
        ensures r.actualLow <= atof(cells[a].text) <= r.actualHigh
      {
        if a < |cells| - 1 {
          assert cells[a] == pre[a];
          assert cells[a].row < last.row;
        }
      }
    }
  }

  /** After a successful analyze pass, a range column's observed bounds are
      ordered and enclose the value of every field routed to it on rows 1
      onwards. */
  lemma AnalyzeRangeBounds(items: seq<Column>, r0: int, events: seq<Event>, atof: string -> real, j: nat)
    requires j < |items| && items[j].kind == Range && items[j].actualLow <= items[j].actualHigh
    requires AnalyzeEvents(Pass(items, 0, r0), events, atof).Ok?
    ensures var col := AnalyzeEvents(Pass(items, 0, r0), events, atof).value.items[j];
      && col.actualLow <= col.actualHigh
      && forall k :: 0 <= k < |events| && events[k].Field? && Trailing(events[..k]) == j && r0 + RowEnds(events[..k]) >= 1 ==>
           col.actualLow <= atof(events[k].text) <= col.actualHigh
  {
    PassByColumn(items, r0, events, atof, j);
    CellsIncreasing(events, j, r0);
    var cells := ColumnCells(events, j, r0);
    FoldBounds(items[j], cells, atof);
    var col := AnalyzeEvents(Pass(items, 0, r0), events, atof).value.items[j];
    forall k | 0 <= k < |events| && events[k].Field? && Trailing(events[..k]) == j && r0 + RowEnds(events[..k]) >= 1
      ensures col.actualLow <= atof(events[k].text) <= col.actualHigh
    {
      FieldIsCell(events, j, r0, k);
      var a :| 0 <= a < |cells| && cells[a] == Cell(r0 + RowEnds(events[..k]), events[k].text);
    }
  }

  /** The texts of the cells that register a label: those on a row other
      than 0 (the header) and 1 (the first data row). */
  function Labels(cells: seq<Cell>): seq<string>
  {
    if cells == [] then []
    else
      var last := cells[|cells| - 1];
      Labels(cells[..|cells| - 1]) + if last.row != 0 && last.row != 1 then [last.text] else []
  }

  /** The label list after offering it each of `xs` in turn. */
  function RegisterAll(labels: seq<string>, xs: seq<string>): (r: seq<string>)
    ensures labels <= r
    ensures forall x :: x in r <==> x in labels || x in xs
    ensures Distinct(labels) ==> Distinct(r)
  {
    if xs == [] then labels else Register(RegisterAll(labels, xs[..|xs| - 1]), xs[|xs| - 1])
  }

  function FirstIndex(xs: seq<string>, x: string): (i: nat)
    requires x in xs
    ensures i < |xs| && xs[i] == x && x !in xs[..i]
  {
    if xs[0] == x then 0
    else
      assert x in xs[1..];
      var i := 1 + FirstIndex(xs[1..], x);
      assert xs[..i] == [xs[0]] + xs[1..][..i - 1];
      i
  }

  lemma FirstIndexUnique(xs: seq<string>, x: string, i: nat)
    requires i < |xs| && xs[i] == x && x !in xs[..i]
    ensures FirstIndex(xs, x) == i
  {
  }

  /** Label indices follow first-seen order: past the labels already
      registered, every label in the list comes from `xs`, is new, and
      the labels stand in the order of their first occurrence in `xs`. */
  lemma {:induction false} FirstSeenOrder(labels: seq<string>, xs: seq<string>)
    ensures forall i :: |labels| <= i < |RegisterAll(labels, xs)| ==>
      RegisterAll(labels, xs)[i] in xs && RegisterAll(labels, xs)[i] !in labels
    ensures forall i, k :: |labels| <= i < k < |RegisterAll(labels, xs)| ==>
      FirstIndex(xs, RegisterAll(labels, xs)[i]) < FirstIndex(xs, RegisterAll(labels, xs)[k])
  {
    if xs != [] {
      var ys := xs[..|xs| - 1];
      var x := xs[|xs| - 1];
      assert xs == ys + [x];
      FirstSeenOrder(labels, ys);
      var q := RegisterAll(labels, ys);
      var r := RegisterAll(labels, xs);
      assert forall i :: |labels| <= i < |q| ==> q[i] in ys && q[i] !in labels;
      forall y | y in ys
        ensures FirstIndex(xs, y) == FirstIndex(ys, y)
      {
        var f := FirstIndex(ys, y);
        assert xs[..f] == ys[..f];
        FirstIndexUnique(xs, y, f);
      }
      if x !in q {
        assert r == q + [x];
        assert x !in ys;
        assert xs[..|ys|] == ys;
        FirstIndexUnique(xs, x, |ys|);
        forall i | |labels| <= i < |r|
          ensures r[i] in xs && r[i] !in labels
        {
          if i < |q| {
            assert r[i] == q[i] && q[i] in ys;
          } else {
            assert r[i] == x == xs[|xs| - 1];
          }
        }
        forall i, k | |labels| <= i < k < |r|
          ensures FirstIndex(xs, r[i]) < FirstIndex(xs, r[k])
        {
          assert r[i] == q[i] && q[i] in ys;
          if k < |q| {
            assert r[k] == q[k] && q[k] in ys;
          } else {
            assert r[k] == x;
            assert FirstIndex(ys, q[i]) < |ys| == FirstIndex(xs, x);
          }
        }
      }
    }
  }

  /** What the analyze pass leaves in a column's label list, given the cells
      routed to it: a class column has registered exactly the labels of its
      cells past row 1, in order; any other column's list is untouched. */
  lemma {:induction false} FoldLabels(c: Column, cells: seq<Cell>, atof: string -> real)
    ensures FoldCells(c, cells, atof).classes ==
      if c.kind == Equilateral || c.kind == OneOfN then RegisterAll(c.classes, Labels(cells)) else c.classes
  {
    if cells != [] {
      var pre := cells[..|cells| - 1];
      FoldLabels(c, pre, atof);
      var last := cells[|cells| - 1];
      if last.row != 0 && last.row != 1 {
        var ls := Labels(cells);
        assert ls == Labels(pre) + [last.text];
        assert ls[..|ls| - 1] == Labels(pre);
      } else {
        assert Labels(cells) == Labels(pre);
      }
    }
  }

  /** After a successful analyze pass, a class column's labels are its
      earlier labels followed by the texts routed to it on rows past the
      first data row, registered in stream order without repetition. */
  lemma AnalyzeLabels(items: seq<Column>, r0: int, events: seq<Event>, atof: string -> real, j: nat)
    requires j < |items| && (items[j].kind == Equilateral || items[j].kind == OneOfN)
    requires AnalyzeEvents(Pass(items, 0, r0), events, atof).Ok?
    ensures AnalyzeEvents(Pass(items, 0, r0), events, atof).value.items[j].classes ==
      RegisterAll(items[j].classes, Labels(ColumnCells(events, j, r0)))
  {
    PassByColumn(items, r0, events, atof, j);
    FoldLabels(items[j], ColumnCells(events, j, r0), atof);
  }
}
