/** Concrete runs of the analyze pass and of the sizing rule. */
module Examples {
  import opened Schema
  import opened Slots
  import opened Stream
  import Normalize

  /** A header and the rows (5, red), (15, blue), (10, red), each row closed
      by a row event. */
  const Events: seq<Event> :=
    [Field("value"), Field("colour"), RowEnd,
     Field("5"), Field("red"), RowEnd,
     Field("15"), Field("blue"), RowEnd,
     Field("10"), Field("red"), RowEnd]

  /** A freshly declared schema: a range column and a one-of-n column. */
  const Start := Pass([NewColumn(Range, 0.0, 1.0), NewColumn(OneOfN, 0.0, 1.0)], 0, 0)

  /** The state of the pass after `k` whole rows of Events, header
      included: the range column named, then seeded with 5, then widened to
      15; the class column named, then seeded with atof("red") and no label,
      then given "blue", then "red". */
  function After(k: nat, atof: string -> real): Pass
    requires k <= 4
  {
    var r := Column(Range, Some("value"), 0.0, 1.0, 0.0, 0.0, [], 0);
    var c := Column(OneOfN, Some("colour"), 0.0, 1.0, 0.0, 0.0, [], 0);
    var red := atof("red");
    if k == 0 then Start
    else if k == 1 then Pass([r, c], 0, 1)
    else if k == 2 then Pass([r.(actualLow := 5.0, actualHigh := 5.0), c.(actualLow := red, actualHigh := red)], 0, 2)
    else if k == 3 then Pass([r.(actualLow := 5.0, actualHigh := 15.0), c.(actualLow := red, actualHigh := red, classes := ["blue"], classCount := 1)], 0, 3)
    else Pass([r.(actualLow := 5.0, actualHigh := 15.0), c.(actualLow := red, actualHigh := red, classes := ["blue", "red"], classCount := 2)], 0, 4)
  }

  /** The state of the pass after the first `k` events: within a row, the
      first column has been updated, then both. */
  function State(k: nat, atof: string -> real): Pass
    requires k <= 12
  {
    var m := k / 3;
    if k % 3 == 0 then After(m, atof)
    else if k % 3 == 1 then Pass([After(m + 1, atof).items[0], After(m, atof).items[1]], 1, m)
    else Pass(After(m + 1, atof).items, 2, m)
  }

  lemma Step0(atof: string -> real)
    ensures AnalyzeEvents(Start, Events[..1], atof) == Ok(State(1, atof))
  {
    var q, q' := State(0, atof), State(1, atof);
    assert Events[..0] == [];
    assert q.items[0 := q'.items[0]] == q'.items;
    Advance(Start, Events, 0, atof, q, q');
  }

  lemma Step1(atof: string -> real)
    requires AnalyzeEvents(Start, Events[..1], atof) == Ok(State(1, atof))
    ensures AnalyzeEvents(Start, Events[..2], atof) == Ok(State(2, atof))
  {
    var q, q' := State(1, atof), State(2, atof);
    assert q.items[1 := q'.items[1]] == q'.items;
    Advance(Start, Events, 1, atof, q, q');
  }

  lemma Step2(atof: string -> real)
    requires AnalyzeEvents(Start, Events[..2], atof) == Ok(State(2, atof))
    ensures AnalyzeEvents(Start, Events[..3], atof) == Ok(State(3, atof))
  {
    var q, q' := State(2, atof), State(3, atof);
    Advance(Start, Events, 2, atof, q, q');
  }

  lemma Step3(atof: string -> real)
    requires atof("5") == 5.0
    requires AnalyzeEvents(Start, Events[..3], atof) == Ok(State(3, atof))
    ensures AnalyzeEvents(Start, Events[..4], atof) == Ok(State(4, atof))
  {
    var q, q' := State(3, atof), State(4, atof);
    assert q.items[0 := q'.items[0]] == q'.items;
    Advance(Start, Events, 3, atof, q, q');
  }

  lemma Step4(atof: string -> real)
    requires AnalyzeEvents(Start, Events[..4], atof) == Ok(State(4, atof))
    ensures AnalyzeEvents(Start, Events[..5], atof) == Ok(State(5, atof))
  {
    var q, q' := State(4, atof), State(5, atof);
    assert q.items[1 := q'.items[1]] == q'.items;
    Advance(Start, Events, 4, atof, q, q');
  }

  lemma Step5(atof: string -> real)
    requires AnalyzeEvents(Start, Events[..5], atof) == Ok(State(5, atof))
    ensures AnalyzeEvents(Start, Events[..6], atof) == Ok(State(6, atof))
  {
    var q, q' := State(5, atof), State(6, atof);
    Advance(Start, Events, 5, atof, q, q');
  }

  lemma Step6(atof: string -> real)
    requires atof("15") == 15.0
    requires AnalyzeEvents(Start, Events[..6], atof) == Ok(State(6, atof))
    ensures AnalyzeEvents(Start, Events[..7], atof) == Ok(State(7, atof))
  {
    var q, q' := State(6, atof), State(7, atof);
    assert q.items[0 := q'.items[0]] == q'.items;
    Advance(Start, Events, 6, atof, q, q');
  }

  lemma Step7(atof: string -> real)
    requires AnalyzeEvents(Start, Events[..7], atof) == Ok(State(7, atof))
    ensures AnalyzeEvents(Start, Events[..8], atof) == Ok(State(8, atof))
  {
    var q, q' := State(7, atof), State(8, atof);
    assert q.items[1 := q'.items[1]] == q'.items;
    assert Register([], "blue") == ["blue"];
    Advance(Start, Events, 7, atof, q, q');
  }

  lemma Step8(atof: string -> real)
    requires AnalyzeEvents(Start, Events[..8], atof) == Ok(State(8, atof))
    ensures AnalyzeEvents(Start, Events[..9], atof) == Ok(State(9, atof))
  {
    var q, q' := State(8, atof), State(9, atof);
    Advance(Start, Events, 8, atof, q, q');
  }

  lemma Step9(atof: string -> real)
    requires atof("10") == 10.0
    requires AnalyzeEvents(Start, Events[..9], atof) == Ok(State(9, atof))
    ensures AnalyzeEvents(Start, Events[..10], atof) == Ok(State(10, atof))
  {
    var q, q' := State(9, atof), State(10, atof);
    assert q.items[0 := q'.items[0]] == q'.items;
    Advance(Start, Events, 9, atof, q, q');
  }

  lemma Step10(atof: string -> real)
    requires AnalyzeEvents(Start, Events[..10], atof) == Ok(State(10, atof))
    ensures AnalyzeEvents(Start, Events[..11], atof) == Ok(State(11, atof))
  {
    var q, q' := State(10, atof), State(11, atof);
    assert q.items[1 := q'.items[1]] == q'.items;
    assert "red" != "blue";
    assert Register(["blue"], "red") == ["blue", "red"];
    Advance(Start, Events, 10, atof, q, q');
  }

  lemma Step11(atof: string -> real)
    requires AnalyzeEvents(Start, Events[..11], atof) == Ok(State(11, atof))
    ensures AnalyzeEvents(Start, Events[..12], atof) == Ok(State(12, atof))
  {
    var q, q' := State(11, atof), State(12, atof);
    Advance(Start, Events, 11, atof, q, q');
  }

  /** The schema above over the header and the rows (5, red), (15, blue),
      (10, red): the range column observes [5, 15], the counter ends at the
      four row events, and the class column holds blue before red, because
      the label of the first data row is never registered. */
  lemma FirstDataRowLabelSkipped(atof: string -> real)
    requires atof("5") == 5.0 && atof("15") == 15.0 && atof("10") == 10.0
    ensures var r := AnalyzeEvents(Start, Events, atof);
      && r.Ok?
      && r.value.items[0].actualLow == 5.0 && r.value.items[0].actualHigh == 15.0
      && r.value.items[1].classes == ["blue", "red"]
      && r.value.rowCount == 4
  {
    Step0(atof);
    Step1(atof);
    Step2(atof);
    Step3(atof);
    Step4(atof);
    Step5(atof);
    Step6(atof);
    Step7(atof);
    Step8(atof);
    Step9(atof);
    Step10(atof);
    Step11(atof);
    assert Events[..12] == Events;
  }

  /** One more event of a stream whose prefix the pass has accepted. */
  lemma Advance(p: Pass, events: seq<Event>, k: nat, atof: string -> real, q: Pass, q': Pass)
    requires k < |events|
    requires AnalyzeEvents(p, events[..k], atof) == Ok(q)
    requires AnalyzeStep(q, events[k], atof) == Ok(q')
    ensures AnalyzeEvents(p, events[..k + 1], atof) == Ok(q')
  {
    assert events[..k + 1][..k] == events[..k];
  }

  /** The data buffer is sized by column counts plus one, not by slots: one
      data row over a single one-of-n input column with three labels needs
      three slots but gets a buffer of two elements. */
  lemma BufferCountsColumns()
    ensures var items := [Column(OneOfN, None, 0.0, 1.0, 0.0, 0.0, ["a", "b", "c"], 3)];
      && ActualCount(items, 0, 1) + ActualCount(items, 1, 0) == 3
      && Normalize.Zeros(1 * (1 + 0 + 1)) == Schema.Some([0.0, 0.0])
  {
    var items := [Column(OneOfN, None, 0.0, 1.0, 0.0, 0.0, ["a", "b", "c"], 3)];
    assert items[..0] == [];
    assert Normalize.Zeros(2).value == [0.0, 0.0];
  }
}
