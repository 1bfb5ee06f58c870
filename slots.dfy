/** How many output slots a window of schema columns occupies
    (CalculateActualCount and the rule it applies per column). */
module Slots {
  import opened Schema

  /** Output slots of one column: 1 for a range, `classCount` for one-of-n,
      `classCount - 1` for equilateral (so -1 for an equilateral column that
      registered no label) and 0 for a kind no case matches. */
  function Weight(c: Column): (r: int)
    ensures c.kind == Range ==> r == 1
    ensures ColumnValid(c) && c.kind == OneOfN ==> r == |c.classes|
    ensures ColumnValid(c) && c.kind == Equilateral ==> r == |c.classes| - 1
    ensures c.kind == Unrecognised ==> r == 0
    ensures ColumnValid(c) ==> -1 <= r
  {
    match c.kind
    case Range => 1
    case Equilateral => c.classCount - 1
    case OneOfN => c.classCount
    case Unrecognised => 0
  }

  predicate InWindow(i: int, start: int, size: int)
  {
    start <= i < start + size
  }

  /** The specification of CalculateActualCount: the slots of the columns
      whose index lies in [start, start + size), summed in column order. */
  function ActualCount(cols: seq<Column>, start: int, size: int): (r: int)
    ensures size <= 0 || start >= |cols| || start + size <= 0 ==> r == 0
  {
    if cols == [] then 0
    else
      var last := |cols| - 1;
      ActualCount(cols[..last], start, size) + (if InWindow(last, start, size) then Weight(cols[last]) else 0)
  }

  /** Reference definition: the slots of every column of a sequence, summed
      from the front. */
  function TotalSlots(cols: seq<Column>): int
  {
    if cols == [] then 0 else Weight(cols[0]) + TotalSlots(cols[1..])
  }

  function Clamp(x: int, lo: int, hi: int): (r: int)
    requires lo <= hi
    ensures lo <= r <= hi
    ensures lo <= x <= hi ==> r == x
  {
    if x < lo then lo else if x > hi then hi else x
  }

  lemma {:induction false} TotalSlotsAppend(cols: seq<Column>, c: Column)
    ensures TotalSlots(cols + [c]) == TotalSlots(cols) + Weight(c)
  {
    if cols != [] {
      assert (cols + [c])[1..] == cols[1..] + [c];
      TotalSlotsAppend(cols[1..], c);
    }
  }

  /** The window count is the plain total of the slice of columns that lie
      inside the window, once the window is clipped to the schema: columns
      outside it contribute nothing, whatever start and size are. */
  lemma {:induction false} WindowIsSlice(cols: seq<Column>, start: int, size: int)
    ensures var lo := Clamp(start, 0, |cols|);
            var hi := Clamp(start + size, lo, |cols|);
            ActualCount(cols, start, size) == TotalSlots(cols[lo..hi])
  {
    var n := |cols|;
    var lo := Clamp(start, 0, n);
    var hi := Clamp(start + size, lo, n);
    if n == 0 {
      assert cols[lo..hi] == [];
    } else {
      var p := cols[..n - 1];
      WindowIsSlice(p, start, size);
      var lo' := Clamp(start, 0, n - 1);
      var hi' := Clamp(start + size, lo', n - 1);
      if InWindow(n - 1, start, size) {
        assert lo == lo' && hi == n && hi' == n - 1;
        assert cols[lo..hi] == cols[lo..] && p[lo'..hi'] == p[lo..];
        SliceSnoc(cols, lo);
        TotalSlotsAppend(p[lo..], cols[n - 1]);
      } else if lo == n || hi == lo {
        assert lo' == hi';
        assert cols[lo..hi] == [] == p[lo'..hi'];
      } else {
        assert lo == lo' && hi == hi';
        assert cols[lo..hi] == p[lo'..hi'];
      }
    }
  }

  lemma SliceSnoc(cols: seq<Column>, lo: int)
    requires 0 <= lo < |cols|
    ensures cols[lo..] == cols[..|cols| - 1][lo..] + [cols[|cols| - 1]]
  {
  }

  /** Adjacent windows add up: the slots of [start, start + a) and of
      [start + a, start + a + b) together are those of [start, start + a + b). */
  lemma {:induction false} AdjacentWindows(cols: seq<Column>, start: int, a: int, b: int)
    requires 0 <= a && 0 <= b
    ensures ActualCount(cols, start, a) + ActualCount(cols, start + a, b) == ActualCount(cols, start, a + b)
  {
    if cols != [] {
      AdjacentWindows(cols[..|cols| - 1], start, a, b);
    }
  }

  /** Changing a column outside the window leaves the count unchanged. */
  lemma {:induction false} OutsideWindowIgnored(cols: seq<Column>, start: int, size: int, j: int, c: Column)
    requires 0 <= j < |cols| && !InWindow(j, start, size)
    ensures ActualCount(cols[j := c], start, size) == ActualCount(cols, start, size)
  {
    var last := |cols| - 1;
    if j < last {
      assert cols[j := c][..last] == cols[..last][j := c];
      OutsideWindowIgnored(cols[..last], start, size, j, c);
    } else {
      assert cols[j := c][..last] == cols[..last];
    }
  }

  /** Over a window of range columns only, the slot count is the column
      count. */
  lemma {:induction false} RangeWindowCountsColumns(cols: seq<Column>, start: int, size: int)
    requires 0 <= start && 0 <= size && start + size <= |cols|
    requires forall i :: start <= i < start + size ==> cols[i].kind == Range
    ensures ActualCount(cols, start, size) == size
  {
    WindowIsSlice(cols, start, size);
    RangeTotal(cols[start..start + size]);
  }

  lemma {:induction false} RangeTotal(cols: seq<Column>)
    requires forall i :: 0 <= i < |cols| ==> cols[i].kind == Range
    ensures TotalSlots(cols) == |cols|
  {
    if cols != [] {
      RangeTotal(cols[1..]);
    }
  }
}
