/** Column descriptors of the normalization schema (NORM_DATA_ITEM) and the
    per-column registry of class labels that the analyze pass fills in. */
module Schema {

  datatype Option<T> = None | Some(value: T)

  /** The column kinds. `Range`, `Equilateral` and `OneOfN` stand for
      NORM_TYPE_RANGE, NORM_CLASS_EQUILATERAL and NORM_CLASS_ONEOFN;
      `Unrecognised` stands for any other integer a caller hands to
      NormDefClass: every switch over the kind has no default case, so such a
      column is routed like the others, named on row 0 and seeded on row 1,
      and otherwise ignored. */
  datatype NormType = Range | Equilateral | OneOfN | Unrecognised

  /** One descriptor of the schema. `name` is None until the header row is
      read (the pointer is NULL after calloc); `classes` is the label list in
      first-seen order and `classCount` the counter kept beside it. */
  datatype Column = Column(
    kind: NormType,
    name: Option<string>,
    targetLow: real,
    targetHigh: real,
    actualLow: real,
    actualHigh: real,
    classes: seq<string>,
    classCount: int)

  /** The descriptor NormDefRange / NormDefClass link in: every field not
      given explicitly is zero, as calloc leaves it. */
  function NewColumn(kind: NormType, low: real, high: real): (c: Column)
    ensures c.kind == kind && c.targetLow == low && c.targetHigh == high
    ensures c.name == None && c.classes == [] && c.classCount == 0
    ensures c.actualLow == 0.0 && c.actualHigh == 0.0
    ensures ColumnValid(c)
  {
    Column(kind, None, low, high, 0.0, 0.0, [], 0)
  }

  predicate Distinct(s: seq<string>)
  {
    forall i, j :: 0 <= i < j < |s| ==> s[i] != s[j]
  }

  /** What every descriptor keeps true: the counter matches the label list,
      the labels are pairwise distinct and the observed bounds are ordered. */
  predicate ColumnValid(c: Column)
  {
    && c.classCount == |c.classes|
    && Distinct(c.classes)
    && c.actualLow <= c.actualHigh
  }

  /** The label list after `className` has been offered to it: unchanged when the
      label is already there, otherwise it is appended at the end. */
  function Register(labels: seq<string>, className: string): (r: seq<string>)
    ensures className in r
    ensures labels <= r && |r| <= |labels| + 1
    ensures className in labels <==> r == labels
    ensures Distinct(labels) ==> Distinct(r)
  {
    if className in labels then labels else labels + [className]
  }

  /** The descriptor after _AppendUniqueClass: the label registered and the
      counter moved with the list; nothing else changes. */
  function WithClass(c: Column, className: string): (r: Column)
    ensures r.classes == Register(c.classes, className)
    ensures r.classCount - c.classCount == |r.classes| - |c.classes|
    ensures r.(classes := c.classes, classCount := c.classCount) == c
    ensures ColumnValid(c) ==> ColumnValid(r)
  {
    if className in c.classes then c
    else c.(classes := c.classes + [className], classCount := c.classCount + 1)
  }

  /** _AppendUniqueClass: scan the list for `className`; return at the first
      match, otherwise link a new entry after the last one and bump the
      counter. */
  method AppendUniqueClass(item: Column, className: string) returns (r: Column)
    ensures className in item.classes ==> r == item
    ensures className !in item.classes ==>
      r == item.(classes := item.classes + [className], classCount := item.classCount + 1)
    ensures r == WithClass(item, className)
  {
    var i := 0;
    while i < |item.classes|
      invariant 0 <= i <= |item.classes|
      invariant className !in item.classes[..i]
    {
      if item.classes[i] == className {
        return item;
      }
      i := i + 1;
    }
    assert item.classes[..i] == item.classes;
    r := item.(classes := item.classes + [className], classCount := item.classCount + 1);
  }

  function Max(a: real, b: real): real { if a > b then a else b }

  function Min(a: real, b: real): real { if a < b then a else b }

  /** What the analyze pass does to the routed descriptor `c` for the field
      text `s` while the row counter is `rowCount`; `atof` is the string to
      number conversion, left uninterpreted. Row 0 only names the column;
      row 1 seeds both observed bounds for every kind (and registers no
      label); every other row widens a range column's bounds or registers the
      label of a class column. */
  function AnalyzeCell(c: Column, s: string, rowCount: int, atof: string -> real): (r: Column)
    ensures r.kind == c.kind && r.targetLow == c.targetLow && r.targetHigh == c.targetHigh
    ensures ColumnValid(c) ==> ColumnValid(r)
    ensures rowCount == 0 ==> r.name == Some(s) && r.(name := c.name) == c
    ensures rowCount != 0 ==> r.name == c.name
    ensures rowCount == 1 ==>
      r.actualLow == atof(s) == r.actualHigh && r.classes == c.classes && r.classCount == c.classCount
    ensures rowCount != 0 && rowCount != 1 && c.kind == Range ==>
      && r.actualLow <= atof(s) <= r.actualHigh
      && r.actualLow <= c.actualLow && c.actualHigh <= r.actualHigh
      && (r.actualLow == c.actualLow || r.actualLow == atof(s))
      && (r.actualHigh == c.actualHigh || r.actualHigh == atof(s))
      && r.classes == c.classes
    ensures rowCount != 0 && rowCount != 1 && c.kind != Range ==>
      r.actualLow == c.actualLow && r.actualHigh == c.actualHigh
    ensures rowCount != 0 && rowCount != 1 && (c.kind == Equilateral || c.kind == OneOfN) ==>
      r.classes == Register(c.classes, s)
    ensures c.kind == Range || c.kind == Unrecognised ==> r.classes == c.classes
  {
    if rowCount == 0 then
      c.(name := Some(s))
    else
      var d := atof(s);
      if rowCount == 1 then
        c.(actualHigh := d, actualLow := d)
      else
        match c.kind
        case Range => c.(actualHigh := Max(c.actualHigh, d), actualLow := Min(c.actualLow, d))
        case Equilateral => WithClass(c, s)
        case OneOfN => WithClass(c, s)
        case Unrecognised => c
  }
}
