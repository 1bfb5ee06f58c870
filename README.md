# Normalization schema engine (Normalize.c) in Dafny

This project models the schema engine in `vol1/c-examples/Normalize.c`. The
engine turns a delimited text file into a dataset ready for machine learning.
The caller first declares one descriptor per column. A descriptor is a range
column, or a class column with one-of-n or equilateral encoding. An analyze
pass then reads the file once. It names the columns from the header row,
records the observed minimum and maximum of range columns, and registers the
distinct labels of class columns. A sizing step counts the output slots of
the input and ideal columns and allocates the dataset. A process pass reads
the file again; in this source its field handler encodes nothing.

The model keeps the source's imperative form:

- `Normalize.NormData` is the `NORM_DATA` object. Its fields are the
  descriptor list (`items`, a `seq` of `Schema.Column` records), the column
  cursor `_currentColumn` and `rowCount`. The methods change those fields in
  place: the declarations, the four tokenizer callbacks, the two passes,
  `CalculateActualCount` and the sizing step.
- The CSV tokenizer is an external library. Its output is modelled as a
  sequence of `Stream.Event`s, each `Field(text)` or `RowEnd`. The passes
  drive the callbacks over that sequence in a loop.
- `atof` is a parameter `atof: string -> real` that the model never
  interprets. Min and max over its results are exact.
- Each pass is also stated as a function on values
  (`Stream.AnalyzeEvents`, `Stream.ProcessEvents`). The methods are proved
  against these functions, and the lemmas are proved about them: how fields
  are routed, how rows are counted, observed bounds, and label order.
- The linked lists of descriptors and labels become sequences. Walking to
  the n-th item becomes indexing, and linking at the tail becomes appending.
  The label scan in `_AppendUniqueClass` and the accumulation in
  `CalculateActualCount` stay loops.

## Model

| member | source | states |
|---|---|---|
| `Schema.NewColumn` | vol1/c-examples/Normalize.c:190-195 | a declared descriptor has the given kind and target bounds, no name, no labels, `classCount` 0 and zero observed bounds (calloc), and satisfies the descriptor invariant |
| `Schema.Register` | vol1/c-examples/Normalize.c:16-40 | after offering a label, the list contains it and keeps the old list as a prefix; it grows by at most one; it is unchanged exactly when the label was already present; distinctness is preserved |
| `Schema.WithClass` | vol1/c-examples/Normalize.c:8-44 | registering a label moves `classCount` by exactly as much as the list grows, changes no other field, and preserves the invariant `classCount == |classes|` with distinct labels |
| `Schema.AppendUniqueClass` | vol1/c-examples/Normalize.c:8-44 | the scanning loop returns the descriptor unchanged when the label is present; otherwise the label is appended at the end and `classCount` grows by one |
| `Schema.AnalyzeCell` | vol1/c-examples/Normalize.c:70-94 | row 0 sets only the name; row 1 sets `actualLow == actualHigh == atof(s)` for every kind and registers no label; on other rows a range column's bounds widen to enclose `atof(s)` and each stays the old bound or the new value; a class column registers the label with its bounds untouched; kind and targets never change |
| `Slots.Weight` | vol1/c-examples/Normalize.c:282-292 | a range column takes one slot; for a descriptor that keeps its invariant, a one-of-n column takes one slot per registered label and an equilateral column one fewer, so never fewer than -1; an unrecognised kind takes none |
| `Slots.ActualCount` | vol1/c-examples/Normalize.c:270-300 | the slots of the columns whose index lies in `[start, start+size)`; a window that is empty or lies wholly outside the schema counts 0 |
| `Slots.WindowIsSlice` | vol1/c-examples/Normalize.c:270-300 | the window count equals the plain slot total (range 1, equilateral `classCount-1`, one-of-n `classCount`) of the columns inside `[start, start+size)` clipped to the schema; columns outside contribute nothing, for any start and size |
| `Slots.AdjacentWindows` | vol1/c-examples/Normalize.c:270-300 | count(s, a) + count(s+a, b) == count(s, a+b) for a, b >= 0 |
| `Slots.OutsideWindowIgnored` | vol1/c-examples/Normalize.c:280-297 | changing a column whose index lies outside the window leaves the count unchanged |
| `Slots.RangeWindowCountsColumns` | vol1/c-examples/Normalize.c:282-285 | over a window of range columns only, the slot count equals the column count |
| `Stream.AnalyzeStep` | vol1/c-examples/Normalize.c:46-104 | one analyze callback keeps the schema's length |
| `Stream.AnalyzeEvents` | vol1/c-examples/Normalize.c:249-260 | driving the analyze callbacks over a stream keeps the schema's length |
| `Stream.ProcessStep` | vol1/c-examples/Normalize.c:106-148 | one process callback fails exactly when a field arrives with the cursor at or past the schema's width; on success a cursor within the schema stays within it |
| `Stream.ProcessEvents` | vol1/c-examples/Normalize.c:331-342 | driving the process callbacks over a stream from a cursor within the schema leaves, on success, a cursor within the schema |
| `Stream.ProcessRouting` | vol1/c-examples/Normalize.c:116-130 | the process pass fails exactly when some field arrives at a position the schema lacks, and fails at that field; on success the cursor equals the number of fields after the last row event |
| `Stream.AnalyzeShape` | vol1/c-examples/Normalize.c:54-68 | the analyze pass fails on exactly the streams the process pass fails on; on success the cursor is the number of trailing fields, `rowCount` has grown by the number of row events, and every descriptor keeps its kind and target bounds |
| `Stream.FoldCells` | vol1/c-examples/Normalize.c:70-94 | applying any sequence of fields to a descriptor keeps its kind and targets and preserves the descriptor invariant |
| `Stream.PassByColumn` | vol1/c-examples/Normalize.c:54-95 | after the analyze pass, descriptor j equals the old descriptor with exactly the fields routed to column j applied, in stream order |
| `Stream.CellsIncreasing` | vol1/c-examples/Normalize.c:55-57 | a column receives at most one field per row: the row numbers of its fields strictly increase |
| `Stream.FieldIsCell` | vol1/c-examples/Normalize.c:55-63 | every field at position j of its row is routed to column j |
| `Stream.FoldBounds` | vol1/c-examples/Normalize.c:79-86 | a range column's bounds remain ordered and enclose every value applied on row 1 or later, even though row 1 resets them |
| `Stream.AnalyzeRangeBounds` | vol1/c-examples/Normalize.c:79-86 | after the analyze pass, a range column has `actualLow <= actualHigh`, and every value routed to it on row 1 or later lies in `[actualLow, actualHigh]` |
| `Stream.RegisterAll` | vol1/c-examples/Normalize.c:16-43 | registering a sequence of labels keeps the old list as a prefix, contains exactly the old and the new labels, and preserves distinctness |
| `Stream.FirstIndex` | vol1/c-examples/Normalize.c:30-43 | the position of a label's first occurrence in the stream of offered texts, the measure of first-seen order that `Stream.FirstSeenOrder` states the label list follows: it holds that label, and no earlier text does |
| `Stream.FirstSeenOrder` | vol1/c-examples/Normalize.c:30-43 | labels past the old list are new and come from the input; they stand in the order of their first occurrence, so label indices follow first-seen order |
| `Stream.FoldLabels` | vol1/c-examples/Normalize.c:79-91 | a class column's labels are its old labels with the texts of its fields from rows other than 0 and 1 registered in order; any other column's labels stay untouched |
| `Stream.AnalyzeLabels` | vol1/c-examples/Normalize.c:88-91 | after the analyze pass, a class column's labels are exactly the texts routed to it past row 1, registered in stream order without repetition |
| `Normalize.NormData.constructor` | vol1/c-examples/Normalize.c:150-153 | a new object has an empty schema, cursor 0 and `rowCount` 0 |
| `Normalize.NormData.DefRange` | vol1/c-examples/Normalize.c:180-205 | appends exactly one range descriptor with the given targets and `classCount` 0; earlier descriptors, the cursor and `rowCount` are unchanged |
| `Normalize.NormData.DefClass` | vol1/c-examples/Normalize.c:207-232 | appends exactly one descriptor of the given kind with the given targets and `classCount` 0; everything else is unchanged |
| `Normalize.NormData.AnalyzeColumn` | vol1/c-examples/Normalize.c:46-95 | selects the descriptor at the cursor's old value and then advances the cursor; when that index is past the schema it is the fatal error and nothing else changes; otherwise only that descriptor is updated, as the cell rule says |
| `Normalize.NormData.AnalyzeRow` | vol1/c-examples/Normalize.c:97-104 | resets the cursor to 0 and increments `rowCount` |
| `Normalize.NormData.ProcessColumn` | vol1/c-examples/Normalize.c:106-139 | routes and advances the cursor; errors when the index is past the schema; changes neither the schema nor `rowCount` |
| `Normalize.NormData.ProcessRow` | vol1/c-examples/Normalize.c:141-148 | resets the cursor only; `rowCount` is untouched |
| `Normalize.NormData.Analyze` | vol1/c-examples/Normalize.c:234-268 | the pass fails exactly when a row has more fields than the schema; on success the state is the analyze function's result, and `rowCount` equals its old value plus the number of row events minus one (-1 for an empty stream on a fresh object) |
| `Normalize.NormData.CalculateActualCount` | vol1/c-examples/Normalize.c:270-300 | the loop returns the window slot count |
| `Normalize.NormData.Process` | vol1/c-examples/Normalize.c:302-351 | on success, `inputCount` is the slot count of columns `[0, inputCount)`, `idealCount` is that of `[inputCount, inputCount+outputCount)`, and the two add up to the count over both windows; `recordCount == rowCount`; the buffer is zero-filled with `rowCount*(inputCount+outputCount+1)` elements and the write cursor is at its start; the pass fails exactly when some row overflows the schema; schema and `rowCount` are unchanged |
| `Normalize.Zeros` | vol1/c-examples/Normalize.c:315 | calloc of a negative element count gives no buffer; otherwise the buffer has exactly that many elements, all zero |
| `Examples.FirstDataRowLabelSkipped` | vol1/c-examples/Normalize.c:71-91 | on a header and the rows (5, red), (15, blue), (10, red), the range column observes [5, 15], `rowCount` reaches 4 before the header decrement, and the class labels are [blue, red] because row 1's label is never registered |
| `Examples.BufferCountsColumns` | vol1/c-examples/Normalize.c:312-315 | a one-of-n input column with three labels needs three slots per row, but a single data row gets a buffer of two elements |

## Left out

- File I/O: `fopen`, `fread` in 1024-byte chunks, `fclose`, and the exit when a file cannot be opened. Each pass takes the whole event stream as input instead.
- The CSV tokenizer (`csv_init`, `csv_parse`, `csv_fini`, `csv_free`, `csv_strerror`) and its syntax errors. Its source is not part of this model, and only its field and row events are used. The terminator character passed to the row callback is unused by the source and dropped.
- `printf`, `fprintf` and `exit`. The "too many columns" exit is the `TooManyColumns` error, and the pass stops there.
- `NormDelete`, `strdup` copies and `free`. They are memory management and have no counterpart once lists are sequences.
- `atof` parsing. It is an uninterpreted parameter, and no floating-point rounding or NaN is modelled.
- Fields are taken as whole strings. The source sees each field only up to its first NUL byte (`strcmp`, `strdup`, `atof`), and the model does not capture that truncation.
- Range rescaling and the one-of-n and equilateral encodings. The process field handler in this source encodes nothing (its switch has empty cases), so there is nothing to model.
- `Normalize.NormData.Process`: the C `int` arithmetic in `start + size` and `rowCount*(inputCount+outputCount+1)` is modelled unbounded, without overflow. A negative product is modelled as calloc returning NULL (`None`). A zero product is modelled as an empty buffer, although C allows either NULL or a pointer.
- `Normalize.NormData.Analyze`: on the fatal error, the contract does not state the object's partial state, because the program exits at that point.
- `Normalize.NormData.constructor` stands for `NormCreate`: allocation itself is not modelled.

## Notes on the source

These points describe the code as written. The model follows the code in each case.

- The first data row (`rowCount == 1`) sets `actualLow` and `actualHigh` for every column kind, including class columns, and it skips `_AppendUniqueClass`. A label seen only in the first data row is therefore never registered, and label order starts from the second data row. `Examples.FirstDataRowLabelSkipped` shows labels `[blue, red]` on a file whose first data row says `red`.
- The data buffer is allocated with `rowCount*(inputCount+outputCount+1)` elements. This uses column counts plus one, not the slot counts that the same function has just computed. Class columns with more than one slot can therefore need more room than the buffer has (`Examples.BufferCountsColumns`).
- `NormAnalyze` resets the cursor but not `rowCount`. It subtracts one for the header unconditionally, so an empty stream on a fresh object leaves `rowCount == -1`.
- An equilateral column with no labels contributes -1 slots.
- A kind matched by no `case` (any other integer passed to `NormDefClass`) is routed like any column. It is named on row 0, seeded on row 1, otherwise ignored, and contributes 0 slots.
