# Trustimator dataset encoder, modelled in Dafny

Trustimator keeps a loaded table in a `Dataset` object: a schema (one
descriptor per column, with a "Type" of Numeric, Categorical or Meta,
and for a Categorical column its list of "Values") and rows of string
fields. A learning algorithm reads the table through four operations:

- `get_training_dimensions`: the number of training rows, of input
  slots and of outputs.
- `leave_item_out`: excludes one physical row for leave-one-out
  validation.
- `get_training_row`: encodes a logical row into a caller's `float`
  input buffer and writes the target into `output[0]`. A Numeric column
  takes one slot, a Categorical column a one-hot block of `|Values|`
  slots, and a Meta column none. The last schema column is the target.
- `get_scale_flags`: fills an `int` buffer with 1 for every numeric slot
  and 0 for every one-hot slot.

The model has four modules:

- `Schema` (`schema.dfy`): the column descriptor `Column`, the slot width
  of a prefix of the columns, the first column with an unhandled type,
  and the dimension formula with its 32-bit `unsigned int` wrap-around.
- `Encoding` (`encoding.dfy`): what the two traversals produce, as
  functions (`EncodeInputs`, `ScaleFlags`). It also has the lemmas that
  locate each column's block in both.
- `LeaveOneOut` (`leave_one_out.dfy`): the remap from logical to
  physical rows, its inverse, and the bijection it defines.
- `Datasets` (`dataset.dfy`): the class `Dataset`, whose methods are the
  four operations over `array` buffers. The row and flag methods are
  proved against `EncodeInputs` and `ScaleFlags`, the dimension method
  against `DimInput` and `Wrap32`; `LeaveItemOut` sets the excluded row.

Points where the model follows the code rather than its comments or its
evident intent:

- The dimension loop (`dataset.cpp:154`) visits every column, the target
  included. With handled input columns, `DimInput` equals the input width
  exactly when the target's adjustment is 0: a Numeric target, a
  Categorical target with one value, or a target of unhandled type
  (`get_training_row` reads the target with `toFloat` whatever its type)
  (`Schema.DimInputMatchesWidth`).
- The row bound is asserted before the leave-one-out remap
  (`dataset.cpp:181-187`). With the excluded row inside the table
  (`leave_item < vdata.size()`), the last logical row then passes the
  check but maps one past the table (`LeaveOneOut.LastRowOverruns`). With
  the excluded row at or past the end it stays in place
  (`LeaveOneOut.ExclusionPastTable`). The model reports the overrun as
  `PhysicalRowOutOfRange` instead of reading past the vector.
- With handled input columns, at least one written slot, and a Meta
  target or a Categorical target without values, the input count is one
  less than the slots the traversals write
  (`Schema.DimInputUndersized`). For the schema `[Num, Meta]` it is 0
  (`dataset.cpp:146,159`), yet `input[0]` and `should_scale[0]` are
  written (`dataset.cpp:211,245`). A buffer sized from the count
  overflows. The model requires buffers that hold the written slots (see
  "Left out").
- `leave_item_out` (`dataset.cpp:172-175`) accepts any row. An excluded
  row at or past the end of the table excludes nothing, yet the row count
  still drops by one, so the last physical row is never visited
  (`LeaveOneOut.ExclusionPastTable`).
- The constructor (`dataset.cpp:11-14`) leaves `leave_item`
  uninitialised. The model starts with no row left out.
- An unhandled type code calls `qFatal` after the earlier columns have
  been written. The model returns `Err(UnknownColumnType(code))` and
  states exactly what was written before it.

## Model

| member | source | states |
|---|---|---|
| Schema.Wrap32 | dataset.cpp:146 | conversion to `unsigned int` lands in `[0, 2^32)`, keeps in-range values and sends -1 to `2^32 - 1` |
| Schema.Wrap32Add | dataset.cpp:159-167 | decrementing or adding to a wrapped counter and wrapping again equals wrapping the exact sum |
| Schema.WidthMonotone | dataset.cpp:190-218 | the input cursor never moves back: a longer prefix of the columns is at least as wide |
| Schema.InputColumns | dataset.cpp:191 | the traversals visit every column but the last, each at its own index; an empty schema has none |
| Schema.FirstUnknown | dataset.cpp:215-216 | where a traversal aborts: every column before it has a handled type, and it is the end or an unhandled column |
| Schema.StopsAtFirstUnknown | dataset.cpp:215-216 | a walk that has not passed the abort point and meets an unhandled column is at the abort point |
| Schema.FirstUnknownAllKnown | dataset.cpp:191-218 | a traversal runs to the last input column exactly when every column type is handled |
| Schema.AdjustmentWidth | dataset.cpp:154-169 | one per column plus the Meta/Categorical adjustments equals the slot width plus one per unhandled column |
| Schema.DimInputWidth | dataset.cpp:146-169 | the input count equals the input columns' width, plus their unhandled columns, plus the target column's adjustment |
| Schema.DimInputByTarget | dataset.cpp:154-169 | with handled input columns, the input count is the width for a Numeric target or a target of unhandled type, one less for a Meta target, and for a Categorical target one less than its number of values more |
| Schema.DimInputMatchesWidth | dataset.cpp:154-169 | with handled input columns, the input count equals the input width exactly when the target's adjustment is 0, which holds exactly for a Numeric target, a target of unhandled type, or a Categorical target with one value |
| Schema.DimInputUndersized | dataset.cpp:146-169 | with handled input columns and a Meta target, or a Categorical target without values, the wrapped input count is below the slot width the traversals write whenever that width is at least 1 |
| LeaveOneOut.Translate | dataset.cpp:183-187 | the physical row is the logical row with no exclusion; otherwise it is never the excluded row, and it is the logical row exactly when that lies before the exclusion (else one more) |
| LeaveOneOut.Untranslate | dataset.cpp:183-187 | every physical row but the excluded one is the image of a logical row |
| LeaveOneOut.TranslateInjective | dataset.cpp:183-187 | the remap is injective and `Untranslate` undoes it |
| LeaveOneOut.LeaveOneOutBijection | dataset.cpp:150-187 | the `N - 1` logical rows counted at lines 150-151, remapped at lines 183-187, visit every physical row but the excluded one, once each, in ascending order |
| LeaveOneOut.VisitedIdentity | dataset.cpp:183 | with no exclusion, logical and physical rows coincide |
| LeaveOneOut.ExclusionPastTable | dataset.cpp:150-187 | an exclusion at or past the end of the table leaves the remap the identity, so the last row index the bound check accepts stays inside the table, while the row count still drops by one, so the last physical row is never visited |
| LeaveOneOut.LastRowOverruns | dataset.cpp:181-189 | with the excluded row inside the table (`leave_item < vdata.size()`), the last row index the bound check accepts maps one past the table |
| Encoding.OneHot | dataset.cpp:202-206 | the block of a Categorical column has one slot per value |
| Encoding.OneHotExclusive | dataset.cpp:201-206 | every one-hot slot is 0 or 1; slot `j` is 1 exactly when the parsed code is `j + 1`; exactly one slot is 1 for a code from 1 to the number of values, and none otherwise |
| Encoding.EncodeColumn | dataset.cpp:193-213 | a column contributes exactly its slot count: one for Numeric, one per value for Categorical, none for Meta |
| Encoding.EncodeInputs | dataset.cpp:190-218 | the encoded row of the first `n` columns is exactly as long as their width |
| Encoding.ColumnFlags | dataset.cpp:228-247 | a column contributes as many flags as slots |
| Encoding.ScaleFlags | dataset.cpp:225-252 | the flags of the first `n` columns are exactly as many as their width |
| Encoding.MetaSkipped | dataset.cpp:195-231 | a Meta column leaves the width, the encoded row (the row walk's skip at lines 195-196) and the flags (the flag walk's skip at lines 230-231) unchanged |
| Encoding.Origin | dataset.cpp:190-218 | every slot below the width belongs to a Numeric or Categorical column, at an offset inside its block, never to a Meta column |
| Encoding.SlotOwnerUnique | dataset.cpp:190-218 | the cursor only grows, so two column slots at the same index are the same slot of the same column |
| Encoding.OriginUnique | dataset.cpp:190-218 | the origin of slot `j` of column `ci` is exactly `(ci, j)`: each slot belongs to one column only |
| Encoding.EncodePrefix | dataset.cpp:190-218 | encoding fewer columns yields a prefix of the encoding, so an aborted row is a prefix of the full one |
| Encoding.FlagPrefix | dataset.cpp:225-252 | flagging fewer columns yields a prefix of the flags |
| Encoding.RowSlot | dataset.cpp:190-218 | slot `j` of column `ci`'s block sits at `Width(cols, ci) + j` of the encoded row |
| Encoding.FlagSlot | dataset.cpp:225-252 | slot `j` of column `ci`'s flags sits at `Width(cols, ci) + j` of the scale flags |
| Encoding.SlotsAligned | dataset.cpp:191-247 | both traversals put the same column at the same slot: a Categorical slot has flag 0 and value 1 exactly for code `j + 1`; a Numeric slot has flag 1 and the parsed value |
| Encoding.WidthAgreement | dataset.cpp:146-247 | with handled input columns and a Numeric target, the input count, the encoded row length and the flag count agree |
| Encoding.WorkedExample | dataset.cpp:143-253 | a schema `[Num, Cat(3 values), Meta, Num]` has 4 inputs; when `toInt("2")` is 2, row `30, 2, x, 0.75` encodes to `[toFloat("30"), 0, 1, 0]` with flags `[1, 0, 0, 0]`; the `0.75` output is stated by `Datasets.ExampleSession`, not here |
| Datasets.Dataset.constructor | dataset.cpp:11-14 | a new dataset holds the given schema and rows and leaves no row out |
| Datasets.Dataset.LeaveItemOut | dataset.cpp:172-175 | records the row to exclude (or none) |
| Datasets.Dataset.GetTrainingDimensions | dataset.cpp:143-170 | one output; the row count, minus one when a row is left out; the input count from the dimension formula; all as wrapped `unsigned int` |
| Datasets.Dataset.GetTrainingRow | dataset.cpp:177-221 | an out-of-bound row or a remapped row past the table is an error with nothing written; otherwise the input buffer holds the encoding of the physical row up to the first unhandled column, with later slots untouched; then either `UnknownColumnType` with the output untouched, or `Ok` with `output[0]` the parsed last field |
| Datasets.Dataset.GetScaleFlags | dataset.cpp:223-253 | the flag buffer holds the scale flags up to the first unhandled column, with later slots untouched; the status says whether the walk finished |
| Datasets.WriteInputs | dataset.cpp:190-218 | the row walk stops at the first unhandled column and has written exactly the encoding of the columns before it |
| Datasets.WriteFlags | dataset.cpp:225-252 | the flag walk stops at the first unhandled column and has written exactly the flags of the columns before it |
| Datasets.AdvanceInputs | dataset.cpp:193-213 | one handled column extends the written encoding by its block and moves the cursor to the next column's width |
| Datasets.AdvanceFlags | dataset.cpp:228-247 | one handled column extends the written flags by its block and moves the cursor to the next column's width |
| Datasets.WriteColumn | dataset.cpp:193-213 | one case of the row switch overwrites exactly the column's block at the cursor and advances the cursor by its slot count |
| Datasets.WriteColumnFlags | dataset.cpp:228-247 | one case of the flag switch overwrites exactly the column's flags at the cursor and advances the cursor by its slot count |
| Datasets.FillOneHot | dataset.cpp:202-206 | the inner loop writes the one-hot block at the cursor and nothing else |
| Datasets.FillZeros | dataset.cpp:236-240 | the inner loop writes zero flags at the cursor and nothing else |

## Left out

- `loadData` (CSV parsing with `fopen`/`fgets`, JSON schema parsing): file I/O. The constructor takes the already loaded schema and rows.
- `rowCount`, `columnCount`, `data`, `headerData`, `getSchema`: Qt table-model display accessors. No training operation depends on them.
- `QVariant::toInt` and `QVariant::toFloat`: foreign conversions, passed in as the `Parsers` functions. `float` is modelled as `real`, so rounding is not modelled.
- Column "Name" entries and the `QVariant` maps: only the "Type" code and the "Values" count matter to the operations. An unhandled type keeps its code in `Unknown(code)`.
- `dataset.h` declares neither the `COL_TYPE_*` codes, nor `DONT_LEAVE_ANY`, nor the `leave_item` field. Their declarations are not part of this model. The column kinds are a datatype. `leave_item` is modelled as the field `leaveItem: Option<nat>`, with `DONT_LEAVE_ANY` as `None`.
- `qFatal` and `assert`: they abort the process. The model returns an error status and states the buffer contents at that point.
- Datasets.Dataset.GetTrainingRow: requires a non-empty schema, because the target is read at `schema.size() - 1`. It also requires that the physical row has a field for every column (`QStringList::at` asserts this). It also requires an input buffer that holds every slot the walk writes. This excludes the buffer overrun the source commits when a caller sizes the buffer from `get_training_dimensions` and the target is Meta, or Categorical without values (`Schema.DimInputUndersized`). It also requires distinct input and output buffers. The source does not rule out aliasing; with it, the write of `output[0]` at `dataset.cpp:220` would overwrite `input[0]`.
- Datasets.Dataset.GetScaleFlags: requires a flag buffer that holds every slot the walk writes. This excludes the same overrun as for `GetTrainingRow`, when the buffer is sized from `get_training_dimensions` with a Meta target or a Categorical target without values.
- Datasets.Dataset.GetTrainingDimensions: `vdata.size()` is `int`; the model takes the row count as an unbounded natural before converting it to `unsigned int`.
