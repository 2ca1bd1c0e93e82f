/** The dataset object that feeds a learning algorithm: a loaded schema and
    table of string rows, an optional leave-one-out row, and the operations
    that give the training dimensions, encode one training row into
    caller-supplied buffers and fill the scale flags. */
module Datasets {
  import opened Schema
  import opened Encoding
  import opened LeaveOneOut

  /** Why a traversal stopped: the row bound check failed, the remapped row
      lies past the table, or a column has an unhandled type. */
  datatype EncodeError = RowOutOfRange | PhysicalRowOutOfRange | UnknownColumnType(code: int)

  datatype Status = Ok | Err(error: EncodeError)

  class Dataset {
    /** The column schema; its last column is the training target. */
    const schema: seq<Column>
    /** The loaded rows, each a list of string fields. */
    const vdata: seq<seq<string>>
    /** The physical row left out of training, if any. */
    var leaveItem: Option<nat>

    /** A dataset over an already loaded schema and table; no row is left out. */
    constructor (schema: seq<Column>, vdata: seq<seq<string>>)
      ensures this.schema == schema && this.vdata == vdata
      ensures leaveItem == None
    {
      this.schema := schema;
      this.vdata := vdata;
      leaveItem := None;
    }

    /** The physical row that logical training row `row` reads. */
    function Physical(row: nat): nat
      reads this
    {
      Translate(leaveItem, row)
    }

    /** Logical row `row` passes the bound check and its physical row exists. */
    predicate InRange(row: nat)
      reads this
    {
      row < |vdata| && Physical(row) < |vdata|
    }

    /** The row that logical row `row` reads has a field for every column. */
    predicate RowFits(row: nat)
      reads this
    {
      InRange(row) ==> |vdata[Physical(row)]| >= |schema|
    }

    /** Records the physical row to leave out (`None`: leave none out). */
    method LeaveItemOut(item: Option<nat>)
      modifies this
      ensures leaveItem == item
    {
      leaveItem := item;
    }

    /** The number of training rows, of inputs and of outputs, as
        `unsigned int` counters. The input count walks every column, the
        target column included. */
    method GetTrainingDimensions() returns (numData: nat, numInput: nat, numOutput: nat)
      ensures numOutput == 1
      ensures leaveItem.None? ==> numData == Wrap32(|vdata|)
      ensures leaveItem.Some? ==> numData == Wrap32(|vdata| - 1)
      ensures numInput == Wrap32(DimInput(schema))
    {
      numData := Wrap32(|vdata|);
      numInput := Wrap32(|schema| - 1);
      numOutput := 1;

      if leaveItem.Some? {
        Wrap32Add(|vdata|, -1);
        numData := Wrap32(numData - 1);
      }

      var i := 0;
      while i < |schema|
        invariant i <= |schema|
        invariant numInput == Wrap32(|schema| - 1 + Adjustment(schema, i))
      {
        Wrap32Add(|schema| - 1 + Adjustment(schema, i), Adjust(schema[i]));
        match schema[i] {
          case Meta =>
            numInput := Wrap32(numInput - 1);
          case Cat(values) =>
            numInput := Wrap32(numInput + (|values| - 1));
          case _ =>
        }
        i := i + 1;
      }
    }

    /** Encodes logical training row `row`: the blocks of the input columns
        into `input` from slot 0 on, the target field into `output[0]`.
        Writes no other slot. A column with an unhandled type stops the
        traversal, after the blocks of the columns before it. */
    method GetTrainingRow(row: nat, input: array<real>, output: array<real>, p: Parsers)
      returns (status: Status)
      requires |schema| >= 1
      requires RowFits(row)
      requires input != output
      requires Width(InputColumns(schema), FirstUnknown(InputColumns(schema))) <= input.Length
      requires output.Length >= 1
      modifies input, output
      ensures row >= |vdata| ==> status == Err(RowOutOfRange)
      ensures row < |vdata| <= Physical(row) ==> status == Err(PhysicalRowOutOfRange)
      ensures !InRange(row) ==> input[..] == old(input[..]) && output[..] == old(output[..])
      ensures InRange(row) ==>
        var cols := InputColumns(schema);
        var k := FirstUnknown(cols);
        var fields := vdata[Physical(row)];
        && input[..] == EncodeInputs(cols, k, fields, p) + old(input[..])[Width(cols, k)..]
        && (k < |cols| ==> status == Err(UnknownColumnType(cols[k].code)) && output[..] == old(output[..]))
        && (k == |cols| ==> status == Ok && output[..] == [p.toFloat(fields[|schema| - 1])] + old(output[1..]))
      ensures status.Ok? <==> InRange(row) && AllKnown(InputColumns(schema))
    {
      if row >= |vdata| {
        return Err(RowOutOfRange);
      }
      var r := row;
      if leaveItem.Some? && r >= leaveItem.value {
        r := r + 1;
      }
      if r >= |vdata| {
        return Err(PhysicalRowOutOfRange);
      }
      var fields := vdata[r];
      var cols := InputColumns(schema);
      var stop := WriteInputs(input, cols, fields, p);
      if stop < |cols| {
        return Err(UnknownColumnType(cols[stop].code));
      }
      output[0] := p.toFloat(fields[|schema| - 1]);
      return Ok;
    }

    /** Fills the scale flags of the input columns into `shouldScale` from
        slot 0 on, advancing through the columns exactly as the row encoder
        does. Writes no other slot; a column with an unhandled type stops
        the traversal, after the flags of the columns before it. */
    method GetScaleFlags(shouldScale: array<int>) returns (status: Status)
      requires Width(InputColumns(schema), FirstUnknown(InputColumns(schema))) <= shouldScale.Length
      modifies shouldScale
      ensures
        var cols := InputColumns(schema);
        var k := FirstUnknown(cols);
        && shouldScale[..] == ScaleFlags(cols, k) + old(shouldScale[..])[Width(cols, k)..]
        && (k < |cols| ==> status == Err(UnknownColumnType(cols[k].code)))
        && (k == |cols| ==> status == Ok)
    {
      var cols := InputColumns(schema);
      var stop := WriteFlags(shouldScale, cols);
      if stop < |cols| {
        return Err(UnknownColumnType(cols[stop].code));
      }
      return Ok;
    }
  }

  /** The column walk of the row encoder: writes the blocks of `cols` for
      the row `fields` from slot 0 on, and stops at the first column with an
      unhandled type, whose index it returns (`|cols|` when there is none). */
  method WriteInputs(input: array<real>, cols: seq<Column>, fields: seq<string>, p: Parsers)
    returns (stop: nat)
    requires |cols| <= |fields|
    requires Width(cols, FirstUnknown(cols)) <= input.Length
    modifies input
    ensures stop == FirstUnknown(cols)
    ensures input[..] == EncodeInputs(cols, stop, fields, p) + old(input[..])[Width(cols, stop)..]
  {
    ghost var k := FirstUnknown(cols);
    ghost var before := input[..];
    var cursor := 0;
    var i := 0;
    while i < |cols| && !cols[i].Unknown?
      invariant i <= k <= |cols|
      invariant cursor == Width(cols, i) <= input.Length
      invariant InputsWritten(input[..], cols, i, fields, p, before)
    {
      assert i < k by {
        if k < |cols| { assert cols[k].Unknown?; }
      }
      cursor := AdvanceInputs(input, cols, fields, p, i, cursor, before);
      i := i + 1;
    }
    if i < |cols| {
      StopsAtFirstUnknown(cols, i);
    }
    return i;
  }

  /** The column walk of the scale-flag generator: the same cursor
      arithmetic as `WriteInputs`, writing flags instead of values. */
  method WriteFlags(shouldScale: array<int>, cols: seq<Column>) returns (stop: nat)
    requires Width(cols, FirstUnknown(cols)) <= shouldScale.Length
    modifies shouldScale
    ensures stop == FirstUnknown(cols)
    ensures shouldScale[..] == ScaleFlags(cols, stop) + old(shouldScale[..])[Width(cols, stop)..]
  {
    ghost var k := FirstUnknown(cols);
    ghost var before := shouldScale[..];
    var cursor := 0;
    var i := 0;
    while i < |cols| && !cols[i].Unknown?
      invariant i <= k <= |cols|
      invariant cursor == Width(cols, i) <= shouldScale.Length
      invariant FlagsWritten(shouldScale[..], cols, i, before)
    {
      assert i < k by {
        if k < |cols| { assert cols[k].Unknown?; }
      }
      cursor := AdvanceFlags(shouldScale, cols, i, cursor, before);
      i := i + 1;
    }
    if i < |cols| {
      StopsAtFirstUnknown(cols, i);
    }
    return i;
  }

  /** The buffer holds the encoding of the first `i` columns of the row
      and, after it, what it held before the walk. */
  predicate InputsWritten(a: seq<real>, cols: seq<Column>, i: nat, fields: seq<string>, p: Parsers, before: seq<real>)
  {
    i <= |cols| <= |fields| && Width(cols, i) <= |before|
    && a == EncodeInputs(cols, i, fields, p) + before[Width(cols, i)..]
  }

  /** One known column of the walk: writes its block at the cursor, which
      stands after the blocks of the columns before it, and advances the
      cursor past it. */
  method AdvanceInputs(input: array<real>, cols: seq<Column>, fields: seq<string>, p: Parsers, i: nat, cursor: nat, ghost before: seq<real>)
    returns (next: nat)
    requires |cols| <= |fields|
    requires i < FirstUnknown(cols) && Width(cols, FirstUnknown(cols)) <= input.Length == |before|
    requires cursor == Width(cols, i) && InputsWritten(input[..], cols, i, fields, p, before)
    modifies input
    ensures next == Width(cols, i + 1) <= input.Length
    ensures InputsWritten(input[..], cols, i + 1, fields, p, before)
  {
    ghost var done := EncodeInputs(cols, i, fields, p);
    ghost var block := EncodeColumn(cols[i], fields[i], p);
    WidthMonotone(cols, i + 1, FirstUnknown(cols));
    next := WriteColumn(input, cursor, cols[i], fields[i], p);
    SpliceExtend(done, before, block);
  }

  /** Writes the slots of one input column at `cursor` and returns the
      advanced cursor (one case of the row encoder's switch). */
  method WriteColumn(input: array<real>, cursor: nat, c: Column, token: string, p: Parsers)
    returns (next: nat)
    requires !c.Unknown? && cursor + SlotCount(c) <= input.Length
    modifies input
    ensures next == cursor + SlotCount(c)
    ensures input[..] == Spliced(old(input[..]), cursor, EncodeColumn(c, token, p))
  {
    match c {
      case Meta =>
        next := cursor;
        SpliceEmpty(input[..], cursor);
      case Cat(values) =>
        FillOneHot(input, cursor, p.toInt(token), |values|);
        next := cursor + |values|;
      case Num =>
        SpliceStep(input[..], cursor, [p.toFloat(token)], 0);
        input[cursor] := p.toFloat(token);
        next := cursor + 1;
    }
  }

  /** The buffer holds the scale flags of the first `i` columns and, after
      them, what it held before the walk. */
  predicate FlagsWritten(a: seq<int>, cols: seq<Column>, i: nat, before: seq<int>)
  {
    i <= |cols| && Width(cols, i) <= |before| && a == ScaleFlags(cols, i) + before[Width(cols, i)..]
  }

  /** One known column of the walk: writes its block at the cursor, which
      stands after the blocks of the columns before it, and advances the
      cursor past it. */
  method AdvanceFlags(shouldScale: array<int>, cols: seq<Column>, i: nat, cursor: nat, ghost before: seq<int>)
    returns (next: nat)
    requires i < FirstUnknown(cols) && Width(cols, FirstUnknown(cols)) <= shouldScale.Length == |before|
    requires cursor == Width(cols, i) && FlagsWritten(shouldScale[..], cols, i, before)
    modifies shouldScale
    ensures next == Width(cols, i + 1) <= shouldScale.Length
    ensures FlagsWritten(shouldScale[..], cols, i + 1, before)
  {
    ghost var done := ScaleFlags(cols, i);
    ghost var block := ColumnFlags(cols[i]);
    WidthMonotone(cols, i + 1, FirstUnknown(cols));
    next := WriteColumnFlags(shouldScale, cursor, cols[i]);
    SpliceExtend(done, before, block);
  }

  /** Writes the scale flags of one input column at `cursor` and returns
      the advanced cursor (one case of the scale-flag generator's switch). */
  method WriteColumnFlags(shouldScale: array<int>, cursor: nat, c: Column) returns (next: nat)
    requires !c.Unknown? && cursor + SlotCount(c) <= shouldScale.Length
    modifies shouldScale
    ensures next == cursor + SlotCount(c)
    ensures shouldScale[..] == Spliced(old(shouldScale[..]), cursor, ColumnFlags(c))
  {
    match c {
      case Meta =>
        next := cursor;
        SpliceEmpty(shouldScale[..], cursor);
      case Cat(values) =>
        FillZeros(shouldScale, cursor, |values|);
        next := cursor + |values|;
      case Num =>
        SpliceStep(shouldScale[..], cursor, [1], 0);
        shouldScale[cursor] := 1;
        next := cursor + 1;
    }
  }

  /** Writes the one-hot block of code `v` into `n` slots from `start` on
      (the inner loop of the row encoder). */
  method FillOneHot(a: array<real>, start: nat, v: int, n: nat)
    requires start + n <= a.Length
    modifies a
    ensures a[..] == Spliced(old(a[..]), start, OneHot(v, n))
  {
    ghost var orig := a[..];
    SpliceEmpty(orig, start);
    var j := 0;
    while j < n
      invariant j <= n
      invariant a[..] == Spliced(orig, start, OneHot(v, n)[..j])
    {
      SpliceStep(orig, start, OneHot(v, n), j);
      a[start + j] := if v == j + 1 then 1.0 else 0.0;
      j := j + 1;
    }
    assert OneHot(v, n)[..n] == OneHot(v, n);
  }

  /** Writes flag 0 into `n` slots from `start` on (the inner loop of the
      scale-flag generator). */
  method FillZeros(a: array<int>, start: nat, n: nat)
    requires start + n <= a.Length
    modifies a
    ensures a[..] == Spliced(old(a[..]), start, Zeros(n))
  {
    ghost var orig := a[..];
    SpliceEmpty(orig, start);
    var j := 0;
    while j < n
      invariant j <= n
      invariant a[..] == Spliced(orig, start, Zeros(n)[..j])
    {
      SpliceStep(orig, start, Zeros(n), j);
      a[start + j] := 0;
      j := j + 1;
    }
    assert Zeros(n)[..n] == Zeros(n);
  }

  /** The buffer `orig` with the slots from `at` on overwritten by `block`. */
  function Spliced<T>(orig: seq<T>, at: nat, block: seq<T>): (r: seq<T>)
    requires at + |block| <= |orig|
    ensures |r| == |orig|
  {
    orig[..at] + block + orig[at + |block|..]
  }

  lemma SpliceEmpty<T>(orig: seq<T>, at: nat)
    requires at <= |orig|
    ensures Spliced(orig, at, []) == orig
  {
    assert orig[..at] + orig[at..] == orig;
  }

  /** Writing the next slot of a block extends the spliced part by one. */
  lemma SpliceStep<T>(orig: seq<T>, at: nat, block: seq<T>, j: nat)
    requires j < |block| && at + |block| <= |orig|
    ensures Spliced(orig, at, block[..j])[at + j := block[j]] == Spliced(orig, at, block[..j + 1])
  {
    var lhs := Spliced(orig, at, block[..j])[at + j := block[j]];
    var rhs := Spliced(orig, at, block[..j + 1]);
    forall t | 0 <= t < |orig| ensures lhs[t] == rhs[t] {
      if t < at {
      } else if t < at + j {
        assert lhs[t] == block[..j][t - at] == block[t - at];
      } else if t == at + j {
      } else {
        assert rhs[t] == orig[at + j + 1..][t - at - j - 1];
      }
    }
  }

  /** Splicing a block right after a written prefix `done` of a buffer that
      otherwise still holds `orig` extends the written prefix by `block`. */
  lemma SpliceExtend<T>(done: seq<T>, orig: seq<T>, block: seq<T>)
    requires |done| + |block| <= |orig|
    ensures Spliced(done + orig[|done|..], |done|, block) == (done + block) + orig[|done| + |block|..]
  {
    var x := done + orig[|done|..];
    assert x[..|done|] == done;
    assert x[|done| + |block|..] == orig[|done| + |block|..];
  }

  /** A training session over the worked example: two rows, first without
      and then with a left-out row. */
  method ExampleSession(p: Parsers)
    requires p.toInt("2") == 2
  {
    var schema := [Num, Cat(["red", "green", "blue"]), Meta, Num];
    var d := new Dataset(schema, [["30", "2", "x", "0.75"], ["41", "3", "y", "0.5"]]);
    WorkedExample(p);
    assert InputColumns(schema) == [Num, Cat(["red", "green", "blue"]), Meta];
    FirstUnknownAllKnown(InputColumns(schema));

    var numData, numInput, numOutput := d.GetTrainingDimensions();
    assert numData == 2 && numInput == 4 && numOutput == 1;

    var input := new real[numInput];
    var output := new real[numOutput];
    var status := d.GetTrainingRow(0, input, output, p);
    assert status == Ok;
    assert input[..] == [p.toFloat("30"), 0.0, 1.0, 0.0];
    assert output[0] == p.toFloat("0.75");

    var flags := new int[numInput];
    status := d.GetScaleFlags(flags);
    assert status == Ok && flags[..] == [1, 0, 0, 0];

    // Leaving row 0 out: logical row 0 reads physical row 1, and logical
    // row 1 passes the bound check but has no physical row.
    d.LeaveItemOut(Some(0));
    numData, numInput, numOutput := d.GetTrainingDimensions();
    assert numData == 1;
    status := d.GetTrainingRow(0, input, output, p);
    assert status == Ok && output[0] == p.toFloat("0.5");
    status := d.GetTrainingRow(1, input, output, p);
    assert status == Err(PhysicalRowOutOfRange);
  }
}
