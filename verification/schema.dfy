/** The column schema of a dataset and the input width derived from it.
    Each column's "Type" entry is resolved into a closed variant; the last
    column of a schema is the training target, the others are inputs. */
module Schema {

  /** A column descriptor. `Cat` carries the ordered category labels (its
      "Values" list); `Unknown` keeps a type code that no traversal handles. */
  datatype Column = Num | Cat(values: seq<string>) | Meta | Unknown(code: int)

  /** The number of values of a 32-bit `unsigned int`. */
  const UINT_RANGE: int := 0x1_0000_0000

  /** Conversion of an integer to `unsigned int`: reduction modulo 2^32. */
  function Wrap32(x: int): (r: nat)
    ensures r < UINT_RANGE
    ensures 0 <= x < UINT_RANGE ==> r == x
    ensures x == -1 ==> r == UINT_RANGE - 1
  {
    x % UINT_RANGE
  }

  /** Adding to a wrapped counter and wrapping again is wrapping the exact sum. */
  lemma Wrap32Add(a: int, b: int)
    ensures Wrap32(Wrap32(a) + b) == Wrap32(a + b)
  {
    var q := a / UINT_RANGE;
    assert a == q * UINT_RANGE + Wrap32(a);
    assert Wrap32(a) + b == (a + b) - q * UINT_RANGE;
    ModShift(a + b, q);
  }

  lemma ModShift(x: int, q: int)
    ensures (x - q * UINT_RANGE) % UINT_RANGE == x % UINT_RANGE
  {
    var y := x - q * UINT_RANGE;
    var r := x % UINT_RANGE;
    var d := x / UINT_RANGE;
    assert x == d * UINT_RANGE + r;
    assert y == (d - q) * UINT_RANGE + r;
    assert 0 <= r < UINT_RANGE;
  }

  /** Number of input slots a column occupies in an encoded row. */
  function SlotCount(c: Column): nat
  {
    match c
    case Num => 1
    case Cat(values) => |values|
    case Meta => 0
    case Unknown(_) => 0
  }

  /** None of the first `n` columns has a type the traversals reject. */
  predicate KnownUpTo(cols: seq<Column>, n: nat)
    requires n <= |cols|
  {
    forall i :: 0 <= i < n ==> !cols[i].Unknown?
  }

  /** No column of `cols` has a type the traversals reject. */
  predicate AllKnown(cols: seq<Column>)
  {
    KnownUpTo(cols, |cols|)
  }

  /** Total number of input slots of the first `n` columns, column by column. */
  function Width(cols: seq<Column>, n: nat): nat
    requires n <= |cols|
  {
    if n == 0 then 0 else Width(cols, n - 1) + SlotCount(cols[n - 1])
  }

  /** The width of a prefix never exceeds the width of a longer prefix. */
  lemma {:induction false} WidthMonotone(cols: seq<Column>, a: nat, b: nat)
    requires a <= b <= |cols|
    ensures Width(cols, a) <= Width(cols, b)
    decreases b - a
  {
    if a < b {
      WidthMonotone(cols, a, b - 1);
    }
  }

  /** The columns a row traversal visits: every column except the last
      (the target). An empty schema has none. */
  function InputColumns(schema: seq<Column>): (cols: seq<Column>)
    ensures |schema| >= 1 ==> |cols| == |schema| - 1
    ensures |schema| == 0 ==> cols == []
    ensures forall i :: 0 <= i < |cols| ==> cols[i] == schema[i]
  {
    if |schema| == 0 then [] else schema[..|schema| - 1]
  }

  /** Index of the first column with an unhandled type, or `|cols|` when
      there is none: where a traversal stops. */
  function FirstUnknown(cols: seq<Column>): (k: nat)
    ensures k <= |cols|
    ensures KnownUpTo(cols, k)
    ensures k < |cols| ==> cols[k].Unknown?
  {
    if |cols| == 0 then 0
    else if cols[0].Unknown? then 0
    else FirstUnknown(cols[1..]) + 1
  }

  /** A traversal that has not yet passed the first unknown column and
      meets an unknown column has reached it. */
  lemma StopsAtFirstUnknown(cols: seq<Column>, i: nat)
    requires i <= FirstUnknown(cols) && i < |cols| && cols[i].Unknown?
    ensures i == FirstUnknown(cols)
  {
  }

  /** A traversal runs to the end exactly when every column is known. */
  lemma FirstUnknownAllKnown(cols: seq<Column>)
    ensures AllKnown(cols) <==> FirstUnknown(cols) == |cols|
  {
  }

  /** How the dimension count changes per column: a Meta column removes
      one, a Categorical column adds `|values| - 1`, the rest add nothing. */
  function Adjust(c: Column): int
  {
    match c
    case Meta => -1
    case Cat(values) => |values| - 1
    case Num => 0
    case Unknown(_) => 0
  }

  /** The adjustments of the first `n` columns, summed. */
  function Adjustment(cols: seq<Column>, n: nat): int
    requires n <= |cols|
  {
    if n == 0 then 0 else Adjustment(cols, n - 1) + Adjust(cols[n - 1])
  }

  /** The input count the dimension query derives, before conversion to
      `unsigned int`: `|schema| - 1` adjusted over EVERY column, the target
      column included. */
  function DimInput(schema: seq<Column>): int
  {
    |schema| - 1 + Adjustment(schema, |schema|)
  }

  /** The number of unknown columns among the first `n`. */
  function CountUnknown(cols: seq<Column>, n: nat): nat
    requires n <= |cols|
  {
    if n == 0 then 0
    else CountUnknown(cols, n - 1) + (if cols[n - 1].Unknown? then 1 else 0)
  }

  /** Counting one per column and adjusting gives the slot width, except
      that each unknown column still counts one. */
  lemma {:induction false} AdjustmentWidth(cols: seq<Column>, n: nat)
    requires n <= |cols|
    ensures n + Adjustment(cols, n) == Width(cols, n) + CountUnknown(cols, n)
  {
    if n > 0 {
      AdjustmentWidth(cols, n - 1);
    }
  }

  /** The prefix functions look only at the columns they cover. */
  lemma {:induction false} PrefixAgree(a: seq<Column>, b: seq<Column>, n: nat)
    requires n <= |a| && n <= |b|
    requires forall i :: 0 <= i < n ==> a[i] == b[i]
    ensures Adjustment(a, n) == Adjustment(b, n)
    ensures Width(a, n) == Width(b, n)
    ensures CountUnknown(a, n) == CountUnknown(b, n)
  {
    if n > 0 {
      PrefixAgree(a, b, n - 1);
    }
  }

  /** The dimension formula equals the width of the input columns, plus one
      per unknown input column, plus the shift of the target column that the
      dimension loop also visits. */
  lemma DimInputWidth(schema: seq<Column>)
    requires |schema| >= 1
    ensures var cols := InputColumns(schema);
      DimInput(schema) == Width(cols, |cols|) + CountUnknown(cols, |cols|) + Adjust(schema[|schema| - 1])
  {
    var cols := InputColumns(schema);
    PrefixAgree(schema, cols, |cols|);
    AdjustmentWidth(cols, |cols|);
  }

  /** With known input columns the dimension formula is the input width
      for a Numeric target and for a target of unhandled type; a Meta
      target makes it one less and a Categorical target `|values| - 1`
      more. */
  lemma DimInputByTarget(schema: seq<Column>)
    requires |schema| >= 1 && AllKnown(InputColumns(schema))
    ensures var cols := InputColumns(schema); var target := schema[|schema| - 1];
      && (target.Num? ==> DimInput(schema) == Width(cols, |cols|))
      && (target.Unknown? ==> DimInput(schema) == Width(cols, |cols|))
      && (target.Meta? ==> DimInput(schema) == Width(cols, |cols|) - 1)
      && (target.Cat? ==> DimInput(schema) == Width(cols, |cols|) + |target.values| - 1)
  {
    var cols := InputColumns(schema);
    DimInputWidth(schema);
    NoUnknownCount(cols, |cols|);
  }

  /** With known input columns the dimension formula is the input width
      exactly when the target's adjustment is 0: a Numeric target, a
      Categorical target with one value, or a target of unhandled type. */
  lemma DimInputMatchesWidth(schema: seq<Column>)
    requires |schema| >= 1 && AllKnown(InputColumns(schema))
    ensures DimInput(schema) == Width(InputColumns(schema), |schema| - 1)
      <==> Adjust(schema[|schema| - 1]) == 0
    ensures var target := schema[|schema| - 1];
      Adjust(target) == 0 <==>
        (target.Num? || target.Unknown? || (target.Cat? && |target.values| == 1))
  {
    var cols := InputColumns(schema);
    DimInputWidth(schema);
    NoUnknownCount(cols, |cols|);
  }

  /** With handled input columns and a Meta target, or a Categorical
      target without values, the input count falls short of the slots the
      traversals write: a buffer sized from it is one slot too small. */
  lemma DimInputUndersized(schema: seq<Column>)
    requires |schema| >= 1 && AllKnown(InputColumns(schema))
    requires schema[|schema| - 1].Meta? || schema[|schema| - 1] == Cat([])
    requires Width(InputColumns(schema), |schema| - 1) >= 1
    ensures Wrap32(DimInput(schema)) < Width(InputColumns(schema), |schema| - 1)
  {
    DimInputByTarget(schema);
  }

  /** Known columns contribute no unknown count. */
  lemma {:induction false} NoUnknownCount(cols: seq<Column>, n: nat)
    requires n <= |cols| && KnownUpTo(cols, n)
    ensures CountUnknown(cols, n) == 0
  {
    if n > 0 {
      NoUnknownCount(cols, n - 1);
    }
  }
}
