/** What the two column traversals produce: the encoded input vector of a
    row and the scale flags of a schema, slot by slot. Both are defined by
    one column-to-block expansion, and the lemmas below locate each
    column's block in both. */
module Encoding {
  import opened Schema

  /** The token conversions the encoder relies on (`QVariant::toInt` and
      `QVariant::toFloat`). They are external; a malformed token converts to
      whatever these functions say (0 for the source's converters). */
  datatype Parsers = Parsers(toInt: string -> int, toFloat: string -> real)

  /** One-hot block of `n` slots for the 1-based category code `v`. */
  function OneHot(v: int, n: nat): (r: seq<real>)
    ensures |r| == n
  {
    seq(n, j => if v == j + 1 then 1.0 else 0.0)
  }

  /** Number of slots holding 1.0. */
  function CountOnes(s: seq<real>): nat
  {
    if |s| == 0 then 0 else CountOnes(s[..|s| - 1]) + (if s[|s| - 1] == 1.0 then 1 else 0)
  }

  /** One-hot blocks light at most one slot: exactly one (slot `v - 1`) for
      an in-range code `1 <= v <= n`, none for any other code, 0 included.
      Every slot holds 0.0 or 1.0. */
  lemma {:induction false} OneHotExclusive(v: int, n: nat)
    ensures CountOnes(OneHot(v, n)) == if 1 <= v <= n then 1 else 0
    ensures 1 <= v <= n ==> OneHot(v, n)[v - 1] == 1.0
    ensures forall j :: 0 <= j < n ==> (OneHot(v, n)[j] == 1.0 <==> v == j + 1)
    ensures forall j :: 0 <= j < n ==> OneHot(v, n)[j] == 0.0 || OneHot(v, n)[j] == 1.0
    ensures !(1 <= v <= n) ==> forall j :: 0 <= j < n ==> OneHot(v, n)[j] == 0.0
  {
    if n > 0 {
      OneHotExclusive(v, n - 1);
      assert OneHot(v, n)[..n - 1] == OneHot(v, n - 1);
    }
  }

  /** The slots of one column in an encoded row. An unknown column has
      none: the traversals stop before it (see `FirstUnknown`). */
  function EncodeColumn(c: Column, token: string, p: Parsers): (r: seq<real>)
    ensures |r| == SlotCount(c)
  {
    match c
    case Num => [p.toFloat(token)]
    case Cat(values) => OneHot(p.toInt(token), |values|)
    case Meta => []
    case Unknown(_) => []
  }

  /** The encoded input vector of the row `fields` over the first `n`
      columns of `cols`: their blocks, in column order. */
  function EncodeInputs(cols: seq<Column>, n: nat, fields: seq<string>, p: Parsers): (r: seq<real>)
    requires n <= |cols| <= |fields|
    ensures |r| == Width(cols, n)
  {
    if n == 0 then []
    else EncodeInputs(cols, n - 1, fields, p) + EncodeColumn(cols[n - 1], fields[n - 1], p)
  }

  /** `n` zero flags. */
  function Zeros(n: nat): (r: seq<int>)
    ensures |r| == n
  {
    seq(n, _ => 0)
  }

  /** The scale flags of one column: 0 for each one-hot slot, 1 for a
      numeric slot, none for a Meta (or unknown) column. */
  function ColumnFlags(c: Column): (r: seq<int>)
    ensures |r| == SlotCount(c)
  {
    match c
    case Num => [1]
    case Cat(values) => Zeros(|values|)
    case Meta => []
    case Unknown(_) => []
  }

  /** The scale flags of the first `n` columns of `cols`, in column order. */
  function ScaleFlags(cols: seq<Column>, n: nat): (r: seq<int>)
    requires n <= |cols|
    ensures |r| == Width(cols, n)
  {
    if n == 0 then [] else ScaleFlags(cols, n - 1) + ColumnFlags(cols[n - 1])
  }

  /** A Meta column writes nothing and does not advance the cursor: the
      encoded row, the scale flags and the width are those of the columns
      before it. */
  lemma MetaSkipped(cols: seq<Column>, fields: seq<string>, p: Parsers, i: nat)
    requires i < |cols| <= |fields| && cols[i].Meta?
    ensures Width(cols, i + 1) == Width(cols, i)
    ensures EncodeInputs(cols, i + 1, fields, p) == EncodeInputs(cols, i, fields, p)
    ensures ScaleFlags(cols, i + 1) == ScaleFlags(cols, i)
  {
    assert EncodeColumn(cols[i], fields[i], p) == [] && ColumnFlags(cols[i]) == [];
  }

  /** The column `ci` among the first `n` and the offset `j` within that
      column's block that slot `s` belongs to. Only columns with slots own
      a slot: never a Meta (or unknown) column. */
  function Origin(cols: seq<Column>, n: nat, s: nat): (o: (nat, nat))
    requires n <= |cols| && s < Width(cols, n)
    ensures o.0 < n && o.1 < SlotCount(cols[o.0])
    ensures Width(cols, o.0) + o.1 == s
    ensures cols[o.0].Num? || cols[o.0].Cat?
  {
    if s < Width(cols, n - 1) then Origin(cols, n - 1, s)
    else (n - 1, s - Width(cols, n - 1))
  }

  /** Blocks do not overlap: two column slots at the same index are the
      same slot of the same column. */
  lemma SlotOwnerUnique(cols: seq<Column>, c1: nat, j1: nat, c2: nat, j2: nat)
    requires c1 < |cols| && j1 < SlotCount(cols[c1])
    requires c2 < |cols| && j2 < SlotCount(cols[c2])
    requires Width(cols, c1) + j1 == Width(cols, c2) + j2
    ensures c1 == c2 && j1 == j2
  {
    if c1 < c2 {
      WidthMonotone(cols, c1 + 1, c2);
    } else if c2 < c1 {
      WidthMonotone(cols, c2 + 1, c1);
    }
  }

  /** The origin of slot `j` of column `ci` is that column and offset, so
      every slot belongs to exactly one column. */
  lemma OriginUnique(cols: seq<Column>, n: nat, ci: nat, j: nat)
    requires ci < n <= |cols| && j < SlotCount(cols[ci])
    ensures Width(cols, ci) + j < Width(cols, n)
    ensures Origin(cols, n, Width(cols, ci) + j) == (ci, j)
  {
    WidthMonotone(cols, ci + 1, n);
    var o := Origin(cols, n, Width(cols, ci) + j);
    SlotOwnerUnique(cols, o.0, o.1, ci, j);
  }

  lemma PrefixOfAppend<T>(x: seq<T>, y: seq<T>, m: nat)
    requires m <= |x|
    ensures (x + y)[..m] == x[..m]
  {
  }

  /** Encoding fewer columns gives a prefix of the encoding. */
  lemma {:induction false} EncodePrefix(cols: seq<Column>, fields: seq<string>, p: Parsers, a: nat, b: nat)
    requires a <= b <= |cols| <= |fields|
    ensures Width(cols, a) <= Width(cols, b)
    ensures EncodeInputs(cols, b, fields, p)[..Width(cols, a)] == EncodeInputs(cols, a, fields, p)
    decreases b - a
  {
    if a < b {
      EncodePrefix(cols, fields, p, a, b - 1);
      PrefixOfAppend(EncodeInputs(cols, b - 1, fields, p), EncodeColumn(cols[b - 1], fields[b - 1], p), Width(cols, a));
    }
  }

  /** Flagging fewer columns gives a prefix of the flags. */
  lemma {:induction false} FlagPrefix(cols: seq<Column>, a: nat, b: nat)
    requires a <= b <= |cols|
    ensures Width(cols, a) <= Width(cols, b)
    ensures ScaleFlags(cols, b)[..Width(cols, a)] == ScaleFlags(cols, a)
    decreases b - a
  {
    if a < b {
      FlagPrefix(cols, a, b - 1);
      PrefixOfAppend(ScaleFlags(cols, b - 1), ColumnFlags(cols[b - 1]), Width(cols, a));
    }
  }

  /** Slot `j` of the block of column `ci` sits at `Width(cols, ci) + j`
      of the encoding of any `n > ci` columns. */
  lemma {:induction false} RowSlot(cols: seq<Column>, n: nat, fields: seq<string>, p: Parsers, ci: nat, j: nat)
    requires ci < n <= |cols| <= |fields| && j < SlotCount(cols[ci])
    ensures Width(cols, ci) + j < Width(cols, n)
    ensures EncodeInputs(cols, n, fields, p)[Width(cols, ci) + j] == EncodeColumn(cols[ci], fields[ci], p)[j]
  {
    if ci < n - 1 {
      RowSlot(cols, n - 1, fields, p, ci, j);
    }
  }

  /** Slot `j` of the flags of column `ci` sits at `Width(cols, ci) + j` of
      the scale flags of any `n > ci` columns. */
  lemma {:induction false} FlagSlot(cols: seq<Column>, n: nat, ci: nat, j: nat)
    requires ci < n <= |cols| && j < SlotCount(cols[ci])
    ensures Width(cols, ci) + j < Width(cols, n)
    ensures ScaleFlags(cols, n)[Width(cols, ci) + j] == ColumnFlags(cols[ci])[j]
  {
    if ci < n - 1 {
      FlagSlot(cols, n - 1, ci, j);
    }
  }

  /** The same column produces the same slot in the encoded row and in the
      scale flags: slot `j` of column `ci` is, at `Width(cols, ci) + j` of
      both, a one-hot slot of a Categorical column (value 1.0 exactly for
      the parsed code `j + 1`, flag 0) or the slot of a Numeric column (its
      parsed value, flag 1). By `Origin`, every slot of the input width is
      such a slot. */
  lemma SlotsAligned(cols: seq<Column>, fields: seq<string>, p: Parsers, ci: nat, j: nat)
    requires ci < |cols| <= |fields| && j < SlotCount(cols[ci])
    ensures var s := Width(cols, ci) + j;
      var row := EncodeInputs(cols, |cols|, fields, p);
      var flags := ScaleFlags(cols, |cols|);
      && s < |row| == |flags|
      && (cols[ci].Cat? ==> flags[s] == 0 && (row[s] == 1.0 <==> p.toInt(fields[ci]) == j + 1))
      && (cols[ci].Num? ==> flags[s] == 1 && j == 0 && row[s] == p.toFloat(fields[ci]))
  {
    RowSlot(cols, |cols|, fields, p, ci, j);
    FlagSlot(cols, |cols|, ci, j);
  }

  /** Dimension agreement: with known input columns and a numeric target,
      the dimension formula, the encoded row and the scale flags all have
      the same width. */
  lemma WidthAgreement(schema: seq<Column>, fields: seq<string>, p: Parsers)
    requires |schema| >= 1 && AllKnown(InputColumns(schema)) && schema[|schema| - 1].Num?
    requires |fields| >= |schema|
    ensures var cols := InputColumns(schema);
      && DimInput(schema) == |EncodeInputs(cols, |cols|, fields, p)|
      && DimInput(schema) == |ScaleFlags(cols, |cols|)|
  {
    DimInputByTarget(schema);
  }

  /** The schema `[Num "age", Cat "color" (red, green, blue), Meta "id",
      Num "score"]` has four inputs; the row `30, 2, x, 0.75` encodes to
      `[30, 0, 1, 0]` with scale flags `[1, 0, 0, 0]`. */
  lemma WorkedExample(p: Parsers)
    requires p.toInt("2") == 2
    ensures var schema := [Num, Cat(["red", "green", "blue"]), Meta, Num];
      var cols := InputColumns(schema);
      && DimInput(schema) == 4
      && EncodeInputs(cols, 3, ["30", "2", "x", "0.75"], p) == [p.toFloat("30"), 0.0, 1.0, 0.0]
      && ScaleFlags(cols, 3) == [1, 0, 0, 0]
  {
    var schema := [Num, Cat(["red", "green", "blue"]), Meta, Num];
    var cols := InputColumns(schema);
    assert cols == [Num, Cat(["red", "green", "blue"]), Meta];
    var fields := ["30", "2", "x", "0.75"];
    assert OneHot(2, 3) == [0.0, 1.0, 0.0];
    assert Zeros(3) == [0, 0, 0];
    assert EncodeInputs(cols, 1, fields, p) == [p.toFloat("30")];
    assert EncodeInputs(cols, 2, fields, p) == [p.toFloat("30"), 0.0, 1.0, 0.0];
    assert ScaleFlags(cols, 2) == [1, 0, 0, 0];
    DimInputByTarget(schema);
  }
}
