/** Leave-one-out row selection: the optional excluded physical row and the
    remap from logical training rows to physical table rows. */
module LeaveOneOut {

  datatype Option<T> = None | Some(value: T)

  /** The physical row of logical row `r`: rows at or after the excluded
      one move up by one; with no exclusion the remap is the identity. */
  function Translate(leave: Option<nat>, r: nat): (t: nat)
    ensures leave.None? ==> t == r
    ensures leave.Some? ==> t != leave.value
    ensures leave.Some? ==> (t == r <==> r < leave.value)
    ensures t == r || t == r + 1
  {
    match leave
    case None => r
    case Some(e) => if r >= e then r + 1 else r
  }

  /** The logical row of physical row `t` when `e` is excluded: the inverse
      of the remap on every row but the excluded one. */
  function Untranslate(e: nat, t: nat): (r: nat)
    requires t != e
    ensures Translate(Some(e), r) == t
  {
    if t < e then t else t - 1
  }

  /** The remap is injective and `Untranslate` undoes it. */
  lemma TranslateInjective(e: nat, r1: nat, r2: nat)
    ensures Untranslate(e, Translate(Some(e), r1)) == r1
    ensures Translate(Some(e), r1) == Translate(Some(e), r2) ==> r1 == r2
  {
  }

  /** Physical rows `0 .. n - 1` in ascending order, with `e` removed. */
  function RowsWithout(n: nat, e: nat): (rows: seq<nat>)
    requires e < n
    ensures |rows| == n - 1
    ensures forall i :: 0 <= i < |rows| ==> rows[i] < n && rows[i] != e
  {
    seq(e, i => i) + seq(n - 1 - e, i => i + e + 1)
  }

  /** Strictly ascending, hence free of repetitions. */
  predicate Ascending(rows: seq<nat>)
  {
    forall i, j :: 0 <= i < j < |rows| ==> rows[i] < rows[j]
  }

  /** Every row below `n` except `e` occurs in `rows`. */
  predicate CoversAllBut(rows: seq<nat>, n: nat, e: nat)
  {
    forall t :: 0 <= t < n && t != e ==> t in rows
  }

  /** The physical rows visited by logical rows `0 .. n - 1`. */
  function Visited(leave: Option<nat>, n: nat): (rows: seq<nat>)
    ensures |rows| == n
  {
    seq(n, r requires 0 <= r => Translate(leave, r))
  }

  /** Leave-one-out bijection: over the `N - 1` logical rows of a table of
      `N` rows with row `e` excluded, the remap visits every physical row
      except `e`, each exactly once, in ascending order. */
  lemma {:induction false} LeaveOneOutBijection(n: nat, e: nat)
    requires e < n
    ensures Visited(Some(e), n - 1) == RowsWithout(n, e)
    ensures Ascending(Visited(Some(e), n - 1))
    ensures CoversAllBut(Visited(Some(e), n - 1), n, e)
  {
    var v := Visited(Some(e), n - 1);
    var w := RowsWithout(n, e);
    forall i | 0 <= i < n - 1 ensures v[i] == w[i] {
      if i < e {
        assert w[i] == seq(e, k => k)[i];
      } else {
        assert w[i] == seq(n - 1 - e, k => k + e + 1)[i - e];
      }
    }
    forall t | 0 <= t < n && t != e ensures t in v {
      assert v[Untranslate(e, t)] == t;
    }
  }

  /** Without an exclusion the logical rows are the physical rows. */
  lemma VisitedIdentity(n: nat)
    ensures forall r :: 0 <= r < n ==> Visited(None, n)[r] == r
  {
  }

  /** The row bound is checked before the remap: with an exclusion inside
      the table, the last row index that passes the bound maps one
      past the end of the table. */
  lemma LastRowOverruns(n: nat, e: nat)
    requires 1 <= n && e < n
    ensures Translate(Some(e), n - 1) == n
  {
  }

  /** An excluded row at or past the end of an `n`-row table excludes
      nothing, yet the row count still drops by one: the logical rows visit
      physical rows `0 .. n - 2` unchanged, and row `n - 1` drops out.
      The last row index the bound check accepts then stays in the table. */
  lemma ExclusionPastTable(n: nat, e: nat)
    requires 1 <= n <= e
    ensures Visited(Some(e), n - 1) == Visited(None, n - 1)
    ensures Translate(Some(e), n - 1) == n - 1
    ensures n - 1 !in Visited(Some(e), n - 1)
  {
    var rows := Visited(Some(e), n - 1);
    forall i | 0 <= i < n - 1
      ensures rows[i] == i == Visited(None, n - 1)[i]
    {
    }
  }
}
