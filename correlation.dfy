/**
 * The strongest-correlation rule shared by the insight engine and the app:
 * take the pairwise correlation matrix of some numeric columns, replace each
 * coefficient by its absolute value, set the diagonal to zero, list the
 * entries with `unstack()` and report the label pair of a largest one
 * (`sort_values(ascending=False).idxmax()`).
 *
 * Pearson correlation itself is floating-point numerics and is not modelled:
 * it is a parameter `pearson(k, l)` giving the coefficient of table columns
 * k and l, `None` where pandas yields NaN (a constant column, too few
 * overlapping rows). Pandas correlates each pair on the rows where both are
 * present, so the matrix of any column subset is this function restricted.
 */
module Correlation {
  import opened Wrappers

  /** A matrix entry as `unstack()` labels it: (column position, row position). */
  type Pair = (nat, nat)

  type Matrix = seq<seq<Option<real>>>

  predicate Square(m: Matrix, n: nat) {
    |m| == n && forall i :: 0 <= i < n ==> |m[i]| == n
  }

  function AbsValue(x: Option<real>): (r: Option<real>)
    ensures r.Some? <==> x.Some?
    ensures r.Some? ==> r.value >= 0.0 && (r.value == x.value || r.value == -x.value)
  {
    match x
    case None => None
    case Some(v) => Some(if v < 0.0 then -v else v)
  }

  /** `df[cols].corr().abs()`. */
  function AbsCorrelation(pearson: (nat, nat) -> Option<real>, cols: seq<nat>): (m: Matrix)
    ensures Square(m, |cols|)
    ensures forall i, j :: 0 <= i < |cols| && 0 <= j < |cols| ==>
              m[i][j] == AbsValue(pearson(cols[i], cols[j]))
  {
    seq(|cols|, i requires 0 <= i < |cols| =>
      seq(|cols|, j requires 0 <= j < |cols| => AbsValue(pearson(cols[i], cols[j]))))
  }

  /** The matrix with its diagonal set to zero and everything else kept:
      the state `corr.loc[i, i] = 0` for every label i leaves behind. */
  function DiagonalZeroed(m: Matrix, n: nat): (z: Matrix)
    requires Square(m, n)
    ensures Square(z, n)
    ensures forall i, j :: 0 <= i < n && 0 <= j < n ==>
              z[i][j] == if i == j then Some(0.0) else m[i][j]
  {
    seq(n, i requires 0 <= i < n =>
      seq(n, j requires 0 <= j < n => if i == j then Some(0.0) else m[i][j]))
  }

  /** The matrix the selection runs on: absolute coefficients, zero diagonal. */
  function Prepared(pearson: (nat, nat) -> Option<real>, cols: seq<nat>): (z: Matrix)
    ensures Square(z, |cols|)
  {
    DiagonalZeroed(AbsCorrelation(pearson, cols), |cols|)
  }

  /** An entry (a, b) holding a largest defined value of the matrix. */
  predicate IsStrongest(m: Matrix, n: nat, p: Pair)
    requires Square(m, n)
  {
    && p.0 < n && p.1 < n && m[p.1][p.0].Some?
    && forall a, b :: 0 <= a < n && 0 <= b < n && m[b][a].Some? ==> m[b][a].value <= m[p.1][p.0].value
  }

  // ---------------------------------------------------------------------------
  // unstack() and idxmax()
  // ---------------------------------------------------------------------------

  /** The entries of the first `a` columns of m, column by column, each column
      top to bottom, as `DataFrame.unstack()` lists them. */
  function Unstack(m: Matrix, n: nat, a: nat): (r: seq<(Pair, Option<real>)>)
    requires Square(m, n) && a <= n
    ensures forall k :: 0 <= k < |r| ==> r[k].0.0 < a && r[k].0.1 < n && r[k].1 == m[r[k].0.1][r[k].0.0]
  {
    if a == 0 then []
    else Unstack(m, n, a - 1) + seq(n, b requires 0 <= b < n => ((a - 1, b), m[b][a - 1]))
  }

  /** Every entry of the first `a` columns is listed, under its labels. */
  lemma {:induction false} UnstackListsEntry(m: Matrix, n: nat, a: nat, c: nat, b: nat)
    requires Square(m, n) && c < a <= n && b < n
    ensures ((c, b), m[b][c]) in Unstack(m, n, a)
  {
    var column := seq(n, b requires 0 <= b < n => ((a - 1, b), m[b][a - 1]));
    assert Unstack(m, n, a) == Unstack(m, n, a - 1) + column;
    if c < a - 1 {
      UnstackListsEntry(m, n, a - 1, c, b);
    } else {
      assert column[b] == ((c, b), m[b][c]);
    }
  }

  /** The position of a largest defined value in a labelled series, skipping
      undefined ones (`idxmax` skips NaN); the first such position among equal
      values, though only maximality is claimed for pandas. */
  function Best(es: seq<(Pair, Option<real>)>): (r: Option<nat>)
    ensures r.None? <==> forall k :: 0 <= k < |es| ==> es[k].1.None?
    ensures r.Some? ==> r.value < |es| && es[r.value].1.Some?
    ensures r.Some? ==> forall k :: 0 <= k < |es| && es[k].1.Some? ==> es[k].1.value <= es[r.value].1.value
  {
    if es == [] then None
    else
      var init, last := es[..|es| - 1], es[|es| - 1];
      assert forall k :: 0 <= k < |init| ==> init[k] == es[k];
      var prev := Best(init);
      if last.1.None? then prev
      else if prev.None? || es[prev.value].1.value < last.1.value then Some(|es| - 1)
      else prev
  }

  /** `m.unstack().sort_values(ascending=False).idxmax()`: the label pair of a
      largest entry, or nothing when every entry is undefined. */
  function Strongest(m: Matrix, n: nat): (r: Option<Pair>)
    requires Square(m, n)
    ensures r.Some? ==> r.value.0 < n && r.value.1 < n
    ensures r.None? <==> forall a, b :: 0 <= a < n && 0 <= b < n ==> m[b][a].None?
    ensures r.Some? ==> IsStrongest(m, n, r.value)
  {
    var es := Unstack(m, n, n);
    match Best(es)
    case None =>
      assert forall a, b :: 0 <= a < n && 0 <= b < n ==> m[b][a].None? by {
        forall a, b | 0 <= a < n && 0 <= b < n ensures m[b][a].None? {
          UnstackListsEntry(m, n, n, a, b);
        }
      }
      None
    case Some(k) =>
      assert forall a, b :: 0 <= a < n && 0 <= b < n && m[b][a].Some? ==> m[b][a].value <= es[k].1.value by {
        forall a, b | 0 <= a < n && 0 <= b < n && m[b][a].Some? ensures m[b][a].value <= es[k].1.value {
          UnstackListsEntry(m, n, n, a, b);
        }
      }
      Some(es[k].0)
  }

  /** The strongest pair of the columns `cols`, as positions in `cols`. */
  function StrongestOf(pearson: (nat, nat) -> Option<real>, cols: seq<nat>): (r: Option<Pair>)
    ensures r.Some? <==> |cols| > 0
    ensures r.Some? ==> r.value.0 < |cols| && r.value.1 < |cols|
  {
    if |cols| > 0 then
      assert Prepared(pearson, cols)[0][0] == Some(0.0);
      Strongest(Prepared(pearson, cols), |cols|)
    else
      Strongest(Prepared(pearson, cols), |cols|)
  }

  // ---------------------------------------------------------------------------
  // What the selection guarantees
  // ---------------------------------------------------------------------------

  /** Once the diagonal is zero there is always a defined entry, so a pair is
      always reported (even when every coefficient is NaN), and its value is
      never negative. */
  lemma StrongestExists(pearson: (nat, nat) -> Option<real>, cols: seq<nat>)
    requires |cols| > 0
    ensures StrongestOf(pearson, cols).Some?
    ensures var p := StrongestOf(pearson, cols).value;
            Prepared(pearson, cols)[p.1][p.0].value >= 0.0
  {
    var m := Prepared(pearson, cols);
    assert m[0][0] == Some(0.0);
  }

  /** The reported pair is at least as strong as every off-diagonal pair of
      distinct columns: |pearson| there never exceeds the reported value. */
  lemma StrongestDominates(pearson: (nat, nat) -> Option<real>, cols: seq<nat>, i: nat, j: nat)
    requires i < |cols| && j < |cols| && i != j && pearson(cols[i], cols[j]).Some?
    ensures StrongestOf(pearson, cols).Some?
    ensures var p := StrongestOf(pearson, cols).value;
            AbsValue(pearson(cols[i], cols[j])).value <= Prepared(pearson, cols)[p.1][p.0].value
  {
    var m := Prepared(pearson, cols);
    assert m[i][j] == AbsValue(pearson(cols[i], cols[j]));
  }

  /** A column is never reported as correlated with itself while some pair of
      distinct columns has a non-zero coefficient. */
  lemma StrongestOffDiagonal(pearson: (nat, nat) -> Option<real>, cols: seq<nat>, i: nat, j: nat)
    requires i < |cols| && j < |cols| && i != j
    requires pearson(cols[i], cols[j]).Some? && pearson(cols[i], cols[j]).value != 0.0
    ensures StrongestOf(pearson, cols).Some?
    ensures StrongestOf(pearson, cols).value.0 != StrongestOf(pearson, cols).value.1
  {
    var m := Prepared(pearson, cols);
    assert m[i][j] == AbsValue(pearson(cols[i], cols[j]));
    assert m[i][j].value > 0.0;
    var p := StrongestOf(pearson, cols).value;
    assert m[p.1][p.0].value >= m[i][j].value;
  }

  // ---------------------------------------------------------------------------
  // The matrix as pandas holds it: updated in place
  // ---------------------------------------------------------------------------

  /** The contents of a 2-D array as a matrix value. */
  function Snapshot(m: array2<Option<real>>): (s: Matrix)
    reads m
    requires m.Length0 == m.Length1
    ensures Square(s, m.Length0)
    ensures forall i, j :: 0 <= i < m.Length0 && 0 <= j < m.Length1 ==> s[i][j] == m[i, j]
  {
    seq(m.Length0, i requires 0 <= i < m.Length0 reads m =>
      seq(m.Length1, j requires 0 <= j < m.Length1 reads m => m[i, j]))
  }

  lemma MatrixEquality(x: Matrix, y: Matrix, n: nat)
    requires Square(x, n) && Square(y, n)
    requires forall i, j :: 0 <= i < n && 0 <= j < n ==> x[i][j] == y[i][j]
    ensures x == y
  {
    forall i | 0 <= i < n ensures x[i] == y[i] {
      assert forall j :: 0 <= j < n ==> x[i][j] == y[i][j];
    }
  }

  /** `df[cols].corr().abs()` as a fresh 2-D array. */
  method AbsCorrelationArray(pearson: (nat, nat) -> Option<real>, cols: seq<nat>)
    returns (m: array2<Option<real>>)
    ensures fresh(m) && m.Length0 == |cols| && m.Length1 == |cols|
    ensures Snapshot(m) == AbsCorrelation(pearson, cols)
  {
    var n := |cols|;
    m := new Option<real>[n, n]((i: nat, j: nat) requires i < n && j < n => AbsValue(pearson(cols[i], cols[j])));
    MatrixEquality(Snapshot(m), AbsCorrelation(pearson, cols), n);
  }

  /** `for i in corr.index: corr.loc[i, i] = 0`: zero the diagonal in place,
      one label at a time, leaving every other entry alone. */
  method ZeroDiagonal(m: array2<Option<real>>)
    requires m.Length0 == m.Length1
    modifies m
    ensures forall i, j :: 0 <= i < m.Length0 && 0 <= j < m.Length1 ==>
              m[i, j] == if i == j then Some(0.0) else old(m[i, j])
    ensures Snapshot(m) == DiagonalZeroed(old(Snapshot(m)), m.Length0)
  {
    ghost var before := Snapshot(m);
    for i := 0 to m.Length0
      invariant forall a, b :: 0 <= a < m.Length0 && 0 <= b < m.Length1 ==>
                  m[a, b] == if a == b && a < i then Some(0.0) else old(m[a, b])
    {
      m[i, i] := Some(0.0);
    }
    MatrixEquality(Snapshot(m), DiagonalZeroed(before, m.Length0), m.Length0);
  }

  /** The whole selection on the columns `cols`: build the absolute matrix,
      zero its diagonal in place, pick a largest entry. Its result is a
      largest entry of the prepared matrix; with at least one column there
      always is one. */
  method StrongestPair(pearson: (nat, nat) -> Option<real>, cols: seq<nat>) returns (p: Option<Pair>)
    ensures p == StrongestOf(pearson, cols)
    ensures p.Some? <==> |cols| > 0
    ensures p.Some? ==> p.value.0 < |cols| && p.value.1 < |cols|
    ensures p.Some? ==> IsStrongest(Prepared(pearson, cols), |cols|, p.value)
  {
    var m := AbsCorrelationArray(pearson, cols);
    ZeroDiagonal(m);
    p := Strongest(Snapshot(m), |cols|);
    if |cols| > 0 {
      StrongestExists(pearson, cols);
    }
  }

  // ---------------------------------------------------------------------------
  // The diagonal zeroing of modules/ai_engine.py as written
  // ---------------------------------------------------------------------------

  /** `corr.values[[range(n)]*2] = 0` under numpy 1.23 or later: the list of two
      ranges is read as one integer array indexing the first axis, which names
      every row, so the whole matrix becomes zero. (Older numpy read it as the
      pair of index arrays of the diagonal.) */
  method ZeroRowsAsWritten(m: array2<Option<real>>)
    requires m.Length0 == m.Length1
    modifies m
    ensures forall i, j :: 0 <= i < m.Length0 && 0 <= j < m.Length1 ==> m[i, j] == Some(0.0)
    ensures Snapshot(m) == AllZero(m.Length0)
  {
    forall i, j | 0 <= i < m.Length0 && 0 <= j < m.Length1 {
      m[i, j] := Some(0.0);
    }
    MatrixEquality(Snapshot(m), AllZero(m.Length0), m.Length0);
  }

  /** The n-by-n matrix of zeros. */
  function AllZero(n: nat): (z: Matrix)
    ensures Square(z, n)
    ensures forall i, j :: 0 <= i < n && 0 <= j < n ==> z[i][j] == Some(0.0)
  {
    seq(n, i => seq(n, j => Some(0.0)))
  }

  /** The discrepancy: after the as-written zeroing every entry ties at zero, so
      a column paired with itself is a largest entry and may be reported, even
      when two distinct columns are correlated; after the intended zeroing such
      a self-pair is never a largest entry. */
  lemma AsWrittenAdmitsSelfPair(pearson: (nat, nat) -> Option<real>, cols: seq<nat>, i: nat, j: nat)
    requires i < |cols| && j < |cols| && i != j
    requires pearson(cols[i], cols[j]).Some? && pearson(cols[i], cols[j]).value != 0.0
    ensures forall k :: 0 <= k < |cols| ==> IsStrongest(AllZero(|cols|), |cols|, (k, k))
    ensures forall k :: 0 <= k < |cols| ==> !IsStrongest(Prepared(pearson, cols), |cols|, (k, k))
  {
    var m := Prepared(pearson, cols);
    assert m[i][j] == AbsValue(pearson(cols[i], cols[j]));
    forall k | 0 <= k < |cols| ensures !IsStrongest(m, |cols|, (k, k)) {
      assert m[k][k] == Some(0.0);
      assert m[i][j].value > 0.0;
    }
  }
}
