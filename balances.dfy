/** Running balances: a starting value folded with a list of monthly deltas,
    the computation both report handlers perform per account. */
module Balances {

  /** Sum of a list of deltas, accumulated left to right. */
  function Sum(ds: seq<int>): int
  {
    if ds == [] then 0 else Sum(ds[..|ds| - 1]) + ds[|ds| - 1]
  }

  /** The balances recorded by `running_total += delta; append(running_total)`
      over `ds`, starting from `running`. */
  function Cumulative(running: int, ds: seq<int>): (r: seq<int>)
    ensures |r| == |ds|
    decreases |ds|
  {
    if ds == [] then [] else [running + ds[0]] + Cumulative(running + ds[0], ds[1..])
  }

  /** Sum of column `m` over a list of rows; a row too short to have one adds 0. */
  function ColumnTotal(rows: seq<seq<int>>, m: nat): int
  {
    if rows == [] then 0
    else ColumnTotal(rows[..|rows| - 1], m) + (if m < |rows[|rows| - 1]| then rows[|rows| - 1][m] else 0)
  }

  lemma ColumnTotalAppend(rows: seq<seq<int>>, row: seq<int>, m: nat)
    ensures ColumnTotal(rows + [row], m) == ColumnTotal(rows, m) + (if m < |row| then row[m] else 0)
  {
    assert (rows + [row])[..|rows|] == rows;
  }

  /** One step of the fold, as a loop that records balances one by one sees it. */
  lemma CumulativeStep(running: int, ds: seq<int>, k: nat)
    requires k < |ds|
    ensures Cumulative(running, ds[k..]) == [running + ds[k]] + Cumulative(running + ds[k], ds[k + 1..])
  {
    assert ds[k..][1..] == ds[k + 1..];
  }

  lemma {:induction false} SumPrepend(x: int, ds: seq<int>)
    ensures Sum([x] + ds) == x + Sum(ds)
  {
    if ds == [] {
      assert ([x] + ds)[..0] == [];
    } else {
      var n := |ds|;
      assert ([x] + ds)[..n] == [x] + ds[..n - 1];
      SumPrepend(x, ds[..n - 1]);
    }
  }

  /** Entry `m` of the running balances is the start plus the deltas 0..m. */
  lemma {:induction false} CumulativeIsPrefixSum(running: int, ds: seq<int>, m: nat)
    requires m < |ds|
    ensures Cumulative(running, ds)[m] == running + Sum(ds[..m + 1])
    decreases m
  {
    if m == 0 {
      assert ds[..1] == [ds[0]];
      assert [ds[0]][..0] == [];
    } else {
      CumulativeIsPrefixSum(running + ds[0], ds[1..], m - 1);
      assert ds[..m + 1] == [ds[0]] + ds[1..][..m];
      SumPrepend(ds[0], ds[1..][..m]);
    }
  }

  /** With all deltas zero, every recorded balance is the start. */
  lemma {:induction false} CumulativeOfZeros(running: int, ds: seq<int>)
    requires forall k :: 0 <= k < |ds| ==> ds[k] == 0
    ensures forall m :: 0 <= m < |ds| ==> Cumulative(running, ds)[m] == running
  {
    if ds != [] {
      CumulativeOfZeros(running + ds[0], ds[1..]);
    }
  }

  /** Raising one delta by `x` raises that element's total by `x`. */
  lemma {:induction false} SumBump(ds: seq<int>, k: nat, x: int)
    requires k < |ds|
    ensures Sum(ds[k := ds[k] + x]) == Sum(ds) + x
  {
    var n := |ds|;
    var es := ds[k := ds[k] + x];
    if k < n - 1 {
      assert es[..n - 1] == ds[..n - 1][k := ds[k] + x];
      SumBump(ds[..n - 1], k, x);
    } else {
      assert es[..n - 1] == ds[..n - 1];
    }
  }

  /** Raising the delta of month `k` by `x` raises every balance from month
      `k` on by `x` and leaves the earlier ones alone. */
  lemma CumulativeBump(running: int, ds: seq<int>, k: nat, x: int, m: nat)
    requires k < |ds| && m < |ds|
    ensures Cumulative(running, ds[k := ds[k] + x])[m]
         == Cumulative(running, ds)[m] + (if k <= m then x else 0)
  {
    var es := ds[k := ds[k] + x];
    CumulativeIsPrefixSum(running, ds, m);
    CumulativeIsPrefixSum(running, es, m);
    if k <= m {
      assert es[..m + 1] == ds[..m + 1][k := ds[k] + x];
      SumBump(ds[..m + 1], k, x);
    } else {
      assert es[..m + 1] == ds[..m + 1];
    }
  }

  /** Moving every row's column `m` by its own amount moves the column total by
      the sum of those amounts. */
  lemma {:induction false} ColumnTotalShift(before: seq<seq<int>>, after: seq<seq<int>>, ds: seq<int>, m: nat)
    requires |before| == |after| == |ds|
    requires forall i :: 0 <= i < |ds| ==> m < |before[i]| && m < |after[i]|
    requires forall i :: 0 <= i < |ds| ==> after[i][m] == before[i][m] + ds[i]
    ensures ColumnTotal(after, m) == ColumnTotal(before, m) + Sum(ds)
  {
    if ds != [] {
      var n := |ds| - 1;
      ColumnTotalShift(before[..n], after[..n], ds[..n], m);
    }
  }
}
