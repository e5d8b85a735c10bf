/**
 * Dense coefficient matrices and the sparse (index, value) lists the solver
 * front end accepts for a new column or row.  A matrix is a sequence of rows;
 * the collector keeps one row per constraint and one entry per variable.
 */
module Matrix {
  import opened Wrappers

  /** A row of `n` zeros, as `std::vector<double>(n, 0.0)` builds it. */
  function ZeroRow(n: nat): (r: seq<real>)
    ensures |r| == n && forall j | 0 <= j < n :: r[j] == 0.0
  {
    seq(n, _ => 0.0)
  }

  /** The index vector `0, 1, ..., n-1`. */
  function Range(n: nat): (r: seq<int>)
    ensures |r| == n && forall i | 0 <= i < n :: r[i] == i
  {
    seq(n, i => i)
  }

  /** Every index of the list addresses one of `n` slots. */
  predicate InRange(idx: seq<int>, n: int) {
    forall k | 0 <= k < |idx| :: 0 <= idx[k] < n
  }

  /**
   * The dense vector of length `n` that the sparse list `idx`/`vals`
   * describes when its entries are written one after the other into a
   * vector of zeros: slot `idx[k]` receives `vals[k]`, and a later entry
   * for the same slot overwrites an earlier one.
   */
  function Scatter(n: nat, idx: seq<int>, vals: seq<real>): (r: seq<real>)
    requires |idx| <= |vals| && InRange(idx, n)
    ensures |r| == n
    decreases |idx|
  {
    if |idx| == 0 then ZeroRow(n)
    else Scatter(n, idx[..|idx| - 1], vals)[idx[|idx| - 1] := vals[|idx| - 1]]
  }

  /** The position of the last entry of `idx` that names slot `j`, if any. */
  function LastWrite(idx: seq<int>, j: int): (r: Option<nat>)
    ensures r.Some? ==> r.value < |idx| && idx[r.value] == j
                        && forall k | r.value < k < |idx| :: idx[k] != j
    ensures r.None? ==> forall k | 0 <= k < |idx| :: idx[k] != j
    decreases |idx|
  {
    if |idx| == 0 then None
    else if idx[|idx| - 1] == j then Some(|idx| - 1)
    else LastWrite(idx[..|idx| - 1], j)
  }

  /**
   * Pointwise meaning of Scatter: a slot holds the value of the last entry
   * that names it, and 0.0 when no entry names it.
   */
  lemma {:induction false} ScatterAt(n: nat, idx: seq<int>, vals: seq<real>, j: int)
    requires |idx| <= |vals| && InRange(idx, n) && 0 <= j < n
    ensures Scatter(n, idx, vals)[j] == match LastWrite(idx, j)
                                          case None => 0.0
                                          case Some(k) => vals[k]
    decreases |idx|
  {
    if |idx| > 0 {
      var init := idx[..|idx| - 1];
      assert InRange(init, n);
      if idx[|idx| - 1] != j {
        ScatterAt(n, init, vals, j);
      }
    }
  }

  /** An entry whose slot is not named again later lands in its slot. */
  lemma ScatterListed(n: nat, idx: seq<int>, vals: seq<real>, k: nat)
    requires |idx| <= |vals| && InRange(idx, n) && k < |idx|
    requires forall l | k < l < |idx| :: idx[l] != idx[k]
    ensures Scatter(n, idx, vals)[idx[k]] == vals[k]
  {
    ScatterAt(n, idx, vals, idx[k]);
  }

  /** A slot that no entry names stays 0.0. */
  lemma ScatterUnlisted(n: nat, idx: seq<int>, vals: seq<real>, j: int)
    requires |idx| <= |vals| && InRange(idx, n) && 0 <= j < n
    requires forall k | 0 <= k < |idx| :: idx[k] != j
    ensures Scatter(n, idx, vals)[j] == 0.0
  {
    ScatterAt(n, idx, vals, j);
  }

  /**
   * The full index list `0..n-1` turns a sparse list back into the dense
   * vector it came from: this is why a dense overload may delegate to the
   * sparse one.
   */
  lemma ScatterRange(vals: seq<real>)
    ensures Scatter(|vals|, Range(|vals|), vals) == vals
  {
    var n := |vals|;
    forall j | 0 <= j < n
      ensures Scatter(n, Range(n), vals)[j] == vals[j]
    {
      ScatterAt(n, Range(n), vals, j);
      assert Range(n)[j] == j;
      assert LastWrite(Range(n), j) == Some(j);
    }
  }

  /** The matrix `m` with `col[i]` appended to row `i`. */
  function WithColumn(m: seq<seq<real>>, col: seq<real>): (r: seq<seq<real>>)
    requires |col| == |m|
    ensures |r| == |m| && forall i | 0 <= i < |m| :: r[i] == m[i] + [col[i]]
  {
    seq(|m|, i requires 0 <= i < |m| => m[i] + [col[i]])
  }

  /** Overwriting the last entry of one row is overwriting that row's entry of the appended column. */
  lemma WithColumnSet(m: seq<seq<real>>, col: seq<real>, row: int, v: real)
    requires |col| == |m| && 0 <= row < |m|
    ensures var w := WithColumn(m, col);
            w[row := w[row][|w[row]| - 1 := v]] == WithColumn(m, col[row := v])
  {
    var w := WithColumn(m, col);
    var lhs := w[row := w[row][|w[row]| - 1 := v]];
    var rhs := WithColumn(m, col[row := v]);
    forall i | 0 <= i < |m|
      ensures lhs[i] == rhs[i]
    {
      if i == row {
        assert lhs[i] == m[i] + [v];
      }
    }
  }
}
