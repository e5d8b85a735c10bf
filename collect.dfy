/**
 * ILPSolverCollect (src/production/ilp_solver_collect.cpp): the solver back
 * end that only records the problem in an ILPData, for a stub to ship to a
 * solver process.  The static matrix helpers grow the constraint-major matrix
 * by a column (a new variable) or a row (a new constraint).
 */
module Collect {
  import opened Wrappers
  import opened IlpData
  import opened Matrix

  /** Dense append_column: row `i` gains `values[i]`; an empty matrix is left alone. */
  method AppendColumnDense(m: seq<seq<real>>, values: seq<real>) returns (r: seq<seq<real>>)
    requires |m| <= |values|
    ensures r == WithColumn(m, values[..|m|])
  {
    r := m;
    if |r| == 0 {
      return;
    }
    var i := 0;
    while i < |r|
      invariant 0 <= i <= |m| == |r|
      invariant forall k | 0 <= k < i :: r[k] == m[k] + [values[k]]
      invariant forall k | i <= k < |m| :: r[k] == m[k]
    {
      r := r[i := r[i] + [values[i]]];
      i := i + 1;
    }
  }

  /**
   * Sparse append_column: every row gains a trailing 0.0, then the rows the
   * list names get their value; an empty matrix is left alone.
   */
  method AppendColumnSparse(m: seq<seq<real>>, idx: seq<int>, vals: seq<real>) returns (r: seq<seq<real>>)
    requires |idx| <= |vals|
    requires |m| > 0 ==> InRange(idx, |m|)
    ensures r == if |m| == 0 then m else WithColumn(m, Scatter(|m|, idx, vals))
  {
    r := m;
    if |r| == 0 {
      return;
    }
    var i := 0;
    while i < |r|
      invariant 0 <= i <= |m| == |r|
      invariant forall k | 0 <= k < i :: r[k] == m[k] + [0.0]
      invariant forall k | i <= k < |m| :: r[k] == m[k]
    {
      r := r[i := r[i] + [0.0]];
      i := i + 1;
    }
    assert r == WithColumn(m, Scatter(|m|, idx[..0], vals));
    i := 0;
    while i < |idx|
      invariant 0 <= i <= |idx|
      invariant r == WithColumn(m, Scatter(|m|, idx[..i], vals))
    {
      ghost var col := Scatter(|m|, idx[..i], vals);
      var row := idx[i];
      WithColumnSet(m, col, row, vals[i]);
      r := r[row := r[row][|r[row]| - 1 := vals[i]]];
      assert idx[..i + 1][..i] == idx[..i];
      i := i + 1;
    }
    assert idx[..|idx|] == idx;
  }

  /** Dense append_row: the values become the new last row. */
  method AppendRowDense(m: seq<seq<real>>, values: seq<real>) returns (r: seq<seq<real>>)
    ensures |r| == |m| + 1 && r[..|m|] == m && r[|m|] == values
  {
    r := m + [values];
  }

  /** Sparse append_row: a new last row of `numCols` zeros, with the listed columns set. */
  method AppendRowSparse(m: seq<seq<real>>, numCols: int, idx: seq<int>, vals: seq<real>) returns (r: seq<seq<real>>)
    requires 0 <= numCols && |idx| <= |vals| && InRange(idx, numCols)
    ensures |r| == |m| + 1 && r[..|m|] == m && r[|m|] == Scatter(numCols, idx, vals)
  {
    var row := ZeroRow(numCols);
    var i := 0;
    while i < |idx|
      invariant 0 <= i <= |idx|
      invariant row == Scatter(numCols, idx[..i], vals)
    {
      row := row[idx[i] := vals[i]];
      assert idx[..i + 1][..i] == idx[..i];
      i := i + 1;
    }
    assert idx[..|idx|] == idx;
    r := m + [row];
  }

  /**
   * What add_variable_impl asserts about its optional row values and row
   * indices: no indices without values, dense values for every constraint,
   * or a sparse list of at most that many in-range entries.
   */
  predicate ColumnArgs(rows: nat, rowValues: Option<seq<real>>, rowIndices: Option<seq<int>>) {
    match rowValues
    case None => rowIndices.None?
    case Some(vals) =>
      match rowIndices
      case None => |vals| == rows
      case Some(idx) => |vals| == |idx| && |idx| <= rows && InRange(idx, rows)
  }

  /** The coefficients a new variable gets in the existing constraints. */
  function NewColumn(rows: nat, rowValues: Option<seq<real>>, rowIndices: Option<seq<int>>): (c: seq<real>)
    requires ColumnArgs(rows, rowValues, rowIndices)
    ensures |c| == rows
  {
    match rowValues
    case None => ZeroRow(rows)
    case Some(vals) => if rowIndices.None? then vals else Scatter(rows, rowIndices.value, vals)
  }

  /** What add_constraint_impl asserts about its values and optional column indices. */
  predicate RowArgs(cols: nat, colValues: seq<real>, colIndices: Option<seq<int>>) {
    match colIndices
    case None => |colValues| == cols
    case Some(idx) => |colValues| == |idx| && |idx| <= cols && InRange(idx, cols)
  }

  /** The coefficients of a new constraint. */
  function NewRow(cols: nat, colValues: seq<real>, colIndices: Option<seq<int>>): (r: seq<real>)
    requires RowArgs(cols, colValues, colIndices)
    ensures |r| == cols
  {
    if colIndices.None? then colValues else Scatter(cols, colIndices.value, colValues)
  }

  /** get_infinity_impl: the pair (lowest, max) of finite doubles, symmetric around zero. */
  function Infinity(): (r: (real, real))
    ensures r.0 < 0.0 < r.1 && r.0 == -r.1
    ensures Representable(r.0) && Representable(r.1)
    ensures forall x | Representable(x) :: r.0 <= x <= r.1
  {
    (LowestDouble, MaxDouble)
  }

  class Collector {
    /** d_ilp_data. */
    var data: Problem

    ghost predicate Valid()
      reads this
    {
      WellFormed(data.model)
    }

    /** A collector starts from a default-constructed ILPData. */
    constructor(defaults: Defaults)
      ensures Valid() && data == DefaultProblem(defaults)
    {
      data := DefaultProblem(defaults);
    }

    /** get_num_constraints: the number of constraint bounds, which is the number of matrix rows. */
    function NumConstraints(): (n: nat)
      reads this
      requires Valid()
      ensures n == |data.model.matrix| == |data.model.constraintUpper|
    {
      |data.model.constraintLower|
    }

    /** get_num_variables: the number of variable bounds, which is the length of every matrix row. */
    function NumVariables(): (n: nat)
      reads this
      requires Valid()
      ensures n == |data.model.objective| == |data.model.variableType|
      ensures forall i | 0 <= i < |data.model.matrix| :: |data.model.matrix[i]| == n
    {
      |data.model.variableLower|
    }

    /**
     * add_variable_impl: one more variable with the given type, objective
     * coefficient and bounds; its column comes from dense values, a sparse
     * list, or is all zeros when no values are given.  The name is unused.
     */
    method AddVariableImpl(t: VariableType, objective: real, lower: real, upper: real,
                           rowValues: Option<seq<real>>, rowIndices: Option<seq<int>>)
      modifies this
      requires Valid() && ColumnArgs(|data.model.matrix|, rowValues, rowIndices)
      ensures Valid()
      ensures data == old(data.(model := AddVariable(data.model, t, objective, lower, upper,
                                                     NewColumn(|data.model.matrix|, rowValues, rowIndices))))
    {
      var matrix := data.model.matrix;
      if rowValues.Some? {
        if rowIndices.None? {
          matrix := AppendColumnDense(matrix, rowValues.value);
          assert rowValues.value[..|data.model.matrix|] == rowValues.value;
        } else {
          matrix := AppendColumnSparse(matrix, rowIndices.value, rowValues.value);
        }
      } else {
        matrix := AppendColumnSparse(matrix, [], []);
        assert Scatter(|data.model.matrix|, [], []) == ZeroRow(|data.model.matrix|);
      }
      data := data.(model := data.model.(
        matrix := matrix,
        objective := data.model.objective + [objective],
        variableLower := data.model.variableLower + [lower],
        variableUpper := data.model.variableUpper + [upper],
        variableType := data.model.variableType + [t]));
    }

    /**
     * add_constraint_impl: one more constraint with the given bounds; its
     * row is the dense values, or a sparse list over the current variables.
     */
    method AddConstraintImpl(lower: real, upper: real, colValues: seq<real>, colIndices: Option<seq<int>>)
      modifies this
      requires Valid() && RowArgs(|data.model.objective|, colValues, colIndices)
      ensures Valid()
      ensures data == old(data.(model := AddConstraint(data.model, lower, upper,
                                                       NewRow(|data.model.objective|, colValues, colIndices))))
    {
      var matrix := data.model.matrix;
      if colIndices.None? {
        matrix := AppendRowDense(matrix, colValues);
      } else {
        var numCols := |data.model.objective|;
        matrix := AppendRowSparse(matrix, numCols, colIndices.value, colValues);
      }
      assert matrix == data.model.matrix + [NewRow(|data.model.objective|, colValues, colIndices)];
      data := data.(model := data.model.(
        matrix := matrix,
        constraintLower := data.model.constraintLower + [lower],
        constraintUpper := data.model.constraintUpper + [upper]));
    }

    method SetObjectiveSense(sense: ObjectiveSense)
      modifies this
      ensures data == old(data).(objectiveSense := sense)
    {
      data := data.(objectiveSense := sense);
    }

    method SetStartSolution(solution: seq<real>)
      modifies this
      ensures data == old(data).(startSolution := solution)
    {
      data := data.(startSolution := solution);
    }

    method SetNumThreads(numThreads: int)
      modifies this
      ensures data == old(data).(numThreads := numThreads)
    {
      data := data.(numThreads := numThreads);
    }

    method SetDeterministicMode(deterministic: bool)
      modifies this
      ensures data == old(data).(deterministic := deterministic)
    {
      data := data.(deterministic := deterministic);
    }

    method SetLogLevel(level: int)
      modifies this
      ensures data == old(data).(logLevel := level)
    {
      data := data.(logLevel := level);
    }

    method SetMaxSeconds(seconds: real)
      modifies this
      ensures data == old(data).(maxSeconds := seconds)
    {
      data := data.(maxSeconds := seconds);
    }
  }
}
