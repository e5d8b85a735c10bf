/**
 * The earlier ILPSolverCollect (src/ilp_solver_collect.cpp).  It takes every
 * column and row as a sparse (index, value) list, and hands the collected
 * ILPData to an abstract do_solve together with the solver parameters.  Its
 * two static matrix helpers are the sparse helpers of the production
 * collector, line for line, so the model shares them.
 */
module LegacyCollect {
  import opened IlpData
  import opened Matrix
  import Collect

  /** The column a new variable gets: the scattered list, or nothing while there are no constraints. */
  function SparseColumn(rows: nat, idx: seq<int>, vals: seq<real>): (c: seq<real>)
    requires |idx| <= |vals| && (rows > 0 ==> InRange(idx, rows))
    ensures |c| == rows
    ensures rows > 0 ==> forall j | 0 <= j < rows && (forall k | 0 <= k < |idx| :: idx[k] != j) :: c[j] == 0.0
  {
    if rows == 0 then [] else
      var c := Scatter(rows, idx, vals);
      forall j | 0 <= j < rows && (forall k | 0 <= k < |idx| :: idx[k] != j)
        ensures c[j] == 0.0
      {
        ScatterUnlisted(rows, idx, vals, j);
      }
      c
  }

  class LegacyCollector {
    /** d_ilp_data. */
    var data: LegacyProblem

    ghost predicate Valid()
      reads this
    {
      WellFormed(data.model)
    }

    constructor()
      ensures Valid() && data == DefaultLegacyProblem()
    {
      data := DefaultLegacyProblem();
    }

    /**
     * do_add_variable: one more variable with the given objective
     * coefficient, bounds and type, and the listed coefficients in the
     * existing constraints.  The name is unused.
     */
    method AddVariable(rowIndices: seq<int>, rowValues: seq<real>, objective: real,
                       lower: real, upper: real, t: VariableType)
      modifies this
      requires Valid() && |rowValues| == |rowIndices|
      requires |data.model.matrix| > 0 ==> InRange(rowIndices, |data.model.matrix|)
      ensures Valid()
      ensures data == old(data.(model := IlpData.AddVariable(data.model, t, objective, lower, upper,
                                                     SparseColumn(|data.model.matrix|, rowIndices, rowValues))))
    {
      var matrix := Collect.AppendColumnSparse(data.model.matrix, rowIndices, rowValues);
      data := data.(model := data.model.(
        matrix := matrix,
        objective := data.model.objective + [objective],
        variableLower := data.model.variableLower + [lower],
        variableUpper := data.model.variableUpper + [upper],
        variableType := data.model.variableType + [t]));
    }

    /** do_add_constraint: one more constraint over the current variables, with the listed coefficients. */
    method AddConstraint(colIndices: seq<int>, colValues: seq<real>, lower: real, upper: real)
      modifies this
      requires Valid() && |colValues| == |colIndices| && InRange(colIndices, |data.model.objective|)
      ensures Valid()
      ensures data == old(data.(model := IlpData.AddConstraint(data.model, lower, upper,
                                                       Scatter(|data.model.objective|, colIndices, colValues))))
    {
      var numCols := |data.model.objective|;
      var matrix := Collect.AppendRowSparse(data.model.matrix, numCols, colIndices, colValues);
      assert matrix == data.model.matrix + [Scatter(numCols, colIndices, colValues)];
      data := data.(model := data.model.(
        matrix := matrix,
        constraintLower := data.model.constraintLower + [lower],
        constraintUpper := data.model.constraintUpper + [upper]));
    }

    method SetObjectiveSense(sense: ObjectiveSense)
      modifies this
      ensures data == old(data).(objectiveSense := sense)
    {
      data := data.(objectiveSense := sense);
    }

    /**
     * do_prepare_and_solve: store the solver parameters, then hand the
     * collected data to do_solve.  do_solve is abstract here, so the model
     * returns the data it is handed.
     */
    method PrepareAndSolve(numThreads: int, logLevel: int, maxSeconds: real) returns (handed: LegacyProblem)
      modifies this
      ensures data == old(data).(numThreads := numThreads, logLevel := logLevel, maxSeconds := maxSeconds)
      ensures handed == data
    {
      data := data.(numThreads := numThreads, logLevel := logLevel, maxSeconds := maxSeconds);
      handed := data;
    }
  }
}
