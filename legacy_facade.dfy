/**
 * The earlier solver interface (src/ilp_solver_interface.cpp with the index
 * bookkeeping of src/ilp_solver_interface_impl.cpp) on top of the earlier
 * collector.  Unlike the production interface it never drops a two-sided
 * add_constraint, it takes integer bounds for integer variables, and it
 * has no start solution.
 */
module LegacyFacade {
  import opened Wrappers
  import opened IlpData
  import opened Matrix
  import LegacyCollect
  import Facade

  class LegacyInterface {
    /** d_all_col_indices. */
    var allColIndices: seq<int>
    /** d_all_row_indices. */
    var allRowIndices: seq<int>
    const backend: LegacyCollect.LegacyCollector

    ghost predicate Valid()
      reads this, backend
    {
      && backend.Valid()
      && allColIndices == Range(VariableCount(backend.data.model))
      && allRowIndices == Range(ConstraintCount(backend.data.model))
      && Facade.NoBinary(backend.data.model)
    }

    constructor()
      ensures Valid() && fresh(backend) && backend.data == DefaultLegacyProblem()
    {
      allColIndices := [];
      allRowIndices := [];
      backend := new LegacyCollect.LegacyCollector();
    }

    /** all_col_indices: a copy of `0..n-1` for the n variables. */
    function AllColIndices(): (r: seq<int>)
      reads this, backend
      ensures Valid() ==> |r| == VariableCount(backend.data.model)
                          && forall j | 0 <= j < |r| :: r[j] == j
    {
      allColIndices
    }

    /** all_row_indices: a copy of `0..m-1` for the m constraints. */
    function AllRowIndices(): (r: seq<int>)
      reads this, backend
      ensures Valid() ==> |r| == ConstraintCount(backend.data.model)
                          && forall i | 0 <= i < |r| :: r[i] == i
    {
      allRowIndices
    }

    ghost function WithVariable(t: VariableType, objective: real, lower: real, upper: real,
                                column: seq<real>): LegacyProblem
      reads this, backend
      requires Valid() && |column| == ConstraintCount(backend.data.model)
    {
      backend.data.(model := AddVariable(backend.data.model, t, objective, lower, upper, column))
    }

    ghost function WithConstraint(lower: real, upper: real, row: seq<real>): LegacyProblem
      reads this, backend
      requires Valid() && |row| == VariableCount(backend.data.model)
    {
      backend.data.(model := IlpData.AddConstraint(backend.data.model, lower, upper, row))
    }

    /** What the earlier collector accepts as a sparse column: indices only matter once there are constraints. */
    ghost predicate ColumnList(idx: seq<int>, vals: seq<real>)
      reads this, backend
      requires Valid()
    {
      |vals| == |idx| && (ConstraintCount(backend.data.model) > 0 ==> InRange(idx, ConstraintCount(backend.data.model)))
    }

    ghost predicate RowList(idx: seq<int>, vals: seq<real>)
      reads this, backend
      requires Valid()
    {
      |vals| == |idx| && InRange(idx, VariableCount(backend.data.model))
    }

    /** The column the collector builds from a sparse list. */
    ghost function Column(idx: seq<int>, vals: seq<real>): seq<real>
      reads this, backend
      requires Valid() && ColumnList(idx, vals)
    {
      LegacyCollect.SparseColumn(ConstraintCount(backend.data.model), idx, vals)
    }

    /** A dense column over every constraint is kept as given. */
    lemma DenseColumn(vals: seq<real>)
      requires Valid() && |vals| == |allRowIndices|
      ensures ColumnList(allRowIndices, vals) && Column(allRowIndices, vals) == vals
    {
      ScatterRange(vals);
    }

    /** do_add_variable_and_update_index_vector: push the new column index, then add the variable. */
    method AddVariableAndUpdateIndexVector(idx: seq<int>, vals: seq<real>, objective: real,
                                           lower: real, upper: real, t: VariableType)
      modifies this, backend
      requires Valid() && ColumnList(idx, vals) && t != Binary
      ensures Valid()
      ensures backend.data == old(WithVariable(t, objective, lower, upper, Column(idx, vals)))
    {
      Facade.RangeSnoc(|allColIndices|);
      allColIndices := allColIndices + [|allColIndices|];
      backend.AddVariable(idx, vals, objective, lower, upper, t);
    }

    /** do_add_constraint_and_update_index_vector: push the new row index, then add the constraint. */
    method AddConstraintAndUpdateIndexVector(idx: seq<int>, vals: seq<real>, lower: real, upper: real)
      modifies this, backend
      requires Valid() && RowList(idx, vals)
      ensures Valid()
      ensures backend.data == old(WithConstraint(lower, upper, Scatter(VariableCount(backend.data.model), idx, vals)))
    {
      Facade.RangeSnoc(|allRowIndices|);
      allRowIndices := allRowIndices + [|allRowIndices|];
      backend.AddConstraint(idx, vals, lower, upper);
    }

    /** add_variable_boolean with a sparse column: an INTEGER variable bounded by 0 and 1. */
    method AddVariableBooleanSparse(idx: seq<int>, vals: seq<real>, objective: real)
      modifies this, backend
      requires Valid() && ColumnList(idx, vals)
      ensures Valid() && backend.data == old(WithVariable(Integer, objective, 0.0, 1.0, Column(idx, vals)))
    {
      AddVariableAndUpdateIndexVector(idx, vals, objective, 0.0, 1.0, Integer);
    }

    method AddVariableBooleanDense(vals: seq<real>, objective: real)
      modifies this, backend
      requires Valid() && |AllRowIndices()| == |vals|
      ensures Valid() && backend.data == old(WithVariable(Integer, objective, 0.0, 1.0, vals))
    {
      DenseColumn(vals);
      AddVariableBooleanSparse(AllRowIndices(), vals, objective);
    }

    method AddVariableBoolean(objective: real)
      modifies this, backend
      requires Valid()
      ensures Valid() && backend.data == old(WithVariable(Integer, objective, 0.0, 1.0, Column([], [])))
    {
      AddVariableBooleanSparse([], [], objective);
    }

    /** add_variable_integer with a sparse column; the bounds are C++ ints. */
    method AddVariableIntegerSparse(idx: seq<int>, vals: seq<real>, objective: real, lower: int, upper: int)
      modifies this, backend
      requires Valid() && ColumnList(idx, vals)
      ensures Valid() && backend.data == old(WithVariable(Integer, objective, lower as real, upper as real, Column(idx, vals)))
    {
      AddVariableAndUpdateIndexVector(idx, vals, objective, lower as real, upper as real, Integer);
    }

    method AddVariableIntegerDense(vals: seq<real>, objective: real, lower: int, upper: int)
      modifies this, backend
      requires Valid() && |AllRowIndices()| == |vals|
      ensures Valid() && backend.data == old(WithVariable(Integer, objective, lower as real, upper as real, vals))
    {
      DenseColumn(vals);
      AddVariableIntegerSparse(AllRowIndices(), vals, objective, lower, upper);
    }

    method AddVariableInteger(objective: real, lower: int, upper: int)
      modifies this, backend
      requires Valid()
      ensures Valid() && backend.data == old(WithVariable(Integer, objective, lower as real, upper as real, Column([], [])))
    {
      AddVariableIntegerSparse([], [], objective, lower, upper);
    }

    method AddVariableContinuousSparse(idx: seq<int>, vals: seq<real>, objective: real, lower: real, upper: real)
      modifies this, backend
      requires Valid() && ColumnList(idx, vals)
      ensures Valid() && backend.data == old(WithVariable(Continuous, objective, lower, upper, Column(idx, vals)))
    {
      AddVariableAndUpdateIndexVector(idx, vals, objective, lower, upper, Continuous);
    }

    method AddVariableContinuousDense(vals: seq<real>, objective: real, lower: real, upper: real)
      modifies this, backend
      requires Valid() && |AllRowIndices()| == |vals|
      ensures Valid() && backend.data == old(WithVariable(Continuous, objective, lower, upper, vals))
    {
      DenseColumn(vals);
      AddVariableContinuousSparse(AllRowIndices(), vals, objective, lower, upper);
    }

    method AddVariableContinuous(objective: real, lower: real, upper: real)
      modifies this, backend
      requires Valid()
      ensures Valid() && backend.data == old(WithVariable(Continuous, objective, lower, upper, Column([], [])))
    {
      AddVariableContinuousSparse([], [], objective, lower, upper);
    }

    /** add_constraint with a sparse row: always kept, whatever the bounds. */
    method AddConstraintSparse(idx: seq<int>, vals: seq<real>, lower: real, upper: real)
      modifies this, backend
      requires Valid() && RowList(idx, vals)
      ensures Valid()
      ensures backend.data == old(WithConstraint(lower, upper, Scatter(VariableCount(backend.data.model), idx, vals)))
    {
      AddConstraintAndUpdateIndexVector(idx, vals, lower, upper);
    }

    method AddConstraint(vals: seq<real>, lower: real, upper: real)
      modifies this, backend
      requires Valid() && |AllColIndices()| == |vals|
      ensures Valid() && backend.data == old(WithConstraint(lower, upper, vals))
    {
      ScatterRange(vals);
      AddConstraintSparse(AllColIndices(), vals, lower, upper);
    }

    /** add_constraint_upper with a sparse row: dropped when the bound is free, else bounded below by -max. */
    method AddConstraintUpperSparse(idx: seq<int>, vals: seq<real>, upper: real)
      modifies this, backend
      requires Valid() && RowList(idx, vals)
      ensures Valid()
      ensures Facade.UpperIsFree(upper) ==> backend.data == old(backend.data)
      ensures !Facade.UpperIsFree(upper) ==>
                backend.data == old(WithConstraint(-MaxDouble, upper, Scatter(VariableCount(backend.data.model), idx, vals)))
    {
      if upper >= 0.5 * MaxDouble {
        return;
      }
      AddConstraintAndUpdateIndexVector(idx, vals, -MaxDouble, upper);
    }

    method AddConstraintUpper(vals: seq<real>, upper: real)
      modifies this, backend
      requires Valid() && |AllColIndices()| == |vals|
      ensures Valid()
      ensures Facade.UpperIsFree(upper) ==> backend.data == old(backend.data)
      ensures !Facade.UpperIsFree(upper) ==> backend.data == old(WithConstraint(-MaxDouble, upper, vals))
    {
      ScatterRange(vals);
      AddConstraintUpperSparse(AllColIndices(), vals, upper);
    }

    /**
     * add_constraint_lower with a sparse row: dropped when the bound is at or
     * below -max/2 (the production rule's lowest/2), else bounded above by max.
     */
    method AddConstraintLowerSparse(idx: seq<int>, vals: seq<real>, lower: real)
      modifies this, backend
      requires Valid() && RowList(idx, vals)
      ensures Valid()
      ensures Facade.LowerIsFree(lower) ==> backend.data == old(backend.data)
      ensures !Facade.LowerIsFree(lower) ==>
                backend.data == old(WithConstraint(lower, MaxDouble, Scatter(VariableCount(backend.data.model), idx, vals)))
    {
      if lower <= -0.5 * MaxDouble {
        return;
      }
      AddConstraintAndUpdateIndexVector(idx, vals, lower, MaxDouble);
    }

    method AddConstraintLower(vals: seq<real>, lower: real)
      modifies this, backend
      requires Valid() && |AllColIndices()| == |vals|
      ensures Valid()
      ensures Facade.LowerIsFree(lower) ==> backend.data == old(backend.data)
      ensures !Facade.LowerIsFree(lower) ==> backend.data == old(WithConstraint(lower, MaxDouble, vals))
    {
      ScatterRange(vals);
      AddConstraintLowerSparse(AllColIndices(), vals, lower);
    }

    method AddConstraintEqualitySparse(idx: seq<int>, vals: seq<real>, value: real)
      modifies this, backend
      requires Valid() && RowList(idx, vals)
      ensures Valid()
      ensures backend.data == old(WithConstraint(value, value, Scatter(VariableCount(backend.data.model), idx, vals)))
    {
      AddConstraintAndUpdateIndexVector(idx, vals, value, value);
    }

    method AddConstraintEquality(vals: seq<real>, value: real)
      modifies this, backend
      requires Valid() && |AllColIndices()| == |vals|
      ensures Valid() && backend.data == old(WithConstraint(value, value, vals))
    {
      ScatterRange(vals);
      AddConstraintEqualitySparse(AllColIndices(), vals, value);
    }

    /**
     * minimize: set the sense, then do_prepare_and_solve.  The solver
     * parameters that call stores come from the concrete solver, so they are
     * parameters here; the result is the data handed to do_solve.
     */
    method Minimize(numThreads: int, logLevel: int, maxSeconds: real) returns (handed: LegacyProblem)
      modifies this, backend
      requires Valid()
      ensures Valid()
      ensures handed == backend.data
      ensures handed == old(backend.data).(objectiveSense := ObjectiveSense.Minimize, numThreads := numThreads,
                                           logLevel := logLevel, maxSeconds := maxSeconds)
    {
      backend.SetObjectiveSense(ObjectiveSense.Minimize);
      handed := backend.PrepareAndSolve(numThreads, logLevel, maxSeconds);
    }

    method Maximize(numThreads: int, logLevel: int, maxSeconds: real) returns (handed: LegacyProblem)
      modifies this, backend
      requires Valid()
      ensures Valid()
      ensures handed == backend.data
      ensures handed == old(backend.data).(objectiveSense := ObjectiveSense.Maximize, numThreads := numThreads,
                                           logLevel := logLevel, maxSeconds := maxSeconds)
    {
      backend.SetObjectiveSense(ObjectiveSense.Maximize);
      handed := backend.PrepareAndSolve(numThreads, logLevel, maxSeconds);
    }

    /** get_solution: one value per variable, or nothing when the back end has no solution. */
    function GetSolution(pointer: Option<seq<real>>): (r: seq<real>)
      reads this, backend
      requires pointer.Some? ==> |AllColIndices()| <= |pointer.value|
      ensures pointer.None? ==> r == []
      ensures Valid() && pointer.Some? ==> |r| == VariableCount(backend.data.model)
                                           && r == pointer.value[..VariableCount(backend.data.model)]
    {
      Facade.CopySolution(pointer, |AllColIndices()|)
    }
  }
}
