/**
 * ILPSolverImpl (src/production/ilp_solver_impl.cpp): the public solver
 * interface on top of a back end.  It turns every overload into one sparse
 * call, drops constraints that do not restrict anything, keeps the index
 * vectors `0..n-1` that the dense overloads use, and hands a start solution
 * to exactly one solve.  The back end is the collecting one.
 */
module Facade {
  import opened Wrappers
  import opened IlpData
  import opened Matrix
  import Collect

  /** A lower bound at or below half the lowest double means "no lower bound". */
  predicate LowerIsFree(lower: real) {
    lower <= LowestDouble / 2.0
  }

  /** An upper bound at or above half the largest double means "no upper bound". */
  predicate UpperIsFree(upper: real) {
    upper >= MaxDouble / 2.0
  }

  /** A constraint add_constraint drops: no restriction on either side. */
  predicate IsFree(lower: real, upper: real) {
    LowerIsFree(lower) && UpperIsFree(upper)
  }

  /** Activities no larger in magnitude than half the largest double. */
  predicate InHalfRange(x: real) {
    LowestDouble / 2.0 <= x <= MaxDouble / 2.0
  }

  predicate Admits(lower: real, upper: real, x: real) {
    lower <= x <= upper
  }

  /**
   * The pruning rule of add_constraint, characterised: a constraint is
   * dropped exactly when every activity in the half range satisfies it.
   */
  lemma FreeIff(lower: real, upper: real)
    ensures IsFree(lower, upper) <==> forall x | InHalfRange(x) :: Admits(lower, upper, x)
  {
    if forall x | InHalfRange(x) :: Admits(lower, upper, x) {
      assert InHalfRange(LowestDouble / 2.0) && InHalfRange(MaxDouble / 2.0);
    }
  }

  /** The pruning rule of add_constraint_upper: dropped exactly when it admits the whole half range. */
  lemma UpperFreeIff(upper: real)
    ensures UpperIsFree(upper) <==> forall x | InHalfRange(x) :: Admits(LowestDouble, upper, x)
  {
    if forall x | InHalfRange(x) :: Admits(LowestDouble, upper, x) {
      assert InHalfRange(MaxDouble / 2.0);
    }
  }

  /** The pruning rule of add_constraint_lower: dropped exactly when it admits the whole half range. */
  lemma LowerFreeIff(lower: real)
    ensures LowerIsFree(lower) <==> forall x | InHalfRange(x) :: Admits(lower, MaxDouble, x)
  {
    if forall x | InHalfRange(x) :: Admits(lower, MaxDouble, x) {
      assert InHalfRange(LowestDouble / 2.0);
    }
  }

  /** The forwarded bounds of add_constraint_upper and add_constraint_lower never form a free constraint, nor does an equality. */
  lemma ForwardedNeverFree(lower: real, upper: real, value: real)
    ensures !UpperIsFree(upper) ==> !IsFree(LowestDouble, upper)
    ensures !LowerIsFree(lower) ==> !IsFree(lower, MaxDouble)
    ensures !IsFree(value, value)
  {
  }

  /** No collected constraint is one add_constraint would have dropped. */
  predicate NoFreeConstraint(m: Model)
    requires WellFormed(m)
  {
    forall i | 0 <= i < ConstraintCount(m) :: !IsFree(m.constraintLower[i], m.constraintUpper[i])
  }

  /** The interface only ever creates INTEGER and CONTINUOUS variables. */
  predicate NoBinary(m: Model) {
    forall i | 0 <= i < |m.variableType| :: m.variableType[i] != Binary
  }

  lemma RangeSnoc(n: nat)
    ensures Range(n) + [n] == Range(n + 1)
  {
    assert forall i | 0 <= i <= n :: (Range(n) + [n])[i] == i;
  }

  /**
   * get_solution: nothing when the back end has no solution, else the first
   * `n` values the back end points at, where `n` is the number of variables.
   */
  function CopySolution(pointer: Option<seq<real>>, n: nat): (r: seq<real>)
    requires pointer.Some? ==> n <= |pointer.value|
    ensures pointer.None? ==> r == []
    ensures pointer.Some? ==> |r| == n && forall i | 0 <= i < n :: r[i] == pointer.value[i]
  {
    if pointer.None? then [] else pointer.value[..n]
  }

  class SolverImpl {
    /** d_all_col_indices: `0..n-1` for the n variables added so far. */
    var allColIndices: seq<int>
    /** d_all_row_indices: `0..m-1` for the m constraints kept so far. */
    var allRowIndices: seq<int>
    /** d_start_solution. */
    var startSolution: seq<real>
    /** The back end the do_* calls reach. */
    const backend: Collect.Collector

    ghost predicate Valid()
      reads this, backend
    {
      && backend.Valid()
      && allColIndices == Range(VariableCount(backend.data.model))
      && allRowIndices == Range(ConstraintCount(backend.data.model))
      && NoFreeConstraint(backend.data.model)
      && NoBinary(backend.data.model)
    }

    constructor(defaults: Defaults)
      ensures Valid() && fresh(backend)
      ensures backend.data == DefaultProblem(defaults) && startSolution == []
    {
      allColIndices := [];
      allRowIndices := [];
      startSolution := [];
      backend := new Collect.Collector(defaults);
    }

    /** The collected data after adding one variable with the given column. */
    ghost function WithVariable(t: VariableType, objective: real, lower: real, upper: real,
                                column: seq<real>): Problem
      reads this, backend
      requires Valid() && |column| == ConstraintCount(backend.data.model)
    {
      backend.data.(model := AddVariable(backend.data.model, t, objective, lower, upper, column))
    }

    /** The collected data after adding one constraint with the given row. */
    ghost function WithConstraint(lower: real, upper: real, row: seq<real>): Problem
      reads this, backend
      requires Valid() && |row| == VariableCount(backend.data.model)
    {
      backend.data.(model := IlpData.AddConstraint(backend.data.model, lower, upper, row))
    }

    /** The sparse lists the sparse overloads accept for a new variable. */
    ghost predicate ColumnList(idx: seq<int>, vals: seq<real>)
      reads this, backend
      requires Valid()
    {
      |vals| == |idx| <= ConstraintCount(backend.data.model) && InRange(idx, ConstraintCount(backend.data.model))
    }

    /** The sparse lists the sparse overloads accept for a new constraint. */
    ghost predicate RowList(idx: seq<int>, vals: seq<real>)
      reads this, backend
      requires Valid()
    {
      |vals| == |idx| <= VariableCount(backend.data.model) && InRange(idx, VariableCount(backend.data.model))
    }

    /** add_variable_and_update_index_vector: record the new column index, then add the variable. */
    method AddVariableAndUpdateIndexVector(idx: seq<int>, vals: seq<real>, objective: real,
                                           lower: real, upper: real, t: VariableType)
      modifies this, backend
      requires Valid() && ColumnList(idx, vals) && t != Binary
      ensures Valid() && startSolution == old(startSolution)
      ensures backend.data == old(WithVariable(t, objective, lower, upper,
                                               Scatter(ConstraintCount(backend.data.model), idx, vals)))
    {
      RangeSnoc(|allColIndices|);
      allColIndices := allColIndices + [|allColIndices|];
      backend.AddVariableImpl(t, objective, lower, upper, Some(vals), Some(idx));
    }

    /** add_constraint_and_update_index_vector: record the new row index, then add the constraint. */
    method AddConstraintAndUpdateIndexVector(idx: seq<int>, vals: seq<real>, lower: real, upper: real)
      modifies this, backend
      requires Valid() && RowList(idx, vals) && !IsFree(lower, upper)
      ensures Valid() && startSolution == old(startSolution)
      ensures backend.data == old(WithConstraint(lower, upper, Scatter(VariableCount(backend.data.model), idx, vals)))
    {
      RangeSnoc(|allRowIndices|);
      allRowIndices := allRowIndices + [|allRowIndices|];
      backend.AddConstraintImpl(lower, upper, vals, Some(idx));
    }

    /** add_variable_boolean with a sparse column: an INTEGER variable bounded by 0 and 1. */
    method AddVariableBooleanSparse(idx: seq<int>, vals: seq<real>, objective: real)
      modifies this, backend
      requires Valid() && ColumnList(idx, vals)
      ensures Valid() && startSolution == old(startSolution)
      ensures backend.data == old(WithVariable(Integer, objective, 0.0, 1.0,
                                               Scatter(ConstraintCount(backend.data.model), idx, vals)))
    {
      AddVariableAndUpdateIndexVector(idx, vals, objective, 0.0, 1.0, Integer);
    }

    /** add_variable_boolean with a dense column over all constraints. */
    method AddVariableBooleanDense(vals: seq<real>, objective: real)
      modifies this, backend
      requires Valid() && |allRowIndices| == |vals|
      ensures Valid() && startSolution == old(startSolution)
      ensures backend.data == old(WithVariable(Integer, objective, 0.0, 1.0, vals))
    {
      ScatterRange(vals);
      AddVariableBooleanSparse(allRowIndices, vals, objective);
    }

    /** add_variable_boolean without coefficients: the new column is all zeros. */
    method AddVariableBoolean(objective: real)
      modifies this, backend
      requires Valid()
      ensures Valid() && startSolution == old(startSolution)
      ensures backend.data == old(WithVariable(Integer, objective, 0.0, 1.0, ZeroRow(ConstraintCount(backend.data.model))))
    {
      AddVariableBooleanSparse([], [], objective);
    }

    /** add_variable_integer with a sparse column. */
    method AddVariableIntegerSparse(idx: seq<int>, vals: seq<real>, objective: real, lower: real, upper: real)
      modifies this, backend
      requires Valid() && ColumnList(idx, vals)
      ensures Valid() && startSolution == old(startSolution)
      ensures backend.data == old(WithVariable(Integer, objective, lower, upper,
                                               Scatter(ConstraintCount(backend.data.model), idx, vals)))
    {
      AddVariableAndUpdateIndexVector(idx, vals, objective, lower, upper, Integer);
    }

    /** add_variable_integer with a dense column over all constraints. */
    method AddVariableIntegerDense(vals: seq<real>, objective: real, lower: real, upper: real)
      modifies this, backend
      requires Valid() && |allRowIndices| == |vals|
      ensures Valid() && startSolution == old(startSolution)
      ensures backend.data == old(WithVariable(Integer, objective, lower, upper, vals))
    {
      ScatterRange(vals);
      AddVariableIntegerSparse(allRowIndices, vals, objective, lower, upper);
    }

    /** add_variable_integer without coefficients. */
    method AddVariableInteger(objective: real, lower: real, upper: real)
      modifies this, backend
      requires Valid()
      ensures Valid() && startSolution == old(startSolution)
      ensures backend.data == old(WithVariable(Integer, objective, lower, upper, ZeroRow(ConstraintCount(backend.data.model))))
    {
      AddVariableIntegerSparse([], [], objective, lower, upper);
    }

    /** add_variable_continuous with a sparse column. */
    method AddVariableContinuousSparse(idx: seq<int>, vals: seq<real>, objective: real, lower: real, upper: real)
      modifies this, backend
      requires Valid() && ColumnList(idx, vals)
      ensures Valid() && startSolution == old(startSolution)
      ensures backend.data == old(WithVariable(Continuous, objective, lower, upper,
                                               Scatter(ConstraintCount(backend.data.model), idx, vals)))
    {
      AddVariableAndUpdateIndexVector(idx, vals, objective, lower, upper, Continuous);
    }

    /** add_variable_continuous with a dense column over all constraints. */
    method AddVariableContinuousDense(vals: seq<real>, objective: real, lower: real, upper: real)
      modifies this, backend
      requires Valid() && |allRowIndices| == |vals|
      ensures Valid() && startSolution == old(startSolution)
      ensures backend.data == old(WithVariable(Continuous, objective, lower, upper, vals))
    {
      ScatterRange(vals);
      AddVariableContinuousSparse(allRowIndices, vals, objective, lower, upper);
    }

    /** add_variable_continuous without coefficients. */
    method AddVariableContinuous(objective: real, lower: real, upper: real)
      modifies this, backend
      requires Valid()
      ensures Valid() && startSolution == old(startSolution)
      ensures backend.data == old(WithVariable(Continuous, objective, lower, upper, ZeroRow(ConstraintCount(backend.data.model))))
    {
      AddVariableContinuousSparse([], [], objective, lower, upper);
    }

    /** add_constraint with a sparse row: dropped when free on both sides. */
    method AddConstraintSparse(idx: seq<int>, vals: seq<real>, lower: real, upper: real)
      modifies this, backend
      requires Valid() && RowList(idx, vals)
      ensures Valid() && startSolution == old(startSolution)
      ensures IsFree(lower, upper) ==> backend.data == old(backend.data)
      ensures !IsFree(lower, upper) ==>
                backend.data == old(WithConstraint(lower, upper, Scatter(VariableCount(backend.data.model), idx, vals)))
    {
      if LowerIsFree(lower) && UpperIsFree(upper) {
        return;
      }
      AddConstraintAndUpdateIndexVector(idx, vals, lower, upper);
    }

    /** add_constraint with a dense row over all variables. */
    method AddConstraint(vals: seq<real>, lower: real, upper: real)
      modifies this, backend
      requires Valid() && |allColIndices| == |vals|
      ensures Valid() && startSolution == old(startSolution)
      ensures IsFree(lower, upper) ==> backend.data == old(backend.data)
      ensures !IsFree(lower, upper) ==> backend.data == old(WithConstraint(lower, upper, vals))
    {
      ScatterRange(vals);
      AddConstraintSparse(allColIndices, vals, lower, upper);
    }

    /** add_constraint_upper with a sparse row: dropped when the bound is free, else bounded below by lowest. */
    method AddConstraintUpperSparse(idx: seq<int>, vals: seq<real>, upper: real)
      modifies this, backend
      requires Valid() && RowList(idx, vals)
      ensures Valid() && startSolution == old(startSolution)
      ensures UpperIsFree(upper) ==> backend.data == old(backend.data)
      ensures !UpperIsFree(upper) ==>
                backend.data == old(WithConstraint(LowestDouble, upper, Scatter(VariableCount(backend.data.model), idx, vals)))
    {
      if UpperIsFree(upper) {
        return;
      }
      AddConstraintAndUpdateIndexVector(idx, vals, LowestDouble, upper);
    }

    /** add_constraint_upper with a dense row. */
    method AddConstraintUpper(vals: seq<real>, upper: real)
      modifies this, backend
      requires Valid() && |allColIndices| == |vals|
      ensures Valid() && startSolution == old(startSolution)
      ensures UpperIsFree(upper) ==> backend.data == old(backend.data)
      ensures !UpperIsFree(upper) ==> backend.data == old(WithConstraint(LowestDouble, upper, vals))
    {
      ScatterRange(vals);
      AddConstraintUpperSparse(allColIndices, vals, upper);
    }

    /** add_constraint_lower with a sparse row: dropped when the bound is free, else bounded above by max. */
    method AddConstraintLowerSparse(idx: seq<int>, vals: seq<real>, lower: real)
      modifies this, backend
      requires Valid() && RowList(idx, vals)
      ensures Valid() && startSolution == old(startSolution)
      ensures LowerIsFree(lower) ==> backend.data == old(backend.data)
      ensures !LowerIsFree(lower) ==>
                backend.data == old(WithConstraint(lower, MaxDouble, Scatter(VariableCount(backend.data.model), idx, vals)))
    {
      if LowerIsFree(lower) {
        return;
      }
      AddConstraintAndUpdateIndexVector(idx, vals, lower, MaxDouble);
    }

    /** add_constraint_lower with a dense row. */
    method AddConstraintLower(vals: seq<real>, lower: real)
      modifies this, backend
      requires Valid() && |allColIndices| == |vals|
      ensures Valid() && startSolution == old(startSolution)
      ensures LowerIsFree(lower) ==> backend.data == old(backend.data)
      ensures !LowerIsFree(lower) ==> backend.data == old(WithConstraint(lower, MaxDouble, vals))
    {
      ScatterRange(vals);
      AddConstraintLowerSparse(allColIndices, vals, lower);
    }

    /** add_constraint_equality with a sparse row: never dropped, both bounds equal the value. */
    method AddConstraintEqualitySparse(idx: seq<int>, vals: seq<real>, value: real)
      modifies this, backend
      requires Valid() && RowList(idx, vals)
      ensures Valid() && startSolution == old(startSolution)
      ensures backend.data == old(WithConstraint(value, value, Scatter(VariableCount(backend.data.model), idx, vals)))
    {
      AddConstraintAndUpdateIndexVector(idx, vals, value, value);
    }

    /** add_constraint_equality with a dense row. */
    method AddConstraintEquality(vals: seq<real>, value: real)
      modifies this, backend
      requires Valid() && |allColIndices| == |vals|
      ensures Valid() && startSolution == old(startSolution)
      ensures backend.data == old(WithConstraint(value, value, vals))
    {
      ScatterRange(vals);
      AddConstraintEqualitySparse(allColIndices, vals, value);
    }

    /** set_start_solution: kept until the next solve. */
    method SetStartSolution(solution: seq<real>)
      modifies this
      requires Valid()
      ensures Valid() && startSolution == solution
    {
      startSolution := solution;
    }

    /**
     * solve: the start solution goes to do_prepare_and_solve, which is not
     * part of this model, so it is returned; then it is discarded.
     */
    method Solve() returns (passed: seq<real>)
      modifies this
      requires Valid()
      ensures Valid() && passed == old(startSolution) && startSolution == []
    {
      passed := startSolution;
      startSolution := [];
    }

    /** minimize: set the sense, then solve. */
    method Minimize() returns (passed: seq<real>)
      modifies this, backend
      requires Valid()
      ensures Valid() && backend.data == old(backend.data).(objectiveSense := ObjectiveSense.Minimize)
      ensures passed == old(startSolution) && startSolution == []
    {
      backend.SetObjectiveSense(ObjectiveSense.Minimize);
      passed := Solve();
    }

    /** maximize: set the sense, then solve. */
    method Maximize() returns (passed: seq<real>)
      modifies this, backend
      requires Valid()
      ensures Valid() && backend.data == old(backend.data).(objectiveSense := ObjectiveSense.Maximize)
      ensures passed == old(startSolution) && startSolution == []
    {
      backend.SetObjectiveSense(ObjectiveSense.Maximize);
      passed := Solve();
    }

    /** get_solution: one value per variable added so far, or nothing when the back end has no solution. */
    function GetSolution(pointer: Option<seq<real>>): (r: seq<real>)
      reads this, backend
      requires pointer.Some? ==> |allColIndices| <= |pointer.value|
      ensures pointer.None? ==> r == []
      ensures Valid() && pointer.Some? ==> |r| == VariableCount(backend.data.model)
                                           && r == pointer.value[..VariableCount(backend.data.model)]
    {
      CopySolution(pointer, |allColIndices|)
    }

    /** set_default_parameters: threads, determinism, log level and time limit back to their defaults. */
    method SetDefaultParameters(defaults: Defaults)
      modifies backend
      requires Valid()
      ensures Valid()
      ensures backend.data == old(backend.data).(numThreads := defaults.numThreads,
                                                 deterministic := defaults.deterministic,
                                                 logLevel := defaults.logLevel,
                                                 maxSeconds := defaults.maxSeconds)
    {
      backend.SetNumThreads(defaults.numThreads);
      backend.SetDeterministicMode(defaults.deterministic);
      backend.SetLogLevel(defaults.logLevel);
      backend.SetMaxSeconds(defaults.maxSeconds);
    }
  }

  /** A start solution reaches exactly the next solve: the one after it gets none. */
  method StartSolutionIsUsedOnce(solver: SolverImpl, solution: seq<real>) returns (first: seq<real>, second: seq<real>)
    modifies solver, solver.backend
    requires solver.Valid()
    ensures first == solution && second == []
  {
    solver.SetStartSolution(solution);
    first := solver.Minimize();
    second := solver.Maximize();
  }
}
