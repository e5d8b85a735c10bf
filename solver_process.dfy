/**
 * The solver process (src/production/scai_ilp.cpp and solver_exit_code.hpp):
 * it reads an ILPData from shared memory, rebuilds the problem through the
 * solver facade, solves it, writes the solution record back, and reports
 * the outcome as its exit code.  Exceptions are modelled as an optional
 * failure per step; the back end the facade feeds is the collector model,
 * standing in for the Cbc solver.
 */
module SolverProcess {
  import opened Wrappers
  import opened IlpData
  import opened Matrix
  import Facade
  import Stub

  // ---------------------------------------------------------------------------
  // Exit codes
  // ---------------------------------------------------------------------------

  datatype SolverExitCode =
    | Ok
    | UncaughtException
    | OutOfMemory
    | CommandLineError
    | SharedMemoryError
    | ModelError
    | SolverError
    | ForcedTermination

  /** The enumerator values: 0, 3, and 14142 upwards for the codes after out_of_memory. */
  function Value(c: SolverExitCode): (v: int)
    ensures v == 0 || v == 3 || 14142 <= v <= 14147
  {
    match c
    case Ok => 0
    case UncaughtException => 3
    case OutOfMemory => 14142
    case CommandLineError => 14143
    case SharedMemoryError => 14144
    case ModelError => 14145
    case SolverError => 14146
    case ForcedTermination => 14147
  }

  /** The code an exit value stands for, if any. */
  function FromValue(v: int): (r: Option<SolverExitCode>)
    ensures r.Some? <==> v == 0 || v == 3 || 14142 <= v <= 14147
  {
    if v == 0 then Some(Ok)
    else if v == 3 then Some(UncaughtException)
    else if v == 14142 then Some(OutOfMemory)
    else if v == 14143 then Some(CommandLineError)
    else if v == 14144 then Some(SharedMemoryError)
    else if v == 14145 then Some(ModelError)
    else if v == 14146 then Some(SolverError)
    else if v == 14147 then Some(ForcedTermination)
    else None
  }

  /** Every code is recovered from its value, so no two codes share a value. */
  lemma ValueRoundTrip(c: SolverExitCode)
    ensures FromValue(Value(c)) == Some(c)
  {
  }

  lemma FromValueRoundTrip(v: int)
    requires FromValue(v).Some?
    ensures Value(FromValue(v).value) == v
  {
  }

  /** Only ok is zero: the parent's success test and the child's success code agree. */
  lemma OnlyOkIsZero(c: SolverExitCode)
    ensures Value(c) == 0 <==> c == Ok
  {
  }

  // ---------------------------------------------------------------------------
  // Exceptions and the exit code they become
  // ---------------------------------------------------------------------------

  datatype Exception = BadAlloc | ModelException | SolverException | OtherException

  /** What building the problem rethrows: bad_alloc as it is, anything else as ModelException. */
  function ModelPhase(e: Exception): (r: Exception)
    ensures r == BadAlloc <==> e == BadAlloc
    ensures r == BadAlloc || r == ModelException
  {
    if e == BadAlloc then BadAlloc else ModelException
  }

  /** What solving rethrows: bad_alloc as it is, anything else as SolverException. */
  function SolvePhase(e: Exception): (r: Exception)
    ensures r == BadAlloc <==> e == BadAlloc
    ensures r == BadAlloc || r == SolverException
  {
    if e == BadAlloc then BadAlloc else SolverException
  }

  /** The exit code solve_ilp(shared memory name) returns for an exception reaching it. */
  function ExitCodeFor(e: Exception): (c: SolverExitCode)
    ensures c != Ok
    ensures c == OutOfMemory <==> e == BadAlloc
    ensures c == ModelError <==> e == ModelException
    ensures c == SolverError <==> e == SolverException
    ensures c == SharedMemoryError <==> e == OtherException
  {
    match e
    case BadAlloc => OutOfMemory
    case ModelException => ModelError
    case SolverException => SolverError
    case OtherException => SharedMemoryError
  }

  /**
   * The exit code wmain returns, given the argument count and what each step
   * throws: opening and reading shared memory, building the problem, solving
   * it, and writing the solution record.  Only the return paths are covered:
   * an exception while converting the argument to UTF-8 escapes wmain and
   * ends the process through std::terminate, whose exit status is not modelled.
   */
  function Run(argc: int, read: Option<Exception>, build: Option<Exception>,
               solve: Option<Exception>, write: Option<Exception>): SolverExitCode
  {
    if argc != 2 then CommandLineError
    else if read.Some? then ExitCodeFor(read.value)
    else if build.Some? then ExitCodeFor(ModelPhase(build.value))
    else if solve.Some? then ExitCodeFor(SolvePhase(solve.value))
    else if write.Some? then ExitCodeFor(write.value)
    else Ok
  }

  /** The process reports ok exactly when it has one argument and no step throws. */
  lemma RunOkIff(argc: int, read: Option<Exception>, build: Option<Exception>,
                 solve: Option<Exception>, write: Option<Exception>)
    ensures Run(argc, read, build, solve, write) == Ok <==>
            argc == 2 && read.None? && build.None? && solve.None? && write.None?
  {
  }

  /** A failure while building is reported as out_of_memory for bad_alloc and as model_error otherwise. */
  lemma BuildFailureCode(e: Exception, solve: Option<Exception>, write: Option<Exception>)
    ensures Run(2, None, Some(e), solve, write) == if e == BadAlloc then OutOfMemory else ModelError
  {
  }

  /** A failure while solving is reported as out_of_memory for bad_alloc and as solver_error otherwise. */
  lemma SolveFailureCode(e: Exception, write: Option<Exception>)
    ensures Run(2, None, None, Some(e), write) == if e == BadAlloc then OutOfMemory else SolverError
  {
  }

  /** uncaught_exception and forced_termination are declared but never returned by wmain itself. */
  lemma UnusedCodes(argc: int, read: Option<Exception>, build: Option<Exception>,
                    solve: Option<Exception>, write: Option<Exception>)
    ensures Run(argc, read, build, solve, write) != UncaughtException
    ensures Run(argc, read, build, solve, write) != ForcedTermination
  {
  }

  /**
   * Across the process boundary, as written: the parent's record shows the
   * child's solution exactly when the child reports ok; otherwise the solution
   * is empty, the objective is the preset one and the status is whatever the
   * previous solve left.
   */
  lemma ParentSeesChildResult(prev: Stub.Record, problem: Problem, readBack: SolutionData,
                              argc: int, read: Option<Exception>, build: Option<Exception>,
                              solve: Option<Exception>, write: Option<Exception>)
    requires Stub.RecordValid(prev)
    ensures var code := Value(Run(argc, read, build, solve, write));
            var r := Stub.SolvedAsWritten(prev, problem, code, readBack);
            Stub.Contents(r) == if argc == 2 && read.None? && build.None? && solve.None? && write.None?
                                then readBack
                                else SolutionData([], Stub.Preset(problem.objectiveSense), prev.status)
  {
    RunOkIff(argc, read, build, solve, write);
    OnlyOkIsZero(Run(argc, read, build, solve, write));
  }

  /**
   * The same with the corrected do_solve: a child that does not report ok
   * leaves an empty NO_SOLUTION record with the preset objective.
   */
  lemma ParentSeesChildResultCorrected(prev: Stub.Record, problem: Problem, readBack: SolutionData,
                                       argc: int, read: Option<Exception>, build: Option<Exception>,
                                       solve: Option<Exception>, write: Option<Exception>)
    requires Stub.RecordValid(prev)
    ensures var code := Value(Run(argc, read, build, solve, write));
            var r := Stub.Solved(prev, problem, code, readBack);
            Stub.Contents(r) == if argc == 2 && read.None? && build.None? && solve.None? && write.None?
                                then readBack
                                else SolutionData([], Stub.Preset(problem.objectiveSense), NoSolution)
  {
    RunOkIff(argc, read, build, solve, write);
    OnlyOkIsZero(Run(argc, read, build, solve, write));
  }

  // ---------------------------------------------------------------------------
  // Rebuilding the problem
  // ---------------------------------------------------------------------------

  /** The type add_variables asks for: integer stays integer, anything else becomes continuous. */
  function ChildType(t: VariableType): (r: VariableType)
    ensures r != Binary && (r == Integer <==> t == Integer)
    ensures t != Binary ==> r == t
  {
    match t
    case Integer => Integer
    case Continuous => Continuous
    case Binary => Continuous
  }

  /** `m` after add_variables has added the first `count` variables of `source`, each without coefficients. */
  function WithVariables(m: Model, source: Model, count: nat): (r: Model)
    requires WellFormed(m) && WellFormed(source) && count <= VariableCount(source)
    ensures WellFormed(r) && VariableCount(r) == VariableCount(m) + count
    ensures r.constraintLower == m.constraintLower && r.constraintUpper == m.constraintUpper
    ensures Facade.NoBinary(m) ==> Facade.NoBinary(r)
    decreases count
  {
    if count == 0 then m
    else
      var i := count - 1;
      AddVariable(WithVariables(m, source, i), ChildType(source.variableType[i]), source.objective[i],
                  source.variableLower[i], source.variableUpper[i], ZeroRow(ConstraintCount(m)))
  }

  /** `m` after add_constraints has offered the first `count` constraints of `source`; free ones are dropped. */
  function WithConstraints(m: Model, source: Model, count: nat): (r: Model)
    requires WellFormed(m) && WellFormed(source) && VariableCount(m) == VariableCount(source)
    requires count <= ConstraintCount(source)
    ensures WellFormed(r) && r.objective == m.objective && r.variableType == m.variableType
    ensures r.variableLower == m.variableLower && r.variableUpper == m.variableUpper
    ensures ConstraintCount(m) <= ConstraintCount(r) <= ConstraintCount(m) + count
    ensures Facade.NoFreeConstraint(m) ==> Facade.NoFreeConstraint(r)
    decreases count
  {
    if count == 0 then m
    else
      var i := count - 1;
      var p := WithConstraints(m, source, i);
      if Facade.IsFree(source.constraintLower[i], source.constraintUpper[i]) then p
      else AddConstraint(p, source.constraintLower[i], source.constraintUpper[i], source.matrix[i])
  }

  /** generate_ilp on a fresh solver: the variables, then the constraints of `source`. */
  function Rebuilt(source: Model): (r: Model)
    requires WellFormed(source)
    ensures WellFormed(r) && Facade.NoBinary(r) && Facade.NoFreeConstraint(r)
    ensures VariableCount(r) == VariableCount(source) && ConstraintCount(r) <= ConstraintCount(source)
  {
    WithConstraints(WithVariables(EmptyModel, source, VariableCount(source)), source, ConstraintCount(source))
  }

  /** The data the back end holds when the process solves: the rebuilt model, the sense and three of the parameters. */
  function Built(data: Problem, defaults: Defaults): (p: Problem)
    requires WellFormed(data.model)
    ensures p.startSolution == [] && p.deterministic == defaults.deterministic
  {
    DefaultProblem(defaults).(model := Rebuilt(data.model), objectiveSense := data.objectiveSense,
                              numThreads := data.numThreads, logLevel := data.logLevel,
                              maxSeconds := data.maxSeconds)
  }

  /** Without binary types, adding variables to an empty model lays down the prefix of `source`. */
  lemma {:induction false} VariablesPrefix(source: Model, count: nat)
    requires WellFormed(source) && Facade.NoBinary(source) && count <= VariableCount(source)
    ensures WithVariables(EmptyModel, source, count)
         == Model([], source.objective[..count], source.variableLower[..count], source.variableUpper[..count],
                  [], [], source.variableType[..count])
  {
    if count > 0 {
      var i := count - 1;
      VariablesPrefix(source, i);
      assert source.objective[..count] == source.objective[..i] + [source.objective[i]];
      assert source.variableLower[..count] == source.variableLower[..i] + [source.variableLower[i]];
      assert source.variableUpper[..count] == source.variableUpper[..i] + [source.variableUpper[i]];
      assert source.variableType[..count] == source.variableType[..i] + [source.variableType[i]];
    }
  }

  /** `m` with its constraints removed. */
  function VariablesOnly(m: Model): (r: Model)
    requires WellFormed(m)
    ensures WellFormed(r) && ConstraintCount(r) == 0 && VariableCount(r) == VariableCount(m)
  {
    m.(matrix := [], constraintLower := [], constraintUpper := [])
  }

  /** Without free constraints, offering the constraints keeps every row, in order. */
  lemma {:induction false} ConstraintsPrefix(source: Model, count: nat)
    requires WellFormed(source) && Facade.NoFreeConstraint(source) && count <= ConstraintCount(source)
    ensures WithConstraints(VariablesOnly(source), source, count).matrix == source.matrix[..count]
  {
    if count > 0 {
      var i := count - 1;
      ConstraintsPrefix(source, i);
      assert !Facade.IsFree(source.constraintLower[i], source.constraintUpper[i]);
      assert source.matrix[..count] == source.matrix[..i] + [source.matrix[i]];
    }
  }

  /** Without free constraints, offering the constraints keeps every pair of bounds, in order. */
  lemma {:induction false} ConstraintBoundsPrefix(source: Model, count: nat)
    requires WellFormed(source) && Facade.NoFreeConstraint(source) && count <= ConstraintCount(source)
    ensures var r := WithConstraints(VariablesOnly(source), source, count);
            r.constraintLower == source.constraintLower[..count] && r.constraintUpper == source.constraintUpper[..count]
  {
    if count > 0 {
      var i := count - 1;
      ConstraintBoundsPrefix(source, i);
      assert !Facade.IsFree(source.constraintLower[i], source.constraintUpper[i]);
      assert source.constraintLower[..count] == source.constraintLower[..i] + [source.constraintLower[i]];
      assert source.constraintUpper[..count] == source.constraintUpper[..i] + [source.constraintUpper[i]];
    }
  }

  /**
   * The solver process rebuilds exactly the model it was sent if and only
   * if that model has no binary variable and no free constraint, which is
   * what the parent's facade guarantees.
   */
  lemma RebuiltIff(source: Model)
    requires WellFormed(source)
    ensures Rebuilt(source) == source <==> Facade.NoBinary(source) && Facade.NoFreeConstraint(source)
  {
    if Facade.NoBinary(source) && Facade.NoFreeConstraint(source) {
      var n := VariableCount(source);
      var k := ConstraintCount(source);
      VariablesPrefix(source, n);
      assert source.objective[..n] == source.objective;
      assert source.variableLower[..n] == source.variableLower;
      assert source.variableUpper[..n] == source.variableUpper;
      assert source.variableType[..n] == source.variableType;
      ConstraintsPrefix(source, k);
      ConstraintBoundsPrefix(source, k);
      assert source.matrix[..k] == source.matrix;
      assert source.constraintLower[..k] == source.constraintLower;
      assert source.constraintUpper[..k] == source.constraintUpper;
    }
  }

  /** What the parent's facade collects comes back unchanged, apart from the determinism flag and the start solution. */
  lemma ChildReproducesParentData(data: Problem, defaults: Defaults)
    requires WellFormed(data.model) && Facade.NoBinary(data.model) && Facade.NoFreeConstraint(data.model)
    ensures Built(data, defaults) == data.(startSolution := [], deterministic := defaults.deterministic)
  {
    RebuiltIff(data.model);
  }

  // ---------------------------------------------------------------------------
  // The steps of solve_ilp(data)
  // ---------------------------------------------------------------------------

  /** add_variables: every variable of `data`, in order, as integer or continuous. */
  method AddVariables(solver: Facade.SolverImpl, data: Model)
    modifies solver, solver.backend
    requires solver.Valid() && WellFormed(data)
    ensures solver.Valid() && solver.startSolution == old(solver.startSolution)
    ensures solver.backend.data
         == old(solver.backend.data).(model := WithVariables(old(solver.backend.data.model), data, VariableCount(data)))
  {
    var i := 0;
    while i < |data.variableType|
      invariant 0 <= i <= VariableCount(data)
      invariant solver.Valid() && solver.startSolution == old(solver.startSolution)
      invariant solver.backend.data
             == old(solver.backend.data).(model := WithVariables(old(solver.backend.data.model), data, i))
    {
      if data.variableType[i] == Integer {
        solver.AddVariableInteger(data.objective[i], data.variableLower[i], data.variableUpper[i]);
      } else {
        solver.AddVariableContinuous(data.objective[i], data.variableLower[i], data.variableUpper[i]);
      }
      i := i + 1;
    }
  }

  /** add_constraints: every row of `data`, in order, with its bounds, through add_constraint. */
  method AddConstraints(solver: Facade.SolverImpl, data: Model)
    modifies solver, solver.backend
    requires solver.Valid() && WellFormed(data)
    requires VariableCount(solver.backend.data.model) == VariableCount(data)
    ensures solver.Valid() && solver.startSolution == old(solver.startSolution)
    ensures solver.backend.data
         == old(solver.backend.data).(model := WithConstraints(old(solver.backend.data.model), data, ConstraintCount(data)))
  {
    var i := 0;
    while i < |data.matrix|
      invariant 0 <= i <= ConstraintCount(data)
      invariant solver.Valid() && solver.startSolution == old(solver.startSolution)
      invariant solver.backend.data
             == old(solver.backend.data).(model := WithConstraints(old(solver.backend.data.model), data, i))
    {
      solver.AddConstraint(data.matrix[i], data.constraintLower[i], data.constraintUpper[i]);
      i := i + 1;
    }
  }

  /** set_solver_parameters: threads, log level and time limit; not the determinism flag. */
  method SetSolverParameters(solver: Facade.SolverImpl, data: Problem)
    modifies solver.backend
    requires solver.Valid()
    ensures solver.Valid()
    ensures solver.backend.data == old(solver.backend.data).(numThreads := data.numThreads, logLevel := data.logLevel,
                                                             maxSeconds := data.maxSeconds)
  {
    solver.backend.SetNumThreads(data.numThreads);
    solver.backend.SetLogLevel(data.logLevel);
    solver.backend.SetMaxSeconds(data.maxSeconds);
  }

  /** solve_ilp(solver, sense): minimize or maximize. */
  method SolveWithSense(solver: Facade.SolverImpl, sense: ObjectiveSense) returns (passed: seq<real>)
    modifies solver, solver.backend
    requires solver.Valid()
    ensures solver.Valid() && solver.backend.data == old(solver.backend.data).(objectiveSense := sense)
    ensures passed == old(solver.startSolution) && solver.startSolution == []
  {
    if sense == Minimize {
      passed := solver.Minimize();
    } else {
      passed := solver.Maximize();
    }
  }

  /** solution_data: the solver's solution, objective and status, copied into a record. */
  function SolutionDataOf(solver: Facade.SolverImpl, pointer: Option<seq<real>>,
                          objective: Double, status: SolutionStatus): (r: SolutionData)
    reads solver, solver.backend
    requires pointer.Some? ==> |solver.allColIndices| <= |pointer.value|
    ensures solver.Valid() && pointer.Some? ==> r.solution == pointer.value[..VariableCount(solver.backend.data.model)]
    ensures pointer.None? ==> r.solution == []
    ensures r.objective == objective && r.status == status
  {
    SolutionData(solver.GetSolution(pointer), objective, status)
  }

  /**
   * solve_ilp(data) when no step throws: a fresh solver receives the model,
   * the parameters and the sense, and is solved without a start solution.
   */
  method SolveIlp(data: Problem, defaults: Defaults) returns (solver: Facade.SolverImpl, passed: seq<real>)
    requires WellFormed(data.model)
    ensures fresh(solver) && solver.Valid()
    ensures solver.backend.data == Built(data, defaults) && passed == []
  {
    solver := new Facade.SolverImpl(defaults);
    AddVariables(solver, data.model);
    AddConstraints(solver, data.model);
    SetSolverParameters(solver, data);
    passed := SolveWithSense(solver, data.objectiveSense);
  }

  /**
   * The record the process writes back carries one value per variable of
   * the problem it read, whenever its solver has a solution: the length the
   * parent's get_solution copies.
   */
  method SolvedRecord(data: Problem, defaults: Defaults, pointer: seq<real>, objective: Double, status: SolutionStatus)
    returns (record: SolutionData)
    requires WellFormed(data.model) && VariableCount(data.model) <= |pointer|
    ensures |record.solution| == VariableCount(data.model) && record.solution == pointer[..VariableCount(data.model)]
    ensures record.objective == objective && record.status == status
  {
    var solver, _ := SolveIlp(data, defaults);
    record := SolutionDataOf(solver, Some(pointer), objective, status);
  }
}
