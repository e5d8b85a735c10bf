/**
 * ILPSolverStub (src/ilp_solver_stub.cpp): the parent side of a solve.  It
 * prepares the solution record, writes problem and record to shared memory,
 * starts the solver process with a quoted command line, and reads the record
 * back only when the process exits with 0.  Shared memory and the process
 * are not modelled: the exit code and the record read back are inputs.
 */
module Stub {
  import opened Wrappers
  import opened IlpData
  import Matrix
  import Facade

  // ---------------------------------------------------------------------------
  // Command line
  // ---------------------------------------------------------------------------

  function Quote(s: string): (r: string)
    ensures |r| == |s| + 2 && r[0] == '"' && r[|r| - 1] == '"' && r[1..|r| - 1] == s
  {
    "\"" + s + "\""
  }

  /** execute_solver's command line: the executable and the shared-memory name, each quoted, one space apart. */
  function CommandLine(executable: string, sharedMemory: string): (r: string)
    ensures |r| == |executable| + |sharedMemory| + 5
    ensures r[..|executable| + 2] == Quote(executable) && r[|executable| + 2] == ' '
    ensures r[|executable| + 3..] == Quote(sharedMemory)
  {
    Quote(executable) + " " + Quote(sharedMemory)
  }

  predicate NoQuote(s: string) {
    forall i | 0 <= i < |s| :: s[i] != '"'
  }

  /** The first double quote at or after `from`, or |s| when there is none. */
  function FirstQuote(s: string, from: nat): (k: nat)
    requires from <= |s|
    ensures from <= k <= |s| && (k < |s| ==> s[k] == '"')
    ensures forall j | from <= j < k :: s[j] != '"'
    decreases |s| - from
  {
    if from == |s| || s[from] == '"' then from else FirstQuote(s, from + 1)
  }

  /** Reading a command line back as two quoted words separated by one space. */
  function SplitCommandLine(line: string): (r: Option<(string, string)>)
    ensures r.Some? ==> NoQuote(r.value.0) && NoQuote(r.value.1)
  {
    if |line| < 2 || line[0] != '"' then None
    else
      var k := FirstQuote(line, 1);
      if k + 3 <= |line| && line[k + 1] == ' ' && line[k + 2] == '"' then
        var e := FirstQuote(line, k + 3);
        if e == |line| - 1 then Some((line[1..k], line[k + 3..e])) else None
      else None
  }

  /** FirstQuote finds a quote preceded only by other characters. */
  lemma {:induction false} FirstQuoteAt(s: string, from: nat, k: nat)
    requires from <= k < |s| && s[k] == '"'
    requires forall j | from <= j < k :: s[j] != '"'
    ensures FirstQuote(s, from) == k
    decreases k - from
  {
    if from < k {
      FirstQuoteAt(s, from + 1, k);
    }
  }

  /** Names without double quotes survive the quoting: the solver process sees exactly the two names. */
  lemma CommandLineRoundTrip(executable: string, sharedMemory: string)
    requires NoQuote(executable) && NoQuote(sharedMemory)
    ensures SplitCommandLine(CommandLine(executable, sharedMemory)) == Some((executable, sharedMemory))
  {
    var line := CommandLine(executable, sharedMemory);
    var n := |executable|;
    var e := |line| - 1;
    assert line[1..n + 1] == executable;
    assert line[n + 4..e] == sharedMemory;
    forall j | 1 <= j < n + 1
      ensures line[j] != '"'
    {
      assert line[j] == line[1..n + 1][j - 1];
    }
    FirstQuoteAt(line, 1, n + 1);
    forall j | n + 4 <= j < e
      ensures line[j] != '"'
    {
      assert line[j] == line[n + 4..e][j - n - 4];
    }
    FirstQuoteAt(line, n + 4, e);
  }

  /** Quoting is not injective once a name contains a double quote. */
  lemma QuoteInNameIsAmbiguous()
    ensures CommandLine("a\" \"b", "c") == CommandLine("a", "b\" \"c")
  {
  }

  // ---------------------------------------------------------------------------
  // The solution record and its vector storage
  // ---------------------------------------------------------------------------

  /**
   * A std::vector<double>: `size` live values at the front of `buffer`, the
   * allocated storage; the rest of the buffer holds earlier values.
   */
  datatype DoubleVector = DoubleVector(buffer: seq<real>, size: nat)

  predicate VectorValid(v: DoubleVector) {
    v.size <= |v.buffer|
  }

  function Items(v: DoubleVector): seq<real>
    requires VectorValid(v)
  {
    v.buffer[..v.size]
  }

  /** resize(n): keep the first n values, append zeros, reallocate only when the storage is too small. */
  function Resize(v: DoubleVector, n: nat): (r: DoubleVector)
    requires VectorValid(v)
    ensures VectorValid(r) && r.size == n && |r.buffer| >= |v.buffer|
    ensures forall i | 0 <= i < n :: Items(r)[i] == if i < v.size then Items(v)[i] else 0.0
  {
    var items := if n <= v.size then v.buffer[..n] else Items(v) + Matrix.ZeroRow(n - v.size);
    DoubleVector(if n <= |v.buffer| then items + v.buffer[n..] else items, n)
  }

  /** clear(): no live values, the storage is kept. */
  function Clear(v: DoubleVector): (r: DoubleVector)
    ensures r.size == 0 && r.buffer == v.buffer
  {
    DoubleVector(v.buffer, 0)
  }

  /** Copy assignment of `items`, reusing the storage when it is large enough. */
  function Assign(v: DoubleVector, items: seq<real>): (r: DoubleVector)
    requires VectorValid(v)
    ensures VectorValid(r) && Items(r) == items && |r.buffer| >= |v.buffer|
  {
    DoubleVector(if |items| <= |v.buffer| then items + v.buffer[|items|..] else items, |items|)
  }

  /** data(): the storage, or a null pointer when nothing was ever allocated. */
  function Data(v: DoubleVector): (r: Option<seq<real>>)
    ensures r.None? <==> |v.buffer| == 0
  {
    if |v.buffer| == 0 then None else Some(v.buffer)
  }

  /** d_ilp_solution_data with the storage of its solution vector. */
  datatype Record = Record(solution: DoubleVector, objective: Double, status: SolutionStatus)

  predicate RecordValid(r: Record) {
    VectorValid(r.solution)
  }

  /** The record as the caller sees it. */
  function Contents(r: Record): SolutionData
    requires RecordValid(r)
  {
    SolutionData(Items(r.solution), r.objective, r.status)
  }

  /** A default-constructed ILPSolutionData: nothing allocated, NaN objective, NO_SOLUTION. */
  function DefaultRecord(): (r: Record)
    ensures RecordValid(r) && Contents(r) == DefaultSolutionData() && Data(r.solution).None?
  {
    Record(DoubleVector([], 0), QuietNaN, NoSolution)
  }

  /** The worst objective for the sense, which do_solve presets. */
  function Preset(sense: ObjectiveSense): Double {
    SolutionDataFor(sense).objective
  }

  /** The record do_solve writes to shared memory: preset objective, one zeroed slot per variable. */
  function Prepared(prev: Record, problem: Problem): (r: Record)
    requires RecordValid(prev)
    ensures RecordValid(r) && r.solution.size == VariableCount(problem.model)
    ensures r.objective == Preset(problem.objectiveSense) && r.status == prev.status
  {
    prev.(objective := Preset(problem.objectiveSense),
          solution := Resize(prev.solution, VariableCount(problem.model)))
  }

  /**
   * The record after do_solve as written: the record read back on exit code 0;
   * otherwise the solution is cleared, the objective stays preset and the
   * status stays whatever the previous solve left.
   */
  function SolvedAsWritten(prev: Record, problem: Problem, exitCode: int, readBack: SolutionData): (r: Record)
    requires RecordValid(prev)
    ensures RecordValid(r)
    ensures exitCode != 0 ==> Contents(r) == SolutionData([], Preset(problem.objectiveSense), prev.status)
    ensures exitCode != 0 ==> |r.solution.buffer| >= VariableCount(problem.model)
    ensures exitCode == 0 ==> Contents(r) == readBack
  {
    var p := Prepared(prev, problem);
    if exitCode != 0 then p.(solution := Clear(p.solution))
    else Record(Assign(p.solution, readBack.solution), readBack.objective, readBack.status)
  }

  /**
   * The record after do_solve as evidently intended: a failed run is reported
   * as NO_SOLUTION, as the interface tests expect.
   */
  function Solved(prev: Record, problem: Problem, exitCode: int, readBack: SolutionData): (r: Record)
    requires RecordValid(prev)
    ensures RecordValid(r)
    ensures exitCode != 0 ==> Contents(r) == SolutionData([], Preset(problem.objectiveSense), NoSolution)
    ensures exitCode == 0 ==> Contents(r) == readBack
  {
    var p := Prepared(prev, problem);
    if exitCode != 0 then p.(solution := Clear(p.solution), status := NoSolution)
    else Record(Assign(p.solution, readBack.solution), readBack.objective, readBack.status)
  }

  /**
   * do_get_solution as written: the vector's data(), null only when nothing
   * was ever allocated; the live values are at its front.
   */
  function SolutionPointerAsWritten(r: Record): (p: Option<seq<real>>)
    requires RecordValid(r)
    ensures p.None? <==> |r.solution.buffer| == 0
    ensures p.Some? ==> r.solution.size <= |p.value| && p.value[..r.solution.size] == Items(r.solution)
  {
    Data(r.solution)
  }

  /** do_get_solution as evidently intended: null when there are no live values, else the live values. */
  function SolutionPointer(r: Record): (p: Option<seq<real>>)
    requires RecordValid(r)
    ensures p.None? <==> r.solution.size == 0
    ensures p.Some? ==> p.value == Items(r.solution)
  {
    if r.solution.size == 0 then None else Some(Items(r.solution))
  }

  /**
   * As written, a failed solve after a successful one keeps the earlier
   * PROVEN_OPTIMAL status next to an empty solution and a preset objective.
   */
  lemma StaleStatusAsWritten(problem: Problem, readBack: SolutionData, exitCode: int)
    requires readBack.status == ProvenOptimal && exitCode != 0
    ensures var first := SolvedAsWritten(DefaultRecord(), problem, 0, readBack);
            var second := SolvedAsWritten(first, problem, exitCode, readBack);
            second.status == ProvenOptimal && second.solution.size == 0
            && second.objective == Preset(problem.objectiveSense)
  {
  }

  /** With the status reset, a failed solve reports NO_SOLUTION whatever came before. */
  lemma FailedSolveReportsNoSolution(prev: Record, problem: Problem, exitCode: int, readBack: SolutionData)
    requires RecordValid(prev) && exitCode != 0
    ensures Solved(prev, problem, exitCode, readBack).status == NoSolution
    ensures SolvedAsWritten(prev, problem, exitCode, readBack).status == prev.status
  {
  }

  /**
   * As written, the first solve of a problem with variables that fails still
   * hands get_solution a non-null pointer (the cleared vector keeps its
   * storage), so get_solution returns one stale value per variable instead
   * of nothing.
   */
  lemma ClearedSolutionStillReadAsWritten(problem: Problem, exitCode: int, readBack: SolutionData)
    requires exitCode != 0 && VariableCount(problem.model) > 0
    ensures var r := SolvedAsWritten(DefaultRecord(), problem, exitCode, readBack);
            var n := VariableCount(problem.model);
            Items(r.solution) == []
            && SolutionPointerAsWritten(r).Some? && n <= |SolutionPointerAsWritten(r).value|
            && |Facade.CopySolution(SolutionPointerAsWritten(r), n)| == n
  {
  }

  /** With the emptiness test, a failed solve leaves get_solution nothing to copy, however many variables there are. */
  lemma FailedSolveHasNoSolution(prev: Record, problem: Problem, exitCode: int, readBack: SolutionData, n: nat)
    requires RecordValid(prev) && exitCode != 0
    ensures var r := Solved(prev, problem, exitCode, readBack);
            SolutionPointer(r).None? && Facade.CopySolution(SolutionPointer(r), n) == []
  {
  }

  /**
   * After a successful solve get_solution returns the values read back, when
   * there is one per variable, both as written and as intended.
   */
  lemma SuccessfulSolveReturnsReadBack(prev: Record, problem: Problem, readBack: SolutionData)
    requires RecordValid(prev) && |readBack.solution| == VariableCount(problem.model) > 0
    ensures var r := Solved(prev, problem, 0, readBack);
            Facade.CopySolution(SolutionPointer(r), VariableCount(problem.model)) == readBack.solution
    ensures var r := SolvedAsWritten(prev, problem, 0, readBack);
            Facade.CopySolution(SolutionPointerAsWritten(r), VariableCount(problem.model)) == readBack.solution
  {
  }

  class SolverStub {
    /** d_executable_name. */
    const executableName: string
    /** d_shared_memory_name. */
    const sharedMemoryName: string
    /** d_ilp_solution_data. */
    var record: Record

    ghost predicate Valid()
      reads this
    {
      RecordValid(record)
    }

    constructor(executable: string, sharedMemory: string)
      ensures Valid() && executableName == executable && sharedMemoryName == sharedMemory
      ensures record == DefaultRecord()
    {
      executableName := executable;
      sharedMemoryName := sharedMemory;
      record := DefaultRecord();
    }

    /** do_get_solution: data() of the stored solution, which may run past its live values. */
    function DoGetSolution(): (p: Option<seq<real>>)
      reads this
      requires Valid()
      ensures p.None? <==> |record.solution.buffer| == 0
      ensures p.Some? ==> |Contents(record).solution| <= |p.value|
                          && p.value[..|Contents(record).solution|] == Contents(record).solution
    {
      SolutionPointerAsWritten(record)
    }

    /** do_get_objective. */
    function DoGetObjective(): (o: Double)
      reads this
      requires Valid()
      ensures o == Contents(record).objective
    {
      record.objective
    }

    /** do_get_status. */
    function DoGetStatus(): (s: SolutionStatus)
      reads this
      requires Valid()
      ensures s == Contents(record).status
    {
      record.status
    }

    /**
     * do_solve: preset the objective, give the solution one slot per
     * variable, write both records, run the solver process, and read the
     * record back only on exit code 0; any other exit code only clears the
     * solution.  Returns the record written and the command line run.
     */
    method DoSolve(problem: Problem, exitCode: int, readBack: SolutionData)
      returns (written: SolutionData, commandLine: string)
      modifies this
      requires Valid()
      ensures Valid() && record == SolvedAsWritten(old(record), problem, exitCode, readBack)
      ensures written == Contents(Prepared(old(record), problem))
      ensures commandLine == CommandLine(executableName, sharedMemoryName)
    {
      record := record.(objective := Preset(problem.objectiveSense));
      record := record.(solution := Resize(record.solution, VariableCount(problem.model)));
      written := Contents(record);
      commandLine := CommandLine(executableName, sharedMemoryName);
      if exitCode != 0 {
        record := record.(solution := Clear(record.solution));
      } else {
        record := Record(Assign(record.solution, readBack.solution), readBack.objective, readBack.status);
      }
    }
  }
}
