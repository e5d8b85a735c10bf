/**
 * The records the solver front end collects and hands to a solver, and the
 * enumerations they use (src/ilp_data.hpp and src/production/ilp_data.hpp).
 * Doubles are reals; the largest finite double is written out exactly, so
 * the limits the code compares against are the true IEEE values.
 */
module IlpData {
  import opened Wrappers
  import Layout
  import Matrix

  /** std::numeric_limits<double>::max(), i.e. (2 - 2^-52) * 2^1023. */
  const MaxDouble: real := 179769313486231570814527423731704356798070567525844996598917476803157260780028538760589558632766878171540458953514382464234321326889464182768467546703537516986049910576551282076245490090389328944075868508455133942304583236903222948165808559332123348274797826204144723168738177180919299881250404026184124858368.0

  /** std::numeric_limits<double>::lowest(), which is -max() for IEEE doubles. */
  const LowestDouble: real := -MaxDouble

  /** The production enumeration adds BINARY; the legacy one has only the first two. */
  datatype VariableType = Integer | Continuous | Binary

  datatype ObjectiveSense = Minimize | Maximize

  datatype SolutionStatus = ProvenOptimal | ProvenInfeasible | Suboptimal | NoSolution

  /** The objective value of a solution record; the default record holds a quiet NaN. */
  datatype Double = Number(value: real) | QuietNaN

  /** The integer a SolutionStatus is stored as: its declaration order. */
  function StatusOrdinal(s: SolutionStatus): (k: nat)
    ensures k < 4
  {
    match s
    case ProvenOptimal => 0
    case ProvenInfeasible => 1
    case Suboptimal => 2
    case NoSolution => 3
  }

  /** Reading a stored status back; integers outside the enumeration name no status. */
  function StatusFromOrdinal(k: int): (r: Option<SolutionStatus>)
    ensures r.Some? <==> 0 <= k < 4
  {
    if k == 0 then Some(ProvenOptimal)
    else if k == 1 then Some(ProvenInfeasible)
    else if k == 2 then Some(Suboptimal)
    else if k == 3 then Some(NoSolution)
    else None
  }

  lemma StatusRoundTrip(s: SolutionStatus)
    ensures StatusFromOrdinal(StatusOrdinal(s)) == Some(s)
  {
  }

  lemma StatusOrdinalRoundTrip(k: int)
    requires 0 <= k < 4
    ensures StatusOrdinal(StatusFromOrdinal(k).value) == k
  {
  }

  /**
   * A status field that was reserved and zero-filled but never written reads
   * back as PROVEN_OPTIMAL, the enumerator with ordinal 0, not NO_SOLUTION.
   */
  lemma ZeroedStatusIsProvenOptimal()
    ensures StatusFromOrdinal(Layout.FromLittleEndian(Layout.Zeros(Layout.IntSize))) == Some(ProvenOptimal)
  {
    var z := Layout.Zeros(Layout.IntSize);
    assert z[4..] == [];
    assert z[3..][1..] == z[4..];
    assert Layout.FromLittleEndian(z[3..]) == 0;
    assert z[2..][1..] == z[3..];
    assert Layout.FromLittleEndian(z[2..]) == 0;
    assert z[1..][1..] == z[2..];
    assert Layout.FromLittleEndian(z[1..]) == 0;
  }

  /**
   * The linear program itself: the seven parallel vectors both revisions of
   * ILPData share.  The matrix is constraint-major: one row per constraint,
   * one entry per variable.
   */
  datatype Model = Model(
    matrix: seq<seq<real>>,
    objective: seq<real>,
    variableLower: seq<real>,
    variableUpper: seq<real>,
    constraintLower: seq<real>,
    constraintUpper: seq<real>,
    variableType: seq<VariableType>)

  function VariableCount(m: Model): nat { |m.objective| }

  function ConstraintCount(m: Model): nat { |m.constraintLower| }

  /**
   * The shape every collected model keeps: one entry per variable in each
   * per-variable vector, one per constraint in each per-constraint vector
   * and in the matrix, and every row exactly as long as the variable count.
   */
  predicate WellFormed(m: Model) {
    && |m.variableLower| == |m.objective|
    && |m.variableUpper| == |m.objective|
    && |m.variableType| == |m.objective|
    && |m.constraintUpper| == |m.constraintLower|
    && |m.matrix| == |m.constraintLower|
    && forall i | 0 <= i < |m.matrix| :: |m.matrix[i]| == |m.objective|
  }

  const EmptyModel := Model([], [], [], [], [], [], [])

  /** The model with one more variable, whose coefficients in the existing constraints are `column`. */
  function AddVariable(m: Model, t: VariableType, objective: real, lower: real, upper: real,
                       column: seq<real>): (r: Model)
    requires WellFormed(m) && |column| == ConstraintCount(m)
    ensures WellFormed(r)
    ensures VariableCount(r) == VariableCount(m) + 1 && ConstraintCount(r) == ConstraintCount(m)
    ensures forall i | 0 <= i < ConstraintCount(m) ::
              r.matrix[i][..VariableCount(m)] == m.matrix[i] && r.matrix[i][VariableCount(m)] == column[i]
    ensures r.constraintLower == m.constraintLower && r.constraintUpper == m.constraintUpper
  {
    m.(matrix := Matrix.WithColumn(m.matrix, column),
       objective := m.objective + [objective],
       variableLower := m.variableLower + [lower],
       variableUpper := m.variableUpper + [upper],
       variableType := m.variableType + [t])
  }

  /** The model with one more constraint, whose coefficients are `row`. */
  function AddConstraint(m: Model, lower: real, upper: real, row: seq<real>): (r: Model)
    requires WellFormed(m) && |row| == VariableCount(m)
    ensures WellFormed(r)
    ensures ConstraintCount(r) == ConstraintCount(m) + 1 && VariableCount(r) == VariableCount(m)
    ensures r.matrix[..ConstraintCount(m)] == m.matrix && r.matrix[ConstraintCount(m)] == row
    ensures r.objective == m.objective && r.variableLower == m.variableLower
            && r.variableUpper == m.variableUpper && r.variableType == m.variableType
  {
    m.(matrix := m.matrix + [row],
       constraintLower := m.constraintLower + [lower],
       constraintUpper := m.constraintUpper + [upper])
  }

  /**
   * The matrix is constraint-major: in any model without variables a new
   * constraint is stored as one more empty row, while in any model without
   * constraints a new variable leaves the matrix empty, so the number of
   * variables is carried by the objective alone.
   */
  lemma ConstraintMajorShape(m: Model, t: VariableType, objective: real, lower: real, upper: real)
    requires WellFormed(m)
    ensures VariableCount(m) == 0 ==>
              var r := AddConstraint(m, lower, upper, []);
              r.matrix == m.matrix + [[]] && VariableCount(r) == 0
    ensures ConstraintCount(m) == 0 ==>
              var r := AddVariable(m, t, objective, lower, upper, []);
              r.matrix == [] && VariableCount(r) == VariableCount(m) + 1
  {
    if VariableCount(m) == 0 {
      var r := AddConstraint(m, lower, upper, []);
      assert r.matrix == r.matrix[..ConstraintCount(m)] + [r.matrix[ConstraintCount(m)]];
    }
  }

  /** ILPData of src/ilp_data.hpp. */
  datatype LegacyProblem = LegacyProblem(
    model: Model,
    objectiveSense: ObjectiveSense,
    numThreads: int,
    logLevel: int,
    maxSeconds: real)

  /** ILPData of src/production/ilp_data.hpp, which adds a start solution and a determinism flag. */
  datatype Problem = Problem(
    model: Model,
    objectiveSense: ObjectiveSense,
    startSolution: seq<real>,
    numThreads: int,
    deterministic: bool,
    logLevel: int,
    maxSeconds: real)

  /** The c_default_* solver parameters, which are defined outside the modelled files. */
  datatype Defaults = Defaults(numThreads: int, deterministic: bool, logLevel: int, maxSeconds: real)

  /** The default-constructed legacy ILPData: an empty model, minimisation, no thread or log setting, no time limit. */
  function DefaultLegacyProblem(): (p: LegacyProblem)
    ensures WellFormed(p.model) && VariableCount(p.model) == 0 && ConstraintCount(p.model) == 0
    ensures p.objectiveSense == Minimize
    ensures p.numThreads == 0 && p.logLevel == 0 && p.maxSeconds == MaxDouble
  {
    LegacyProblem(EmptyModel, Minimize, 0, 0, MaxDouble)
  }

  /** The default-constructed production ILPData: an empty model, minimisation, no start solution, the default parameters. */
  function DefaultProblem(d: Defaults): (p: Problem)
    ensures WellFormed(p.model) && VariableCount(p.model) == 0 && ConstraintCount(p.model) == 0
    ensures p.objectiveSense == Minimize && p.startSolution == []
    ensures Defaults(p.numThreads, p.deterministic, p.logLevel, p.maxSeconds) == d
  {
    Problem(EmptyModel, Minimize, [], d.numThreads, d.deterministic, d.logLevel, d.maxSeconds)
  }

  /** ILPSolutionData. */
  datatype SolutionData = SolutionData(solution: seq<real>, objective: Double, status: SolutionStatus)

  /** The default-constructed ILPSolutionData: no solution, a NaN objective, status NO_SOLUTION. */
  function DefaultSolutionData(): (s: SolutionData)
    ensures s.solution == [] && s.objective.QuietNaN? && s.status == NoSolution
  {
    SolutionData([], QuietNaN, NoSolution)
  }

  /** `x` is at least as good an objective value as `y` for the given sense. */
  predicate AtLeastAsGood(sense: ObjectiveSense, x: real, y: real) {
    if sense == Minimize then x <= y else x >= y
  }

  predicate Representable(x: real) {
    LowestDouble <= x <= MaxDouble
  }

  /** ILPSolutionData constructed for a sense: no solution yet, status NO_SOLUTION, and the worst objective value. */
  function SolutionDataFor(sense: ObjectiveSense): (s: SolutionData)
    ensures s.solution == [] && s.status == NoSolution && s.objective.Number?
    ensures Representable(s.objective.value)
  {
    SolutionData([], Number(if sense == Minimize then MaxDouble else LowestDouble), NoSolution)
  }

  /**
   * The preset objective is the worst representable value for the sense:
   * every representable objective is at least as good, and it is the only
   * representable value with that property.
   */
  lemma PresetObjectiveIsWorst(sense: ObjectiveSense, y: real)
    requires Representable(y)
    ensures forall x | Representable(x) :: AtLeastAsGood(sense, x, SolutionDataFor(sense).objective.value)
    ensures (forall x | Representable(x) :: AtLeastAsGood(sense, x, y))
            <==> y == SolutionDataFor(sense).objective.value
  {
    if forall x | Representable(x) :: AtLeastAsGood(sense, x, y) {
      if sense == Minimize {
        assert Representable(MaxDouble);
      } else {
        assert Representable(LowestDouble);
      }
    }
  }
}
