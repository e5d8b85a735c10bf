# ScaiIlp core, modelled in Dafny

ScaiIlp puts one interface in front of several integer linear programming
solvers. Its own logic falls into five pieces, and this project models each.

1. **Cursor codec.** `MemoryAligner` writes scalars, vectors and vectors of
   vectors into a byte buffer and reads them back. Each vector is laid out
   as a header (reserved count, live count) followed by a payload. The same
   code runs in two modes:
   - over a growable buffer it owns, to learn how many bytes are needed;
   - over memory someone else provides, to write or read.

   A region can be reserved zeroed and patched later.
2. **Collectors.** `ILPSolverCollect` and its earlier revision record a
   problem in an `ILPData`. This is a constraint-major matrix plus parallel
   vectors for the objective, variable bounds, constraint bounds and
   variable types.
3. **Facades.** `ILPSolverImpl` and the earlier `ILPSolverInterface`
   normalise the add_variable and add_constraint overloads:
   - dense input becomes a full index list;
   - booleans become integers in [0, 1];
   - constraints that restrict nothing are dropped.

   The facades also keep the `0..n-1` index vectors and pass the start
   solution to exactly one solve.
4. **Orchestration.** In the parent, `ILPSolverStub` does four things:
   - presets the solution record;
   - starts the solver process with a quoted command line;
   - reads the record back only on exit code 0;
   - otherwise clears the solution vector and nothing else, so the objective
     stays preset and the status stays as the previous solve left it.

   `Stub.SolverStub` models that code as written. The corrected
   definitions next to it (`Stub.Solved`, `Stub.SolutionPointer`) belong to
   the findings below.

   In the child, `scai_ilp` rebuilds the problem through the facade, solves
   it, and maps failures to `SolverExitCode`s.
5. **Data model.** The enums, and the default and objective-sense
   constructors of `ILPData` and `ILPSolutionData`.

Modules, one per file:
- `Layout`, `LayoutLemmas`, `Serialization` and `Stream` cover the codec.
  - `Layout` gives the byte layout as pure functions.
  - `Serialization` is the `MemoryAligner` class. Its mutable offset, owned
    byte vector and foreign `array<byte>` each get a method proved against
    `Layout`.
  - `Stream` covers chains of `<<` and `>>`, and the two-pass
    simulate-then-write pattern.
- `Matrix` holds the sparse-list semantics (`Scatter`), proved against a
  last-write reference (`LastWrite`).
- `IlpData` is the data model.
- `Collect` and `LegacyCollect` are the two collectors, as classes over an
  `ILPData` field.
- `Facade` and `LegacyFacade` are the two facades. Each is a class over its
  index vectors and start solution, with its collector as back end.
- `Stub` is the parent side and `SolverProcess` the child side.

Doubles are `real`:
- `MaxDouble` is the exact value of the largest finite double, and
  `LowestDouble` is its negation.
- Only comparisons against halves of these constants are made.
- The NaN default objective is the constructor `QuietNaN` of `Double`.
- In the codec, doubles are opaque 8-byte scalars.

Where the sources of different revisions do not fit together, the model
joins them as follows:
- The production facade calls the production collector's
  `add_variable_impl` and `add_constraint_impl`, with the index list passed
  as present.
- `solve` returns the start solution it hands to `do_prepare_and_solve`,
  since no `do_prepare_and_solve` of the production collector is shown.
- The earlier interface's `minimize` and `maximize` take the thread,
  log-level and time-limit parameters that the earlier collector's
  `do_prepare_and_solve` expects.
- The seven parallel vectors of `ILPData` are grouped in a `Model` value
  inside both problem records.

Where the comment and the code disagree, the code is followed:
- The matrix is constraint-major, as the code builds it, although the
  comment in src/production/ilp_data.hpp:14-16 describes it the other way.
- Status ordinal 0 is `PROVEN_OPTIMAL`, so a zeroed status field reads as
  PROVEN_OPTIMAL.

## Model

| member | source | states |
|---|---|---|
| Layout.LittleEndianRoundTrip | src/serialization.hpp:189-225 | a scalar of k bytes written little-endian reads back as the same number whenever it fits in k bytes |
| Layout.LittleEndian | src/serialization.hpp:189-200 | a scalar of sizeof k occupies exactly k bytes |
| Layout.CountRoundTrip | src/serialization.hpp:233-236 | a vector count up to INT_MAX stored in a header int reads back unchanged |
| Layout.ReadCount | src/serialization.hpp:266-268 | a header count is read as the stored little-endian int when it is non-negative, at most INT_MAX; a negative one is reported as unreadable |
| Layout.Zeros | src/serialization.hpp:211 | the zero fill of memset: n bytes, all 0 |
| Layout.ZeroValues | src/serialization.hpp:314-316 | n freshly reserved values each read as the zero value of their shape |
| Layout.Header | src/serialization.hpp:233-236 | a vector header is two ints, 8 bytes |
| Layout.Resize | src/serialization.hpp:314-317 | std::vector::resize yields exactly n elements |
| Layout.DecodeSeq | src/serialization.hpp:314-316 | reading n consecutive values yields n values when it succeeds |
| Layout.Extend | src/serialization.hpp:36-37 | growing the owned buffer keeps its bytes and reaches at least the requested size |
| Layout.Place | src/serialization.hpp:194-198 | a write grows the buffer to exactly the larger of its size and the end of the write |
| LayoutLemmas.ScalarPayloadLength | src/serialization.hpp:237-239 | the payload of a vector of w-byte scalars is length·w bytes, written or reserved |
| LayoutLemmas.ReserveLength | src/serialization.hpp:247-261 | reserve_and_zero advances the cursor exactly as serialize would for the same value |
| LayoutLemmas.ReserveAllLength | src/serialization.hpp:295-305 | the same for a sequence of elements |
| LayoutLemmas.SameLayoutLength | src/serialization.hpp:233-236 | values with the same counts at every level encode to the same number of bytes |
| LayoutLemmas.SameLayoutAllLength | src/serialization.hpp:289-290 | the same for sequences of elements |
| LayoutLemmas.EncodeAllAppend | src/serialization.hpp:289-290 | writing elements one after another is writing their concatenation |
| LayoutLemmas.ReserveAllAppend | src/serialization.hpp:302-303 | the same for reserving |
| LayoutLemmas.EncodeAllSnoc | src/serialization.hpp:282-305 | the elements of a vector of vectors are written, or reserved, one after another: the first i + 1 are the first i followed by element i |
| LayoutLemmas.ScalarReservationIsZeros | src/serialization.hpp:254-259 | a reserved payload of scalars is all zero bytes |
| LayoutLemmas.HeaderRead | src/serialization.hpp:267-269 | the two counts written in a header are read back, followed by the payload |
| LayoutLemmas.EncodeHeaderOrder | src/serialization.hpp:230-244 | serialize writes a vector as the reserved count, then the live count, both its length, then its elements; a scalar as its own bytes |
| LayoutLemmas.ReserveHeaderOrder | src/serialization.hpp:247-261 | reserve_and_zero writes the reserved count (the capacity length), then a live count of 0, then the reserved elements; a scalar as zero bytes |
| LayoutLemmas.DecodeVectorShape | src/serialization.hpp:264-277 | a deserialized vector has exactly the live count of elements, and a vector of scalars moves the cursor past the whole reserved extent |
| LayoutLemmas.DecodeRefusesLargeCount | src/serialization.hpp:266-268 | a header holding a negative int count is outside what deserialize handles, and the model reports it as a failed read |
| LayoutLemmas.RoundTrip | src/serialization.hpp:230-319 | deserializing at the offset where serialize wrote a value yields that value and ends where the write ended |
| LayoutLemmas.RoundTripAll | src/serialization.hpp:308-319 | the same for the elements of a vector of vectors |
| LayoutLemmas.ZeroRead | src/serialization_t.cpp:274-283 | a reserved region reads back as a zero scalar or an empty vector, ending at the end of the reservation |
| LayoutLemmas.ZeroReadAll | src/serialization.hpp:308-319 | reserved elements of a vector of vectors read back as zero values |
| LayoutLemmas.PatchReservation | src/serialization.hpp:165-171 | serializing a value of the reserved layout at a reservation keeps the buffer size and reads back as that value |
| LayoutLemmas.PatchOutside | src/serialization.hpp:165-171 | that patch changes no byte outside the reservation |
| Serialization.MemoryAligner.Simulate | src/serialization.hpp:51 | the default aligner owns an empty buffer at offset 0 |
| Serialization.MemoryAligner.OnMemory | src/serialization.hpp:52 | the pointer aligner works on the given memory at offset 0 |
| Serialization.MemoryAligner.SetOffset | src/serialization.hpp:54-57 | set_offset moves the cursor and changes nothing else |
| Serialization.MemoryAligner.CurrentPosition | src/serialization.cpp:3-14 | the capture operators report the cursor position without moving it or writing |
| Serialization.MemoryAligner.RequiredBytes | src/serialization.hpp:60-65 | required_bytes is the owned buffer's size, and an error on foreign memory |
| Serialization.MemoryAligner.CopyMemory | src/serialization.hpp:68-73 | copy_memory copies exactly the owned bytes to the front of the destination, and is an error on foreign memory, leaving the destination alone |
| Serialization.MemoryAligner.Grow | src/serialization.hpp:194-196 | an owned buffer grows with zero bytes to the cursor, only when the cursor passes its end |
| Serialization.MemoryAligner.WriteAtCursor | src/serialization.hpp:192-199 | a write places its bytes at the old cursor, advances the cursor by their length and returns the old cursor |
| Serialization.MemoryAligner.SerializePod | src/serialization.hpp:189-200 | serialize of a scalar writes its sizeof bytes at the cursor and returns the old offset |
| Serialization.MemoryAligner.ReserveAndZeroPod | src/serialization.hpp:203-213 | reserve_and_zero of a scalar writes sizeof zero bytes and returns the old offset |
| Serialization.MemoryAligner.DeserializePod | src/serialization.hpp:216-225 | deserialize of a scalar reads the sizeof bytes at the cursor and advances past them |
| Serialization.MemoryAligner.WriteHeader | src/serialization.hpp:233-236 | the reserved count and the live count are written as two ints |
| Serialization.MemoryAligner.Serialize | src/serialization.hpp:230-244 | serialize writes exactly the layout of the value at the cursor, advances by its length and returns the old offset; vectors of vectors element by element (282-292) |
| Serialization.MemoryAligner.SerializeElements | src/serialization.hpp:289-290 | the loop over inner vectors writes their concatenated layouts |
| Serialization.MemoryAligner.ReserveAndZero | src/serialization.hpp:247-261 | reserve_and_zero writes reserved = capacity length, live = 0 and a zeroed payload, recursively for vectors of vectors (295-305) |
| Serialization.MemoryAligner.ReserveElements | src/serialization.hpp:302-303 | the loop over inner vectors reserves each in turn |
| Serialization.MemoryAligner.Deserialize | src/serialization.hpp:264-277 | deserialize returns the value the layout decodes to and moves the cursor past the reserved extent; vectors of vectors walk all reserved entries, then truncate (308-319) |
| Serialization.MemoryAligner.DeserializeElements | src/serialization.hpp:314-316 | the loop over inner vectors reads them in order |
| Serialization.MemoryAligner.SerializeAt | src/serialization.hpp:165-171 | at_offset sets the cursor, then serializes there |
| Serialization.MemoryAligner.DeserializeAt | src/serialization.hpp:174-180 | at_offset sets the cursor, then deserializes from there |
| Stream.WriteStep | src/serialization.hpp:104-136 | one `<<` writes its field at the cursor; a `reserve` records the offset it began at; a capture records the cursor without writing |
| Stream.WriteSteps | src/serialization_t.cpp:191-206 | a `<<` chain writes the concatenation of its fields and records each field's start |
| Stream.TwoPass | src/serialization_t.cpp:187-210 | simulating over an owned buffer, sizing memory by required_bytes and writing again fills the memory with exactly the chain's bytes, with the same recorded offsets |
| Stream.ReadStep | src/serialization.hpp:114-119 | one `>>` reads back the value its field holds; a capture reports the cursor (src/serialization.cpp:10-14) |
| Stream.ReadSteps | src/serialization_t.cpp:221-242 | a `>>` chain over the written bytes yields every written value, a zero value for every reservation, and the same positions the writer recorded |
| Stream.PatchReadsBack | src/serialization_t.cpp:248-271 | serializing a value of the reserved layout at a recorded position keeps the memory size and reads back as that value |
| Stream.ReservedField | src/serialization.hpp:131-136 | a reserved field holds its reservation bytes and ends where the reservation ends |
| Stream.PatchKeepsOthers | src/serialization_t.cpp:338-344 | such a patch leaves every other field of the chain holding its bytes |
| Matrix.ZeroRow | src/production/ilp_solver_collect.cpp:48-61 | the fresh row of n zeros a sparse append_row starts from |
| Matrix.Range | src/production/ilp_solver_impl.cpp:149-159 | the index vector `0..n-1` |
| Matrix.Scatter | src/production/ilp_solver_collect.cpp:48-61 | a sparse list laid over n zeros has length n |
| Matrix.LastWrite | src/ilp_solver_collect.cpp:31-44 | the last position listing an index, and none when it is not listed |
| Matrix.ScatterAt | src/ilp_solver_collect.cpp:31-44 | each entry of a sparse row is the value at the last list position naming it, and 0.0 when none does |
| Matrix.ScatterListed | src/production/ilp_solver_collect.cpp:22-38 | a listed index whose later positions do not repeat it holds its value |
| Matrix.ScatterUnlisted | src/production/ilp_solver_collect.cpp:22-38 | an unlisted index holds 0.0 |
| Matrix.ScatterRange | src/production/ilp_solver_impl.cpp:20-24 | a dense vector passed with the full index list `0..n-1` lands unchanged |
| Matrix.WithColumn | src/production/ilp_solver_collect.cpp:11-19 | appending a column adds exactly one trailing entry to every row |
| IlpData.StatusOrdinal | src/ilp_data.hpp:11 | the status ordinals are below 4 |
| IlpData.StatusFromOrdinal | src/ilp_data.hpp:11 | exactly the ordinals 0 to 3 name a status |
| IlpData.StatusRoundTrip | src/ilp_data.hpp:11 | every status is recovered from its ordinal |
| IlpData.StatusOrdinalRoundTrip | src/ilp_data.hpp:11 | every ordinal 0 to 3 is recovered from its status |
| IlpData.ZeroedStatusIsProvenOptimal | src/ilp_data.hpp:11 | a zero-filled status field reads as PROVEN_OPTIMAL |
| IlpData.AddVariable | src/production/ilp_solver_collect.cpp:82-110 | a new variable keeps the model well formed, adds one variable and no constraint, extends every row by its column entry and keeps the constraint bounds |
| IlpData.AddConstraint | src/production/ilp_solver_collect.cpp:113-133 | a new constraint keeps the model well formed, adds one row after the existing ones and keeps every per-variable vector |
| IlpData.ConstraintMajorShape | src/production/ilp_data.hpp:14-16 | in every well-formed model without variables a new constraint adds one empty row, and in every one without constraints a new variable leaves the matrix empty |
| IlpData.DefaultLegacyProblem | src/ilp_data.hpp:28-29 | the default ILPData is empty, minimises, and has threads 0, log level 0 and time limit max double |
| IlpData.DefaultProblem | src/production/ilp_data.hpp:33-39 | the default production ILPData is empty, minimises, has no start solution and carries the default parameters |
| IlpData.DefaultSolutionData | src/ilp_data.hpp:39-42 | the default solution record is empty, NaN, NO_SOLUTION |
| IlpData.SolutionDataFor | src/production/ilp_data.hpp:54-58 | the sense-taking record is empty, NO_SOLUTION, with a finite objective |
| IlpData.PresetObjectiveIsWorst | src/ilp_data.hpp:44-48 | the preset objective is at least as bad as every finite double for the sense, and is the only finite value that is |
| Collect.AppendColumnDense | src/production/ilp_solver_collect.cpp:11-19 | an empty matrix is unchanged; otherwise row i gains values[i] at its end |
| Collect.AppendColumnSparse | src/production/ilp_solver_collect.cpp:22-38 | an empty matrix is unchanged; otherwise every row gains one entry, the listed value or 0.0 |
| Collect.AppendRowDense | src/production/ilp_solver_collect.cpp:41-45 | the values become the new last row, the other rows unchanged |
| Collect.AppendRowSparse | src/production/ilp_solver_collect.cpp:48-61 | a new last row of n_cols entries, zero except the listed columns |
| Collect.NewColumn | src/production/ilp_solver_collect.cpp:82-110 | the column of a new variable has one entry per constraint |
| Collect.NewRow | src/production/ilp_solver_collect.cpp:113-133 | the row of a new constraint has one entry per variable |
| Collect.Infinity | src/production/ilp_solver_collect.cpp:76-79 | get_infinity_impl is (lowest, max): symmetric, finite, and bounding every finite double |
| Collect.Collector.constructor | src/production/ilp_data.hpp:33-39 | a collector starts from the default ILPData |
| Collect.Collector.NumConstraints | src/production/ilp_solver_collect.cpp:64-67 | get_num_constraints is the number of rows and of constraint bounds |
| Collect.Collector.NumVariables | src/production/ilp_solver_collect.cpp:70-73 | get_num_variables is the length of the objective, of the types and of every row |
| Collect.Collector.AddVariableImpl | src/production/ilp_solver_collect.cpp:82-110 | add_variable_impl adds one variable with its column, dense, sparse or zero, and changes nothing else |
| Collect.Collector.AddConstraintImpl | src/production/ilp_solver_collect.cpp:113-133 | add_constraint_impl adds one constraint with its row, dense or sparse, and changes nothing else |
| Collect.Collector.SetObjectiveSense | src/production/ilp_solver_collect.cpp:136-139 | stores the sense, nothing else changes |
| Collect.Collector.SetStartSolution | src/production/ilp_solver_collect.cpp:142-145 | stores the start solution, nothing else changes |
| Collect.Collector.SetNumThreads | src/production/ilp_solver_collect.cpp:148-151 | stores the thread count, nothing else changes |
| Collect.Collector.SetDeterministicMode | src/production/ilp_solver_collect.cpp:154-157 | stores the determinism flag, nothing else changes |
| Collect.Collector.SetLogLevel | src/production/ilp_solver_collect.cpp:160-163 | stores the log level, nothing else changes |
| Collect.Collector.SetMaxSeconds | src/production/ilp_solver_collect.cpp:166-169 | stores the time limit, nothing else changes |
| LegacyCollect.SparseColumn | src/ilp_solver_collect.cpp:12-28 | the column a variable gets: nothing while there are no constraints, else one entry per constraint, 0.0 where unlisted |
| LegacyCollect.LegacyCollector.constructor | src/ilp_data.hpp:28-29 | the earlier collector starts from the default ILPData |
| LegacyCollect.LegacyCollector.AddVariable | src/ilp_solver_collect.cpp:47-57 | do_add_variable requires as many values as indices and appends the column, objective, bounds and type |
| LegacyCollect.LegacyCollector.AddConstraint | src/ilp_solver_collect.cpp:60-70 | do_add_constraint appends a row sized by the current variable count and both bounds |
| LegacyCollect.LegacyCollector.SetObjectiveSense | src/ilp_solver_collect.cpp:73-76 | stores the sense |
| LegacyCollect.LegacyCollector.PrepareAndSolve | src/ilp_solver_collect.cpp:79-86 | stores threads, log level and time limit, then hands the collected data on |
| Facade.FreeIff | src/production/ilp_solver_impl.cpp:69-74 | add_constraint drops a constraint exactly when it admits every value within half the double range |
| Facade.UpperFreeIff | src/production/ilp_solver_impl.cpp:82-87 | add_constraint_upper drops exactly the bounds that admit the whole half range |
| Facade.LowerFreeIff | src/production/ilp_solver_impl.cpp:95-100 | add_constraint_lower drops exactly the bounds that admit the whole half range |
| Facade.ForwardedNeverFree | src/production/ilp_solver_impl.cpp:82-111 | what the one-sided and equality overloads forward is never a constraint add_constraint would drop |
| Facade.RangeSnoc | src/production/ilp_solver_impl.cpp:149-159 | pushing the current size onto `0..n-1` gives `0..n` |
| Facade.CopySolution | src/production/ilp_solver_impl.cpp:130-137 | no pointer gives an empty vector; a pointer gives its first n values |
| Facade.SolverImpl.constructor | src/production/ilp_solver_impl.cpp:11-13 | no variables, no constraints, no start solution |
| Facade.SolverImpl.AddVariableAndUpdateIndexVector | src/production/ilp_solver_impl.cpp:149-153 | appends the next column index and adds the variable, keeping the index vector `0..n-1` |
| Facade.SolverImpl.AddConstraintAndUpdateIndexVector | src/production/ilp_solver_impl.cpp:155-159 | appends the next row index and adds the constraint, keeping the index vector `0..m-1` |
| Facade.SolverImpl.AddVariableBooleanSparse | src/production/ilp_solver_impl.cpp:26-29 | a boolean is an integer variable with bounds 0 and 1 and the listed column |
| Facade.SolverImpl.AddVariableBooleanDense | src/production/ilp_solver_impl.cpp:20-24 | the dense boolean takes one value per constraint as its column |
| Facade.SolverImpl.AddVariableBoolean | src/production/ilp_solver_impl.cpp:15-18 | the boolean without coefficients has a zero column |
| Facade.SolverImpl.AddVariableIntegerSparse | src/production/ilp_solver_impl.cpp:42-45 | an integer variable with the given bounds and listed column |
| Facade.SolverImpl.AddVariableIntegerDense | src/production/ilp_solver_impl.cpp:36-40 | the dense overload takes one value per constraint as its column |
| Facade.SolverImpl.AddVariableInteger | src/production/ilp_solver_impl.cpp:31-34 | without coefficients, a zero column |
| Facade.SolverImpl.AddVariableContinuousSparse | src/production/ilp_solver_impl.cpp:58-61 | a continuous variable with the given bounds and listed column |
| Facade.SolverImpl.AddVariableContinuousDense | src/production/ilp_solver_impl.cpp:52-56 | the dense overload takes one value per constraint as its column |
| Facade.SolverImpl.AddVariableContinuous | src/production/ilp_solver_impl.cpp:47-50 | without coefficients, a zero column |
| Facade.SolverImpl.AddConstraintSparse | src/production/ilp_solver_impl.cpp:69-74 | a constraint free on both sides changes nothing; any other is added with its bounds |
| Facade.SolverImpl.AddConstraint | src/production/ilp_solver_impl.cpp:63-67 | the dense overload, with the same pruning |
| Facade.SolverImpl.AddConstraintUpperSparse | src/production/ilp_solver_impl.cpp:82-87 | a free upper bound changes nothing; otherwise the constraint is added with lower bound lowest |
| Facade.SolverImpl.AddConstraintUpper | src/production/ilp_solver_impl.cpp:76-80 | the dense overload, with the same pruning |
| Facade.SolverImpl.AddConstraintLowerSparse | src/production/ilp_solver_impl.cpp:95-100 | a free lower bound changes nothing; otherwise the constraint is added with upper bound max |
| Facade.SolverImpl.AddConstraintLower | src/production/ilp_solver_impl.cpp:89-93 | the dense overload, with the same pruning |
| Facade.SolverImpl.AddConstraintEqualitySparse | src/production/ilp_solver_impl.cpp:108-111 | always added, both bounds equal to the value |
| Facade.SolverImpl.AddConstraintEquality | src/production/ilp_solver_impl.cpp:102-106 | the dense overload, always added |
| Facade.SolverImpl.SetStartSolution | src/production/ilp_solver_impl.cpp:113-116 | stores the start solution |
| Facade.SolverImpl.Solve | src/production/ilp_solver_impl.cpp:161-165 | hands the start solution to the solve, then clears it |
| Facade.SolverImpl.Minimize | src/production/ilp_solver_impl.cpp:118-122 | sets MINIMIZE, then solves |
| Facade.SolverImpl.Maximize | src/production/ilp_solver_impl.cpp:124-128 | sets MAXIMIZE, then solves |
| Facade.SolverImpl.GetSolution | src/production/ilp_solver_impl.cpp:130-137 | empty without a back-end solution, else exactly one value per variable |
| Facade.SolverImpl.SetDefaultParameters | src/production/ilp_solver_impl.cpp:167-173 | threads, determinism, log level and time limit return to their defaults |
| Facade.StartSolutionIsUsedOnce | src/production/ilp_solver_impl.cpp:113-128 | a start solution reaches the next solve and not the one after |
| LegacyFacade.LegacyInterface.constructor | src/ilp_solver_interface_impl.cpp:7-15 | no variables, no constraints, empty index vectors |
| LegacyFacade.LegacyInterface.AllColIndices | src/ilp_solver_interface_impl.cpp:7-10 | all_col_indices is `0..n-1` for the n variables |
| LegacyFacade.LegacyInterface.AllRowIndices | src/ilp_solver_interface_impl.cpp:12-15 | all_row_indices is `0..m-1` for the m constraints |
| LegacyFacade.LegacyInterface.DenseColumn | src/ilp_solver_interface.cpp:15-19 | a dense column passed with all row indices lands unchanged |
| LegacyFacade.LegacyInterface.AddVariableAndUpdateIndexVector | src/ilp_solver_interface_impl.cpp:17-21 | pushes the next column index, then adds the variable |
| LegacyFacade.LegacyInterface.AddConstraintAndUpdateIndexVector | src/ilp_solver_interface_impl.cpp:23-27 | pushes the next row index, then adds the constraint |
| LegacyFacade.LegacyInterface.AddVariableBooleanSparse | src/ilp_solver_interface.cpp:21-24 | a boolean is an integer variable with bounds 0 and 1 |
| LegacyFacade.LegacyInterface.AddVariableBooleanDense | src/ilp_solver_interface.cpp:15-19 | the dense boolean with one value per constraint |
| LegacyFacade.LegacyInterface.AddVariableBoolean | src/ilp_solver_interface.cpp:10-13 | the boolean without coefficients |
| LegacyFacade.LegacyInterface.AddVariableIntegerSparse | src/ilp_solver_interface.cpp:37-40 | an integer variable with integer bounds |
| LegacyFacade.LegacyInterface.AddVariableIntegerDense | src/ilp_solver_interface.cpp:31-35 | the dense integer overload |
| LegacyFacade.LegacyInterface.AddVariableInteger | src/ilp_solver_interface.cpp:26-29 | the integer variable without coefficients |
| LegacyFacade.LegacyInterface.AddVariableContinuousSparse | src/ilp_solver_interface.cpp:53-56 | a continuous variable with its bounds |
| LegacyFacade.LegacyInterface.AddVariableContinuousDense | src/ilp_solver_interface.cpp:47-51 | the dense continuous overload |
| LegacyFacade.LegacyInterface.AddVariableContinuous | src/ilp_solver_interface.cpp:42-45 | the continuous variable without coefficients |
| LegacyFacade.LegacyInterface.AddConstraintSparse | src/ilp_solver_interface.cpp:64-67 | a two-sided constraint is always added |
| LegacyFacade.LegacyInterface.AddConstraint | src/ilp_solver_interface.cpp:58-62 | the dense overload, always added |
| LegacyFacade.LegacyInterface.AddConstraintUpperSparse | src/ilp_solver_interface.cpp:75-80 | dropped when upper ≥ 0.5·max, otherwise added with lower bound −max |
| LegacyFacade.LegacyInterface.AddConstraintUpper | src/ilp_solver_interface.cpp:69-73 | the dense overload, with the same pruning |
| LegacyFacade.LegacyInterface.AddConstraintLowerSparse | src/ilp_solver_interface.cpp:88-93 | dropped when lower ≤ −0.5·max, otherwise added with upper bound max |
| LegacyFacade.LegacyInterface.AddConstraintLower | src/ilp_solver_interface.cpp:82-86 | the dense overload, with the same pruning |
| LegacyFacade.LegacyInterface.AddConstraintEqualitySparse | src/ilp_solver_interface.cpp:101-104 | always added, both bounds equal to the value |
| LegacyFacade.LegacyInterface.AddConstraintEquality | src/ilp_solver_interface.cpp:95-99 | the dense overload, always added |
| LegacyFacade.LegacyInterface.Minimize | src/ilp_solver_interface.cpp:106-110 | sets MINIMIZE, then prepares and solves |
| LegacyFacade.LegacyInterface.Maximize | src/ilp_solver_interface.cpp:112-116 | sets MAXIMIZE, then prepares and solves |
| LegacyFacade.LegacyInterface.GetSolution | src/ilp_solver_interface.cpp:118-125 | empty without a back-end solution, else one value per variable |
| Stub.Quote | src/ilp_solver_stub.cpp:9-12 | the string between two double quotes |
| Stub.CommandLine | src/ilp_solver_stub.cpp:13 | the quoted executable, one space, the quoted shared-memory name |
| Stub.FirstQuote | src/ilp_solver_stub.cpp:9-12 | the first double quote from a position on, with none skipped |
| Stub.SplitCommandLine | src/ilp_solver_stub.cpp:13 | reading a line back as two quoted words yields quote-free words |
| Stub.FirstQuoteAt | src/ilp_solver_stub.cpp:9-12 | the search stops at the first quote |
| Stub.CommandLineRoundTrip | src/ilp_solver_stub.cpp:9-13 | names without double quotes are read back exactly from the command line |
| Stub.QuoteInNameIsAmbiguous | src/ilp_solver_stub.cpp:9-13 | with a double quote in a name, two different name pairs give the same command line |
| Stub.Resize | src/ilp_solver_stub.cpp:49 | resize gives n values, keeps the old ones in front, pads with zeros, and never shrinks the storage |
| Stub.Clear | src/ilp_solver_stub.cpp:55 | clear leaves no values but keeps the storage |
| Stub.Assign | src/ilp_solver_stub.cpp:57 | the record read back replaces the values |
| Stub.Data | src/ilp_solver_stub.cpp:24-27 | data() is null exactly when no storage was ever allocated |
| Stub.DefaultRecord | src/ilp_data.hpp:39-42 | a default record: nothing allocated, NaN, NO_SOLUTION |
| Stub.Prepared | src/ilp_solver_stub.cpp:44-51 | before the launch the objective is the preset for the sense and the solution has one slot per variable |
| Stub.SolvedAsWritten | src/ilp_solver_stub.cpp:42-58 | after do_solve: on exit 0 the record read back; otherwise an empty solution, the preset objective and the previous status |
| Stub.Solved | src/test/ilp_solver_interface_t.cpp:398-404 | the corrected do_solve: on exit 0 the record read back; otherwise an empty NO_SOLUTION record with the preset objective |
| Stub.SolutionPointerAsWritten | src/ilp_solver_stub.cpp:24-27 | data() is null exactly when no storage was ever allocated; otherwise the live values are at its front |
| Stub.SolutionPointer | src/test/ilp_solver_interface_t.cpp:398-404 | the corrected do_get_solution: null exactly when there are no live values, else the live values |
| Stub.StaleStatusAsWritten | src/ilp_solver_stub.cpp:53-55 | as written, a failed solve after a PROVEN_OPTIMAL one still reports PROVEN_OPTIMAL, with an empty solution |
| Stub.FailedSolveReportsNoSolution | src/test/ilp_solver_interface_t.cpp:398-408 | a failed solve reports NO_SOLUTION; as written it keeps the earlier status |
| Stub.ClearedSolutionStillReadAsWritten | src/ilp_solver_stub.cpp:24-27 | as written, a failed first solve leaves data() non-null, so get_solution copies one value per variable |
| Stub.FailedSolveHasNoSolution | src/test/ilp_solver_interface_t.cpp:403-404 | after a failed solve get_solution is empty |
| Stub.SuccessfulSolveReturnsReadBack | src/ilp_solver_stub.cpp:56-57 | after a successful solve get_solution returns the values read back, as written and as corrected |
| Stub.SolverStub.constructor | src/ilp_solver_stub.cpp:18-21 | stores the two names; the record is the default one |
| Stub.SolverStub.DoGetSolution | src/ilp_solver_stub.cpp:24-27 | data() of the stored solution: null only when nothing was ever allocated, else storage whose front is the live values |
| Stub.SolverStub.DoGetObjective | src/ilp_solver_stub.cpp:30-33 | the stored objective |
| Stub.SolverStub.DoGetStatus | src/ilp_solver_stub.cpp:36-39 | the stored status |
| Stub.SolverStub.DoSolve | src/ilp_solver_stub.cpp:42-58 | writes the prepared record, runs the quoted command line, and leaves the record that Stub.SolvedAsWritten gives |
| SolverProcess.Value | src/production/solver_exit_code.hpp:4-16 | ok = 0, uncaught_exception = 3, out_of_memory = 14142 and the rest consecutive |
| SolverProcess.FromValue | src/production/solver_exit_code.hpp:4-16 | exactly those values name a code |
| SolverProcess.ValueRoundTrip | src/production/solver_exit_code.hpp:4-16 | every code is recovered from its value, so the values are distinct |
| SolverProcess.FromValueRoundTrip | src/production/solver_exit_code.hpp:4-16 | every named value is recovered from its code |
| SolverProcess.OnlyOkIsZero | src/production/solver_exit_code.hpp:6 | only ok is 0 |
| SolverProcess.ModelPhase | src/production/scai_ilp.cpp:101-107 | building rethrows bad_alloc unchanged and anything else as ModelException |
| SolverProcess.SolvePhase | src/production/scai_ilp.cpp:109-116 | solving rethrows bad_alloc unchanged and anything else as SolverException |
| SolverProcess.ExitCodeFor | src/production/scai_ilp.cpp:135-138 | bad_alloc → out_of_memory, ModelException → model_error, SolverException → solver_error, anything else → shared_memory_error, never ok |
| SolverProcess.RunOkIff | src/production/scai_ilp.cpp:142-152 | the process exits with ok exactly when argc is 2 and no step throws |
| SolverProcess.BuildFailureCode | src/production/scai_ilp.cpp:97-107 | a failure while building gives out_of_memory for bad_alloc and model_error otherwise |
| SolverProcess.SolveFailureCode | src/production/scai_ilp.cpp:109-116 | a failure while solving gives out_of_memory for bad_alloc and solver_error otherwise |
| SolverProcess.UnusedCodes | src/production/scai_ilp.cpp:120-152 | uncaught_exception and forced_termination are never returned |
| SolverProcess.ParentSeesChildResult | src/ilp_solver_stub.cpp:53-57 | the parent's record is the child's result when the child exits ok; otherwise an empty solution, the preset objective and the previous status |
| SolverProcess.ParentSeesChildResultCorrected | src/test/ilp_solver_interface_t.cpp:398-404 | with the corrected do_solve, a child that does not exit ok leaves an empty NO_SOLUTION record with the preset objective |
| SolverProcess.ChildType | src/production/scai_ilp.cpp:37-40 | INTEGER stays integer; anything else is added as continuous |
| SolverProcess.WithVariables | src/production/scai_ilp.cpp:26-42 | adding the variables keeps the model well formed, adds exactly that many, and keeps the constraints and the absence of binaries |
| SolverProcess.WithConstraints | src/production/scai_ilp.cpp:45-57 | offering the rows keeps the variables, adds at most that many constraints, and adds no free one |
| SolverProcess.Rebuilt | src/production/scai_ilp.cpp:60-64 | the rebuilt model has the same variables, no more constraints, no binary and no free constraint |
| SolverProcess.Built | src/production/scai_ilp.cpp:67-72 | the child's data carries no start solution and the default determinism flag |
| SolverProcess.VariablesPrefix | src/production/scai_ilp.cpp:26-42 | without binaries, the variables come back in order with their objective, bounds and type |
| SolverProcess.VariablesOnly | src/production/scai_ilp.cpp:60-64 | the model after add_variables has no constraints |
| SolverProcess.ConstraintsPrefix | src/production/scai_ilp.cpp:45-57 | without free constraints, every row comes back in order |
| SolverProcess.ConstraintBoundsPrefix | src/production/scai_ilp.cpp:45-57 | without free constraints, every pair of bounds comes back in order |
| SolverProcess.RebuiltIff | src/production/scai_ilp.cpp:60-64 | the child rebuilds exactly the model it was sent if and only if it has no binary variable and no free constraint |
| SolverProcess.ChildReproducesParentData | src/production/scai_ilp.cpp:97-117 | a model collected through the production facade reaches the child's solver unchanged, with the same sense, threads, log level and time limit |
| SolverProcess.AddVariables | src/production/scai_ilp.cpp:26-42 | add_variables adds every variable in order, integer or continuous, with its objective and bounds |
| SolverProcess.AddConstraints | src/production/scai_ilp.cpp:45-57 | add_constraints offers every row in order with its bounds |
| SolverProcess.SetSolverParameters | src/production/scai_ilp.cpp:67-72 | threads, log level and time limit are set, nothing else |
| SolverProcess.SolveWithSense | src/production/scai_ilp.cpp:75-81 | MINIMIZE minimises, anything else maximises |
| SolverProcess.SolutionDataOf | src/production/scai_ilp.cpp:84-93 | the record copies the solver's solution, objective and status |
| SolverProcess.SolveIlp | src/production/scai_ilp.cpp:97-117 | a fresh solver ends up holding the rebuilt model, the sense and the three parameters, solved without a start solution |
| SolverProcess.SolvedRecord | src/production/scai_ilp.cpp:97-117 | the record written back has exactly one value per variable of the problem read |

## Left out

- Solver back ends (Cbc, Gurobi, SCIP, OSI): they are thin SDK adapters. In the solver process, the production collector stands in for the Cbc solver, so the model says what the solver is given, not what it computes.
- Shared-memory transport: its bodies are placeholders in this repository. The record read back in `Stub.SolverStub.DoSolve` is a parameter, and so is the exit code of the solver process. `std::system`, UTF-16 to UTF-8 conversion and SetErrorMode are OS calls and are not modelled.
- Floating point: doubles are reals with the exact largest-double constant; rounding of `0.5*max` is not modelled (it is exact in binary). NaN is a separate constructor, and no arithmetic on it happens.
- Integer widths: thread counts, log levels and the `(int)` casts of sizes are unbounded integers outside the codec; only the codec's 4-byte counts model the truncation to `int`.
- Names: the `p_name` arguments of every add_* overload are never stored, so they are not parameters of the model.
- `set_num_threads` of the earlier interface forwards to a `do_set_num_threads` that none of these files implement.
- `handle_bounds` is declared but its body is not part of this model.
- Serialization.MemoryAligner.RequiredBytes: on foreign memory the model returns an error value where the source throws std::logic_error; the caller sees an error in both cases.
- Stub.SolverStub.DoSolve: the stub is not modelled as a subclass of the collector; the collected problem is passed in.
- Stub.Resize: a reallocation gets exactly the requested storage; std::vector may reserve more, which changes nothing observable here.
- Layout.ReadCount: the deserializer does not check its counts; a negative count would make it resize to a huge size and copy from outside the buffer. The model reports such a header as a failed read instead of modelling that behaviour.
- SolverProcess.Run: the exception a step throws is an input; which step can throw what is not modelled.
- SolverProcess.Run: only the return paths of wmain are modelled; an exception while converting the argument to UTF-8 escapes wmain and ends the process through std::terminate, whose exit status (3 under the MSVC runtime) is not modelled.

## Findings

| source | as written | input that shows it | evidently intended | confidence | as-written member | corrected member |
|---|---|---|---|---|---|---|
| src/ilp_solver_stub.cpp:53-55 | a non-zero exit code clears the solution but leaves `solution_status` from the previous solve | a solve whose solver process reads back PROVEN_OPTIMAL, then a solve of the same stub whose process exits with model_error | a failed solve reports NO_SOLUTION (src/test/ilp_solver_interface_t.cpp:398-404) | not executed | Stub.StaleStatusAsWritten | Stub.FailedSolveReportsNoSolution |
| src/ilp_solver_stub.cpp:24-27 | `do_get_solution` returns `solution.data()`, which stays non-null after `clear()` once `resize` allocated storage, so get_solution (src/production/ilp_solver_impl.cpp:130-137) copies one stale value per variable | the first solve of a stub holding one variable, whose solver process exits with out_of_memory | get_solution is empty after a failed solve (src/test/ilp_solver_interface_t.cpp:404) | not executed | Stub.ClearedSolutionStillReadAsWritten | Stub.FailedSolveHasNoSolution |
