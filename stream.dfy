/**
 * Chains of `<<` and `>>` over one MemoryAligner (src/serialization.hpp), and the
 * two-pass pattern its users follow: a first pass over an owned buffer only learns
 * the number of bytes, a second pass writes into memory of exactly that size, and a
 * reader walking the same fields finds every value, every reserved region zeroed and
 * every remembered position where the writer left it.
 */
module Stream {
  import opened Wrappers
  import opened Layout
  import opened LayoutLemmas
  import opened Serialization

  /** One field of a chain. */
  datatype Step =
    | Write(shape: Shape, value: Value)        // `<< x`
    | Reserve(shape: Shape, capacity: Value)   // `<< store_offset(reserve(x), pos)`
    | Capture                                  // `<< current_address(p)`

  predicate StepShaped(s: Step)
  {
    match s
    case Write(t, v) => HasShape(v, t)
    case Reserve(t, c) => HasShape(c, t)
    case Capture => true
  }

  predicate WellShaped(steps: seq<Step>)
  {
    forall i | 0 <= i < |steps| :: StepShaped(steps[i])
  }

  /** The bytes one field occupies. */
  function StepBytes(s: Step): seq<byte>
  {
    match s
    case Write(_, v) => Encode(v)
    case Reserve(_, c) => ReserveBytes(c)
    case Capture => []
  }

  /** The bytes of each field of a chain, in order. */
  function Blocks(steps: seq<Step>): (r: seq<seq<byte>>)
    ensures |r| == |steps|
  {
    seq(|steps|, i requires 0 <= i < |steps| => StepBytes(steps[i]))
  }

  /** The first `n` blocks laid end to end. */
  function Concat(blocks: seq<seq<byte>>, n: nat): seq<byte>
    requires n <= |blocks|
  {
    if n == 0 then [] else Concat(blocks, n - 1) + blocks[n - 1]
  }

  /** Where block `k` starts when the blocks are laid end to end from 0. */
  function Start(blocks: seq<seq<byte>>, k: nat): nat
    requires k <= |blocks|
  {
    |Concat(blocks, k)|
  }

  /** The bytes of the first `n` fields of a chain. */
  function FrameTo(steps: seq<Step>, n: nat): seq<byte>
    requires n <= |steps|
  {
    Concat(Blocks(steps), n)
  }

  /** Where field `k` of a chain written from position 0 starts. */
  function FieldStart(steps: seq<Step>, k: nat): nat
    requires k <= |steps|
  {
    Start(Blocks(steps), k)
  }

  /** The bytes of a whole chain. */
  function Frame(steps: seq<Step>): seq<byte>
  {
    FrameTo(steps, |steps|)
  }

  /** The position a field records, if it records one. */
  function StepMarks(s: Step, pos: nat): seq<nat>
  {
    if s.Write? then [] else [pos]
  }

  /** The positions the first `n` fields of a chain started at `pos` record, in order. */
  function MarksTo(steps: seq<Step>, n: nat, pos: nat): seq<nat>
    requires n <= |steps|
  {
    if n == 0 then []
    else MarksTo(steps, n - 1, pos) + StepMarks(steps[n - 1], pos + FieldStart(steps, n - 1))
  }

  /** What a reader of one field gets back: the value written, or a zero value. */
  function StepRead(s: Step): seq<Value>
  {
    match s
    case Write(_, v) => [v]
    case Reserve(t, _) => [ZeroValue(t)]
    case Capture => []
  }

  /** What a reader of the first `n` fields gets back. */
  function ExpectedTo(steps: seq<Step>, n: nat): seq<Value>
    requires n <= |steps|
  {
    if n == 0 then [] else ExpectedTo(steps, n - 1) + StepRead(steps[n - 1])
  }

  /** The first `i + 1` fields are the first `i` followed by field `i`. */
  lemma Snoc(steps: seq<Step>, i: nat, pos: nat)
    requires i < |steps|
    ensures FrameTo(steps, i + 1) == FrameTo(steps, i) + StepBytes(steps[i])
    ensures FieldStart(steps, i + 1) == FieldStart(steps, i) + |StepBytes(steps[i])|
    ensures MarksTo(steps, i + 1, pos) == MarksTo(steps, i, pos) + StepMarks(steps[i], pos + FieldStart(steps, i))
    ensures ExpectedTo(steps, i + 1) == ExpectedTo(steps, i) + StepRead(steps[i])
  {
    assert Blocks(steps)[i] == StepBytes(steps[i]);
  }

  /** Block `j` sits right after the first `j` blocks in any longer prefix. */
  lemma {:induction false} BlockInConcat(blocks: seq<seq<byte>>, j: nat, n: nat)
    requires j < n <= |blocks|
    ensures Start(blocks, j + 1) <= Start(blocks, n)
    ensures HoldsAt(Concat(blocks, n), Start(blocks, j), blocks[j])
    decreases n
  {
    if n == j + 1 {
      var before, block := Concat(blocks, j), blocks[j];
      assert (before + block)[|before|..|before| + |block|] == block;
    } else {
      BlockInConcat(blocks, j, n - 1);
      HoldsExtend(Concat(blocks, n - 1), Start(blocks, j), blocks[j], blocks[n - 1]);
    }
  }

  /** The first `i` blocks never take more bytes than the first `j >= i`. */
  lemma {:induction false} StartMonotone(blocks: seq<seq<byte>>, i: nat, j: nat)
    requires i <= j <= |blocks|
    ensures Start(blocks, i) <= Start(blocks, j)
    decreases j
  {
    if i < j {
      StartMonotone(blocks, i, j - 1);
    }
  }

  /** A block other than `k` lies wholly before or wholly after block `k`. */
  lemma BlocksDisjoint(blocks: seq<seq<byte>>, k: nat, j: nat)
    requires k < |blocks| && j < |blocks| && j != k
    ensures || Start(blocks, j) + |blocks[j]| <= Start(blocks, k)
            || Start(blocks, k) + |blocks[k]| <= Start(blocks, j)
  {
    if j < k {
      StartMonotone(blocks, j + 1, k);
    } else {
      StartMonotone(blocks, k + 1, j);
    }
  }

  /** Field `j` of a chain sits at its start in the bytes of the whole chain. */
  lemma FieldInFrame(steps: seq<Step>, j: nat)
    requires j < |steps|
    ensures FieldStart(steps, j + 1) <= |Frame(steps)|
    ensures HoldsAt(Frame(steps), FieldStart(steps, j), StepBytes(steps[j]))
  {
    BlockInConcat(Blocks(steps), j, |steps|);
    assert Blocks(steps)[j] == StepBytes(steps[j]);
  }

  // ---------------------------------------------------------------------------
  // Writing a chain
  // ---------------------------------------------------------------------------

  /** One `<<`. */
  method WriteStep(a: MemoryAligner, s: Step) returns (mark: seq<nat>)
    requires StepShaped(s) && a.offset <= |a.Bytes()| && a.CanWrite(|StepBytes(s)|)
    modifies a, a.foreign
    ensures a.offset == old(a.offset) + |StepBytes(s)|
    ensures a.Bytes() == Place(old(a.Bytes()), old(a.offset), StepBytes(s))
    ensures mark == StepMarks(s, old(a.offset))
  {
    match s
    case Write(t, v) =>
      var _ := a.Serialize(t, v);
      mark := [];
    case Reserve(t, c) =>
      var at := a.ReserveAndZero(t, c);
      mark := [at];
    case Capture =>
      PlaceEmpty(a.Bytes(), a.offset);
      var pos := a.CurrentPosition();
      mark := [pos];
  }

  /** A whole chain of `<<` from the cursor on. */
  method WriteSteps(a: MemoryAligner, steps: seq<Step>) returns (marks: seq<nat>)
    requires WellShaped(steps) && a.offset <= |a.Bytes()|
    requires a.owned || a.offset + |Frame(steps)| <= a.foreign.Length
    modifies a, a.foreign
    ensures a.offset == old(a.offset) + |Frame(steps)|
    ensures a.Bytes() == Place(old(a.Bytes()), old(a.offset), Frame(steps))
    ensures marks == MarksTo(steps, |steps|, old(a.offset))
  {
    var start := a.offset;
    ghost var before := a.Bytes();
    PlaceEmpty(before, start);
    marks := [];
    for i := 0 to |steps|
      invariant a.offset == start + FieldStart(steps, i) && a.offset <= |a.Bytes()|
      invariant a.Bytes() == Place(before, start, FrameTo(steps, i))
      invariant marks == MarksTo(steps, i, start)
    {
      Snoc(steps, i, start);
      StartMonotone(Blocks(steps), i + 1, |steps|);
      var m := WriteNext(a, steps[i], start, before, FrameTo(steps, i));
      marks := marks + m;
    }
  }

  /** One turn of that loop: a field after the bytes `done` already written from `start`. */
  method WriteNext(a: MemoryAligner, s: Step, start: nat, ghost before: seq<byte>, ghost done: seq<byte>)
    returns (mark: seq<nat>)
    requires StepShaped(s) && a.offset == start + |done| && a.offset <= |a.Bytes()|
    requires a.Bytes() == Place(before, start, done)
    requires a.CanWrite(|StepBytes(s)|)
    modifies a, a.foreign
    ensures a.offset == start + |done + StepBytes(s)| && a.offset <= |a.Bytes()|
    ensures a.Bytes() == Place(before, start, done + StepBytes(s))
    ensures mark == StepMarks(s, start + |done|)
  {
    ghost var prev := a.Bytes();
    mark := WriteStep(a, s);
    PlaceAfter(before, start, done, start + |done|, StepBytes(s), prev, a.Bytes());
  }

  /**
   * The two passes: simulate to learn the size, allocate exactly that much, write
   * the same chain into it. The memory holds the chain's bytes and nothing more, and
   * both passes record the same positions.
   */
  method TwoPass(steps: seq<Step>) returns (memory: array<byte>, marks: seq<nat>)
    requires WellShaped(steps)
    ensures memory.Length == |Frame(steps)|
    ensures memory[..] == Frame(steps)
    ensures marks == MarksTo(steps, |steps|, 0)
  {
    // Pass 0: count the bytes.
    var simulation := new MemoryAligner.Simulate();
    var simulated := WriteSteps(simulation, steps);
    PlaceWhole([], Frame(steps));
    var required := simulation.RequiredBytes();
    // Memory of the required size, zero-filled as a resized std::vector<char> is.
    memory := new byte[required.value](_ => 0);
    // Pass 1: write.
    var writer := new MemoryAligner.OnMemory(memory);
    PlaceWhole(memory[..], Frame(steps));
    marks := WriteSteps(writer, steps);
    assert simulated == marks;
  }

  /** Placing at 0 data at least as long as the buffer yields the data. */
  lemma PlaceWhole(buf: seq<byte>, data: seq<byte>)
    requires |buf| <= |data|
    ensures Place(buf, 0, data) == data
  {
    assert Extend(buf, |data|)[|data|..] == [];
  }

  // ---------------------------------------------------------------------------
  // Reading a chain
  // ---------------------------------------------------------------------------

  /**
   * One `>>`. A reserved field reads as the zero value of its type, and its
   * position is recorded as `>> store_offset(x, pos)` records it.
   */
  method ReadStep(a: MemoryAligner, s: Step) returns (read: seq<Value>, mark: seq<nat>)
    requires StepShaped(s) && HoldsAt(a.Bytes(), a.offset, StepBytes(s))
    modifies a`offset
    ensures a.offset == old(a.offset) + |StepBytes(s)|
    ensures read == StepRead(s)
    ensures mark == StepMarks(s, old(a.offset))
  {
    match s
    case Write(t, v) =>
      RoundTrip(v, t, a.Bytes(), a.offset);
      var _, x := a.Deserialize(t);
      read, mark := [x], [];
    case Reserve(t, c) =>
      ZeroRead(c, t, a.Bytes(), a.offset);
      var at, x := a.Deserialize(t);
      read, mark := [x], [at];
    case Capture =>
      var pos := a.CurrentPosition();
      read, mark := [], [pos];
  }

  /**
   * A whole chain of `>>` over bytes that hold the chain's frame: the values written,
   * zero values for the reserved fields, and the positions the writer recorded.
   */
  method ReadSteps(a: MemoryAligner, steps: seq<Step>) returns (values: seq<Value>, marks: seq<nat>)
    requires WellShaped(steps) && HoldsAt(a.Bytes(), a.offset, Frame(steps))
    modifies a`offset
    ensures a.offset == old(a.offset) + |Frame(steps)|
    ensures values == ExpectedTo(steps, |steps|)
    ensures marks == MarksTo(steps, |steps|, old(a.offset))
  {
    var start := a.offset;
    ghost var bytes := a.Bytes();
    values, marks := [], [];
    for i := 0 to |steps|
      invariant a.Bytes() == bytes
      invariant a.offset == start + FieldStart(steps, i)
      invariant values == ExpectedTo(steps, i)
      invariant marks == MarksTo(steps, i, start)
    {
      Snoc(steps, i, start);
      var read, mark := ReadField(a, steps, i, start);
      values, marks := values + read, marks + mark;
    }
  }

  method ReadField(a: MemoryAligner, steps: seq<Step>, i: nat, start: nat)
    returns (read: seq<Value>, mark: seq<nat>)
    requires WellShaped(steps) && i < |steps| && a.offset == start + FieldStart(steps, i)
    requires HoldsAt(a.Bytes(), start, Frame(steps))
    modifies a`offset
    ensures a.offset == start + FieldStart(steps, i) + |StepBytes(steps[i])|
    ensures read == StepRead(steps[i]) && mark == StepMarks(steps[i], start + FieldStart(steps, i))
  {
    FieldInFrame(steps, i);
    read, mark := ReadNext(a, steps[i], start, Frame(steps), FieldStart(steps, i));
  }

  /** One turn of that loop: the field that `frame`, held at `start`, holds at `pos`. */
  method ReadNext(a: MemoryAligner, s: Step, start: nat, ghost frame: seq<byte>, pos: nat)
    returns (read: seq<Value>, mark: seq<nat>)
    requires StepShaped(s) && a.offset == start + pos
    requires HoldsAt(a.Bytes(), start, frame) && HoldsAt(frame, pos, StepBytes(s))
    modifies a`offset
    ensures a.offset == start + pos + |StepBytes(s)|
    ensures read == StepRead(s) && mark == StepMarks(s, start + pos)
  {
    HoldsShift(a.Bytes(), start, frame, pos, StepBytes(s));
    read, mark := ReadStep(a, s);
  }

  // ---------------------------------------------------------------------------
  // Patching a reserved field
  // ---------------------------------------------------------------------------

  /** The chain's bytes after `v` is serialized at the start of field `k`. */
  function Patched(steps: seq<Step>, k: nat, v: Value): seq<byte>
    requires k < |steps|
  {
    Place(Frame(steps), FieldStart(steps, k), Encode(v))
  }

  /**
   * Serializing, at the position recorded for reserved field `k`, a value of the
   * reserved layout: the memory keeps its size and the field now reads as that value,
   * ending where the reservation ends.
   */
  lemma PatchReadsBack(steps: seq<Step>, k: nat, v: Value)
    requires WellShaped(steps) && k < |steps| && steps[k].Reserve?
    requires HasShape(v, steps[k].shape) && SameLayout(v, steps[k].capacity)
    ensures |Patched(steps, k, v)| == |Frame(steps)|
    ensures Decode(steps[k].shape, Patched(steps, k, v), FieldStart(steps, k))
            == Some(Decoded(v, FieldStart(steps, k + 1)))
  {
    ReservedField(steps, k);
    PatchReservation(steps[k].capacity, v, steps[k].shape, Frame(steps), FieldStart(steps, k), FieldStart(steps, k + 1));
  }

  /** A reserved field holds the reservation bytes of its capacity. */
  lemma ReservedField(steps: seq<Step>, k: nat)
    requires k < |steps| && steps[k].Reserve?
    ensures HoldsAt(Frame(steps), FieldStart(steps, k), ReserveBytes(steps[k].capacity))
    ensures FieldStart(steps, k + 1) == FieldStart(steps, k) + |ReserveBytes(steps[k].capacity)|
  {
    FieldInFrame(steps, k);
    Snoc(steps, k, 0);
  }

  /** The same patch leaves every other field of the chain holding its bytes. */
  lemma PatchKeepsOthers(steps: seq<Step>, k: nat, v: Value)
    requires WellShaped(steps) && k < |steps| && steps[k].Reserve?
    requires HasShape(v, steps[k].shape) && SameLayout(v, steps[k].capacity)
    ensures forall j | 0 <= j < |steps| && j != k ::
              HoldsAt(Patched(steps, k, v), FieldStart(steps, j), StepBytes(steps[j]))
  {
    var cap := steps[k].capacity;
    assert StepBytes(steps[k]) == ReserveBytes(cap);
    FieldInFrame(steps, k);
    PatchOutside(cap, v, Frame(steps), FieldStart(steps, k));
    forall j | 0 <= j < |steps| && j != k
      ensures HoldsAt(Patched(steps, k, v), FieldStart(steps, j), StepBytes(steps[j]))
    {
      BlocksDisjoint(Blocks(steps), k, j);
      assert Blocks(steps)[j] == StepBytes(steps[j]) && Blocks(steps)[k] == StepBytes(steps[k]);
      FieldInFrame(steps, j);
      HoldsOutside(Frame(steps), Patched(steps, k, v), FieldStart(steps, k), |StepBytes(steps[k])|,
                   FieldStart(steps, j), StepBytes(steps[j]));
    }
  }
}
