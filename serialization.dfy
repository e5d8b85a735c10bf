/**
 * The cursor of the serialization layer (src/serialization.hpp): one object that
 * either simulates a serialization over a growable buffer of its own, to learn how
 * many bytes it needs, or writes into / reads from memory that someone else owns.
 * Every operation returns the cursor position before the call, so a caller can
 * remember where a field lives and patch it later.
 */
module Serialization {
  import opened Wrappers
  import opened Layout
  import opened LayoutLemmas

  /** The two queries a cursor over foreign memory refuses (std::logic_error). */
  datatype LogicError = RequiredBytesOfForeignMemory | CopyOfForeignMemory

  class MemoryAligner {
    /** d_offset: the cursor position. */
    var offset: nat
    /** Whether the bytes live in the aligner's own growable vector. */
    const owned: bool
    /** The owned vector (simulation pass). */
    var ownedBytes: seq<byte>
    /** The foreign memory (writing or reading pass); an empty array when owned. */
    const foreign: array<byte>

    /** The bytes the cursor walks over. */
    function Bytes(): seq<byte>
      reads this, foreign
    {
      if owned then ownedBytes else foreign[..]
    }

    /** A write of `n` bytes at the cursor stays inside the memory: an owned vector grows. */
    predicate CanWrite(n: nat)
      reads this
    {
      owned || offset + n <= foreign.Length
    }

    /** MemoryAligner(): the simulation pass, starting with an empty vector of its own. */
    constructor Simulate()
      ensures owned && offset == 0 && Bytes() == [] && fresh(foreign)
    {
      offset := 0;
      owned := true;
      ownedBytes := [];
      foreign := new byte[0];
    }

    /** MemoryAligner(void*): a cursor at the start of memory owned elsewhere. */
    constructor OnMemory(memory: array<byte>)
      ensures !owned && foreign == memory && offset == 0
    {
      offset := 0;
      owned := false;
      ownedBytes := [];
      foreign := memory;
    }

    /** set_offset */
    method SetOffset(pos: nat)
      modifies this`offset
      ensures offset == pos
    {
      offset := pos;
    }

    /** Current position; the capture operators of src/serialization.cpp. */
    method CurrentPosition() returns (pos: nat)
      ensures pos == offset
    {
      pos := offset;
    }

    /** required_bytes: the size of the simulated buffer; an error on foreign memory. */
    function RequiredBytes(): (r: Result<nat, LogicError>)
      reads this
      ensures r.Success? <==> owned
      ensures r.Success? ==> r.value == |ownedBytes|
    {
      if owned then Success(|ownedBytes|) else Failure(RequiredBytesOfForeignMemory)
    }

    /** copy_memory: copies the simulated buffer into `dest`; an error on foreign memory. */
    method CopyMemory(dest: array<byte>) returns (r: Result<(), LogicError>)
      requires owned ==> |ownedBytes| <= dest.Length
      modifies dest
      ensures r.Success? <==> owned
      ensures owned ==> dest[..] == ownedBytes + old(dest[|ownedBytes|..])
      ensures !owned ==> dest[..] == old(dest[..])
    {
      if !owned {
        return Failure(CopyOfForeignMemory);
      }
      forall i | 0 <= i < |ownedBytes| {
        dest[i] := ownedBytes[i];
      }
      assert dest[..] == ownedBytes + old(dest[|ownedBytes|..]);
      r := Success(());
    }

    /** `d_memory.resize(d_offset)` when the owned vector is too short. */
    method Grow()
      modifies this`ownedBytes
      ensures owned ==> ownedBytes == Extend(old(ownedBytes), offset)
      ensures !owned ==> ownedBytes == old(ownedBytes)
    {
      if owned && offset > |ownedBytes| {
        ownedBytes := ownedBytes + Zeros(offset - |ownedBytes|);
      }
    }

    /** memcpy of `data` to position `at`, which lies inside the memory. */
    method Put(at: nat, data: seq<byte>)
      requires at + |data| <= |Bytes()|
      modifies this, foreign
      ensures offset == old(offset)
      ensures Bytes() == old(Bytes())[..at] + data + old(Bytes())[at + |data|..]
    {
      if owned {
        ownedBytes := ownedBytes[..at] + data + ownedBytes[at + |data|..];
      } else {
        forall i | at <= i < at + |data| {
          foreign[i] := data[i - at];
        }
        assert foreign[..] == old(foreign[..])[..at] + data + old(foreign[..])[at + |data|..];
      }
    }

    /** Advance the cursor over `data`, growing an owned vector, and copy `data` there. */
    method WriteAtCursor(data: seq<byte>) returns (start: nat)
      requires CanWrite(|data|)
      modifies this, foreign
      ensures start == old(offset) && offset == start + |data|
      ensures Bytes() == Place(old(Bytes()), start, data)
    {
      ghost var before := Bytes();
      start := offset;
      offset := offset + |data|;
      Grow();
      ghost var grown := Extend(before, start + |data|);
      assert Bytes() == grown;
      PlaceSplice(before, start, data);
      Put(start, data);
    }

    /** Scalar serialize: the bytes of the value at the cursor. */
    method SerializePod(b: seq<byte>) returns (start: nat)
      requires CanWrite(|b|)
      modifies this, foreign
      ensures start == old(offset) && offset == start + |b|
      ensures Bytes() == Place(old(Bytes()), start, b)
    {
      start := WriteAtCursor(b);
    }

    /** Scalar reserve_and_zero: `w` zero bytes at the cursor. */
    method ReserveAndZeroPod(w: nat) returns (start: nat)
      requires CanWrite(w)
      modifies this, foreign
      ensures start == old(offset) && offset == start + w
      ensures Bytes() == Place(old(Bytes()), start, Zeros(w))
    {
      start := WriteAtCursor(Zeros(w));
    }

    /** Scalar deserialize: the `w` bytes at the cursor. */
    method DeserializePod(w: nat) returns (start: nat, b: seq<byte>)
      requires offset + w <= |Bytes()|
      modifies this`offset
      ensures start == old(offset) && offset == start + w
      ensures b == Bytes()[start..start + w]
    {
      start := offset;
      offset := offset + w;
      b := Bytes()[start..start + w];
    }

    /** The reserved count and the live count of a vector, at the cursor. */
    method WriteHeader(reserved: nat, live: nat) returns (start: nat)
      requires CanWrite(HeaderSize)
      modifies this, foreign
      ensures start == old(offset) && offset == start + HeaderSize
      ensures Bytes() == Place(old(Bytes()), start, Header(reserved, live))
    {
      ghost var before := Bytes();
      start := SerializePod(IntBytes(reserved));
      ghost var mid := Bytes();
      var at := SerializePod(IntBytes(live));
      PlaceAfter(before, start, IntBytes(reserved), at, IntBytes(live), mid, Bytes());
    }

    /**
     * serialize of a scalar, a vector of scalars or a vector of vectors: the counts,
     * then the payload, in one block for scalars and element by element otherwise.
     */
    method Serialize(t: Shape, v: Value) returns (start: nat)
      requires HasShape(v, t) && CanWrite(|Encode(v)|)
      modifies this, foreign
      ensures start == old(offset) && offset == start + |Encode(v)|
      ensures Bytes() == Place(old(Bytes()), start, Encode(v))
      decreases t, 0
    {
      match t
      case Pod(_) =>
        start := SerializePod(v.bytes);
      case Vector(e) =>
        var xs := v.items;
        ghost var before := Bytes();
        start := WriteHeader(|xs|, |xs|);
        ghost var mid := Bytes();
        var at;
        if e.Pod? {
          at := WriteAtCursor(EncodeAll(xs));
        } else {
          at := SerializeElements(e, xs);
        }
        PlaceAfter(before, start, Header(|xs|, |xs|), at, EncodeAll(xs), mid, Bytes());
    }

    /** One turn of that loop: an element after the bytes `done` already written from `start`. */
    method SerializeElement(e: Shape, x: Value, start: nat, ghost before: seq<byte>, ghost done: seq<byte>)
      requires HasShape(x, e) && CanWrite(|Encode(x)|)
      requires offset == start + |done| && Bytes() == Place(before, start, done)
      modifies this, foreign
      ensures offset == start + |done + Encode(x)|
      ensures Bytes() == Place(before, start, done + Encode(x))
      decreases e, 1
    {
      ghost var prev := Bytes();
      var at := Serialize(e, x);
      PlaceAfter(before, start, done, at, Encode(x), prev, Bytes());
    }

    /** The loop over the elements of a vector of vectors. */
    method SerializeElements(e: Shape, xs: seq<Value>) returns (start: nat)
      requires forall i | 0 <= i < |xs| :: HasShape(xs[i], e)
      requires CanWrite(|EncodeAll(xs)|) && offset <= |Bytes()|
      modifies this, foreign
      ensures start == old(offset) && offset == start + |EncodeAll(xs)|
      ensures Bytes() == Place(old(Bytes()), start, EncodeAll(xs))
      decreases e, 2
    {
      start := offset;
      ghost var before := Bytes();
      PlaceEmpty(before, start);
      for i := 0 to |xs|
        invariant offset == start + |EncodeAll(xs[..i])|
        invariant Bytes() == Place(before, start, EncodeAll(xs[..i]))
        invariant owned || start + |EncodeAll(xs)| <= foreign.Length
      {
        EncodeAllSnoc(xs, i);
        SerializeElement(e, xs[i], start, before, EncodeAll(xs[..i]));
      }
      assert xs[..|xs|] == xs;
    }

    /**
     * reserve_and_zero for a capacity value: zeros for a scalar; for a vector the
     * capacity as reserved count, a live count of 0, then the zeroed payload.
     */
    method ReserveAndZero(t: Shape, cap: Value) returns (start: nat)
      requires HasShape(cap, t) && CanWrite(|ReserveBytes(cap)|)
      modifies this, foreign
      ensures start == old(offset) && offset == start + |ReserveBytes(cap)|
      ensures Bytes() == Place(old(Bytes()), start, ReserveBytes(cap))
      decreases t, 0
    {
      match t
      case Pod(w) =>
        start := ReserveAndZeroPod(w);
      case Vector(e) =>
        var xs := cap.items;
        ghost var before := Bytes();
        start := WriteHeader(|xs|, 0);
        ghost var mid := Bytes();
        var at;
        if e.Pod? {
          ScalarReservationIsZeros(xs, e.width);
          at := ReserveAndZeroPod(|xs| * e.width);
        } else {
          at := ReserveElements(e, xs);
        }
        PlaceAfter(before, start, Header(|xs|, 0), at, ReserveAll(xs), mid, Bytes());
    }

    /** One turn of that loop: an element after the bytes `done` already reserved from `start`. */
    method ReserveElement(e: Shape, x: Value, start: nat, ghost before: seq<byte>, ghost done: seq<byte>)
      requires HasShape(x, e) && CanWrite(|ReserveBytes(x)|)
      requires offset == start + |done| && Bytes() == Place(before, start, done)
      modifies this, foreign
      ensures offset == start + |done + ReserveBytes(x)|
      ensures Bytes() == Place(before, start, done + ReserveBytes(x))
      decreases e, 1
    {
      ghost var prev := Bytes();
      var at := ReserveAndZero(e, x);
      PlaceAfter(before, start, done, at, ReserveBytes(x), prev, Bytes());
    }

    /** The loop over the elements of a reserved vector of vectors. */
    method ReserveElements(e: Shape, xs: seq<Value>) returns (start: nat)
      requires forall i | 0 <= i < |xs| :: HasShape(xs[i], e)
      requires CanWrite(|ReserveAll(xs)|) && offset <= |Bytes()|
      modifies this, foreign
      ensures start == old(offset) && offset == start + |ReserveAll(xs)|
      ensures Bytes() == Place(old(Bytes()), start, ReserveAll(xs))
      decreases e, 2
    {
      start := offset;
      ghost var before := Bytes();
      PlaceEmpty(before, start);
      for i := 0 to |xs|
        invariant offset == start + |ReserveAll(xs[..i])|
        invariant Bytes() == Place(before, start, ReserveAll(xs[..i]))
        invariant owned || start + |ReserveAll(xs)| <= foreign.Length
      {
        EncodeAllSnoc(xs, i);
        ReserveElement(e, xs[i], start, before, ReserveAll(xs[..i]));
      }
      assert xs[..|xs|] == xs;
    }

    /**
     * deserialize: reads a value of type `t` at the cursor. A vector of scalars copies
     * its live elements and skips the reserved extent; a vector of vectors reads every
     * reserved element, then resizes to the live count.
     */
    method Deserialize(t: Shape) returns (start: nat, v: Value)
      requires Decode(t, Bytes(), offset).Some?
      modifies this`offset
      ensures start == old(offset)
      ensures Decode(t, Bytes(), start) == Some(Decoded(v, offset))
      decreases t, 0
    {
      match t
      case Pod(w) =>
        var b;
        start, b := DeserializePod(w);
        v := Scalar(b);
      case Vector(e) =>
        var rb, lb;
        start, rb := DeserializePod(IntSize);
        var _, lb' := DeserializePod(IntSize);
        lb := lb';
        var reserved := FromLittleEndian(rb);
        var live := FromLittleEndian(lb);
        if e.Pod? {
          var dataStart := offset;
          offset := offset + reserved * e.width;
          v := Items(DecodeSeq(e, Bytes(), dataStart, live).value.values);
        } else {
          var all := DeserializeElements(e, reserved);
          v := Items(Resize(all, live));
        }
    }

    /** The loop over the reserved elements of a vector of vectors. */
    method DeserializeElements(e: Shape, n: nat) returns (values: seq<Value>)
      requires DecodeSeq(e, Bytes(), offset, n).Some?
      modifies this`offset
      ensures DecodeSeq(e, Bytes(), old(offset), n) == Some(DecodedSeq(values, offset))
      decreases e, 2
    {
      ghost var bytes := Bytes();
      ghost var end := DecodeSeq(e, bytes, offset, n).value.next;
      ghost var rest := DecodeSeq(e, bytes, offset, n).value.values;
      ghost var all := rest;
      values := [];
      for i := 0 to n
        invariant Bytes() == bytes
        invariant values + rest == all
        invariant DecodeSeq(e, bytes, offset, n - i) == Some(DecodedSeq(rest, end))
      {
        var item := DeserializeElement(e, n - i, rest, end);
        assert [item] + rest[1..] == rest;
        values, rest := values + [item], rest[1..];
      }
      assert rest == [] && values + rest == values;
    }

    /** One turn of that loop: the first of the `m` elements still to read. */
    method DeserializeElement(e: Shape, m: nat, ghost rest: seq<Value>, ghost end: nat) returns (item: Value)
      requires m > 0 && DecodeSeq(e, Bytes(), offset, m) == Some(DecodedSeq(rest, end))
      modifies this`offset
      ensures Bytes() == old(Bytes()) && item == rest[0]
      ensures DecodeSeq(e, Bytes(), offset, m - 1) == Some(DecodedSeq(rest[1..], end))
      decreases e, 1
    {
      DecodeSeqUncons(e, Bytes(), offset, m, rest, end);
      var _, x := Deserialize(e);
      item := x;
    }

    /** `serializer << at_offset(x, pos)`: serialize at a remembered position. */
    method SerializeAt(t: Shape, v: Value, pos: nat)
      requires HasShape(v, t) && (owned || pos + |Encode(v)| <= foreign.Length)
      modifies this, foreign
      ensures offset == pos + |Encode(v)|
      ensures Bytes() == Place(old(Bytes()), pos, Encode(v))
    {
      SetOffset(pos);
      var _ := Serialize(t, v);
    }

    /** `deserializer >> at_offset(x, pos)`: deserialize at a remembered position. */
    method DeserializeAt(t: Shape, pos: nat) returns (v: Value)
      requires Decode(t, Bytes(), pos).Some?
      modifies this`offset
      ensures Decode(t, Bytes(), pos) == Some(Decoded(v, offset))
    {
      SetOffset(pos);
      var _, x := Deserialize(t);
      v := x;
    }
  }
}
