/**
 * The byte layout written and read by MemoryAligner (src/serialization.hpp), as pure
 * functions over a buffer of bytes.
 *
 * A C++ type is a Shape: a plain-old-data scalar of some width (sizeof), or a
 * std::vector of some element shape.  A vector of scalars is written as one payload
 * block, a vector of vectors element by element; both give the same bytes, so the
 * encoding of a Value does not depend on its shape, while decoding does (the C++
 * deserializer knows the static type).
 *
 * Every vector is stored as (reserved count, live count, payload), and the payload
 * spans the reserved count.  Counts are C++ `int`s: four bytes, little-endian
 * (the native order of the platforms the program targets).
 */
module Layout {
  import opened Wrappers

  newtype byte = b: int | 0 <= b < 256

  /** sizeof(int): the width of the two counts of a vector header. */
  const IntSize: nat := 4
  /** The reserved count followed by the live count. */
  const HeaderSize: nat := 8
  /** std::numeric_limits<int>::max(): the largest count a header can carry. */
  const IntMax: nat := 0x7fff_ffff

  // ---------------------------------------------------------------------------
  // Little-endian integers
  // ---------------------------------------------------------------------------

  function Pow256(k: nat): (r: nat)
    ensures r > 0
  {
    if k == 0 then 1 else 256 * Pow256(k - 1)
  }

  /** The k low-order bytes of n, least significant first (a truncating cast when n >= 256^k). */
  function LittleEndian(n: nat, k: nat): (r: seq<byte>)
    ensures |r| == k
  {
    if k == 0 then [] else [(n % 256) as byte] + LittleEndian(n / 256, k - 1)
  }

  function FromLittleEndian(bs: seq<byte>): nat
  {
    if bs == [] then 0 else bs[0] as nat + 256 * FromLittleEndian(bs[1..])
  }

  lemma {:induction false} LittleEndianRoundTrip(n: nat, k: nat)
    requires n < Pow256(k)
    ensures FromLittleEndian(LittleEndian(n, k)) == n
  {
    if k > 0 {
      var bs := LittleEndian(n, k);
      assert bs[1..] == LittleEndian(n / 256, k - 1);
      assert n / 256 < Pow256(k - 1);
      LittleEndianRoundTrip(n / 256, k - 1);
    }
  }

  /** A C++ int count as stored in memory. */
  function IntBytes(n: nat): (r: seq<byte>)
    ensures |r| == IntSize
  {
    LittleEndian(n, IntSize)
  }

  lemma CountRoundTrip(n: nat)
    requires n <= IntMax
    ensures FromLittleEndian(IntBytes(n)) == n
  {
    assert Pow256(IntSize) == 0x1_0000_0000;
    LittleEndianRoundTrip(n, IntSize);
  }

  function Zeros(n: nat): (r: seq<byte>)
    ensures |r| == n && forall i | 0 <= i < n :: r[i] == 0
  {
    seq(n, _ => 0)
  }

  // ---------------------------------------------------------------------------
  // Shapes and values
  // ---------------------------------------------------------------------------

  /** The static C++ type of a serialized field. */
  datatype Shape = Pod(width: nat) | Vector(elem: Shape)

  /** A field value: the bytes of a scalar, or the elements of a vector. */
  datatype Value = Scalar(bytes: seq<byte>) | Items(items: seq<Value>)

  /** `v` is a value of C++ type `t` whose vectors all have an int-sized length. */
  predicate HasShape(v: Value, t: Shape)
    decreases t
  {
    match t
    case Pod(w) => v.Scalar? && |v.bytes| == w
    case Vector(e) =>
      && v.Items?
      && |v.items| <= IntMax
      && forall i | 0 <= i < |v.items| :: HasShape(v.items[i], e)
  }

  /** What a freshly reserved region reads back as: zero bytes, or an empty vector. */
  function ZeroValue(t: Shape): Value
  {
    match t
    case Pod(w) => Scalar(Zeros(w))
    case Vector(_) => Items([])
  }

  /** `n` freshly reserved values: what a reserved vector of vectors reads back element by element. */
  function ZeroValues(t: Shape, n: nat): (r: seq<Value>)
    ensures |r| == n && forall i | 0 <= i < n :: r[i] == ZeroValue(t)
  {
    if n == 0 then [] else [ZeroValue(t)] + ZeroValues(t, n - 1)
  }

  /** The reserved count followed by the live count. */
  function Header(reserved: nat, live: nat): (r: seq<byte>)
    ensures |r| == HeaderSize
  {
    IntBytes(reserved) + IntBytes(live)
  }

  // ---------------------------------------------------------------------------
  // Encoding: serialize and reserve_and_zero
  // ---------------------------------------------------------------------------

  /** The bytes `serialize` writes: reserved = live = length, then every element. */
  function Encode(v: Value): seq<byte>
    decreases v
  {
    match v
    case Scalar(b) => b
    case Items(xs) => Header(|xs|, |xs|) + EncodeAll(xs)
  }

  /** The elements of a vector written one after another. */
  function EncodeAll(xs: seq<Value>): seq<byte>
    decreases xs
  {
    if |xs| == 0 then [] else Encode(xs[0]) + EncodeAll(xs[1..])
  }

  /**
   * The bytes `reserve_and_zero` writes for a capacity value: zeros for a scalar;
   * for a vector, reserved = its length, live = 0, then every element reserved in turn.
   */
  function ReserveBytes(cap: Value): seq<byte>
    decreases cap
  {
    match cap
    case Scalar(b) => Zeros(|b|)
    case Items(xs) => Header(|xs|, 0) + ReserveAll(xs)
  }

  /** The elements of a capacity value reserved one after another. */
  function ReserveAll(xs: seq<Value>): seq<byte>
    decreases xs
  {
    if |xs| == 0 then [] else ReserveBytes(xs[0]) + ReserveAll(xs[1..])
  }

  // ---------------------------------------------------------------------------
  // Decoding: deserialize
  // ---------------------------------------------------------------------------

  datatype Decoded = Decoded(value: Value, next: nat)
  datatype DecodedSeq = DecodedSeq(values: seq<Value>, next: nat)

  /** A count read from memory; a negative C++ int is outside what the deserializer handles. */
  function ReadCount(buf: seq<byte>, pos: nat): (r: Option<nat>)
    requires pos + IntSize <= |buf|
    ensures r.None? <==> FromLittleEndian(buf[pos..pos + IntSize]) > IntMax
    ensures r.Some? ==> r.value <= IntMax && r.value == FromLittleEndian(buf[pos..pos + IntSize])
  {
    var n := FromLittleEndian(buf[pos..pos + IntSize]);
    if n <= IntMax then Some(n) else None
  }

  /** std::vector::resize: truncate, or pad with value-initialised (empty) vectors. */
  function Resize(xs: seq<Value>, n: nat): (r: seq<Value>)
    ensures |r| == n
  {
    if n <= |xs| then xs[..n] else xs + seq(n - |xs|, _ => Items([]))
  }

  /**
   * What `deserialize` of type `t` at `pos` returns, and where it leaves the cursor;
   * None when it would read outside the buffer or meet a negative count.
   * A vector of scalars copies the live elements and skips the reserved extent; a
   * vector of vectors reads all reserved elements, then keeps the live count.
   */
  function Decode(t: Shape, buf: seq<byte>, pos: nat): Option<Decoded>
    decreases t, 0
  {
    match t
    case Pod(w) =>
      if pos + w <= |buf| then Some(Decoded(Scalar(buf[pos..pos + w]), pos + w)) else None
    case Vector(e) =>
      if pos + HeaderSize > |buf| then None
      else
        var reserved := ReadCount(buf, pos);
        var live := ReadCount(buf, pos + IntSize);
        if reserved.None? || live.None? then None
        else if e.Pod? then
          match DecodeSeq(e, buf, pos + HeaderSize, live.value)
          case Some(d) => Some(Decoded(Items(d.values), pos + HeaderSize + reserved.value * e.width))
          case None => None
        else
          match DecodeSeq(e, buf, pos + HeaderSize, reserved.value)
          case Some(d) => Some(Decoded(Items(Resize(d.values, live.value)), d.next))
          case None => None
  }

  /** `n` consecutive values of type `t` starting at `pos`. */
  function DecodeSeq(t: Shape, buf: seq<byte>, pos: nat, n: nat): (r: Option<DecodedSeq>)
    ensures r.Some? ==> |r.value.values| == n
    decreases t, n + 1
  {
    if n == 0 then Some(DecodedSeq([], pos))
    else
      match Decode(t, buf, pos)
      case None => None
      case Some(d) =>
        match DecodeSeq(t, buf, d.next, n - 1)
        case None => None
        case Some(rest) => Some(DecodedSeq([d.value] + rest.values, rest.next))
  }

  // ---------------------------------------------------------------------------
  // Writing into a buffer
  // ---------------------------------------------------------------------------

  /** The buffer grown with zero bytes to at least `n` bytes (std::vector<char>::resize). */
  function Extend(buf: seq<byte>, n: nat): (r: seq<byte>)
    ensures |r| == if n > |buf| then n else |buf|
    ensures r[..|buf|] == buf
  {
    if n > |buf| then buf + Zeros(n - |buf|) else buf
  }

  /** `data` copied into the buffer at `at`, growing it first when it is too short. */
  function Place(buf: seq<byte>, at: nat, data: seq<byte>): (r: seq<byte>)
    ensures |r| == if at + |data| > |buf| then at + |data| else |buf|
  {
    var n := if at + |data| > |buf| then at + |data| else |buf|;
    seq(n, i requires 0 <= i < n =>
      if at <= i < at + |data| then data[i - at] else if i < |buf| then buf[i] else 0)
  }
}
