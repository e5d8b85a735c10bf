/**
 * Properties of the MemoryAligner byte layout: round trip, zero-before-patch,
 * equal extents for serialize and reserve_and_zero, and locality of a patch.
 */
module LayoutLemmas {
  import opened Wrappers
  import opened Layout

  /** A buffer that holds `data` at `pos`. */
  predicate HoldsAt(buf: seq<byte>, pos: nat, data: seq<byte>)
  {
    pos + |data| <= |buf| && buf[pos..pos + |data|] == data
  }

  lemma HoldsSplit(buf: seq<byte>, pos: nat, a: seq<byte>, b: seq<byte>)
    requires HoldsAt(buf, pos, a + b)
    ensures HoldsAt(buf, pos, a) && HoldsAt(buf, pos + |a|, b)
  {
    assert buf[pos..pos + |a|] == (a + b)[..|a|];
    assert buf[pos + |a|..pos + |a| + |b|] == (a + b)[|a|..];
  }

  /** What a buffer holds stays where it is when the buffer grows at its end. */
  lemma HoldsExtend(buf: seq<byte>, pos: nat, data: seq<byte>, more: seq<byte>)
    requires HoldsAt(buf, pos, data)
    ensures HoldsAt(buf + more, pos, data)
  {
    assert (buf + more)[pos..pos + |data|] == buf[pos..pos + |data|];
  }

  /** A buffer holding `outer` at `start` holds what `outer` holds, shifted by `start`. */
  lemma HoldsShift(buf: seq<byte>, start: nat, outer: seq<byte>, pos: nat, data: seq<byte>)
    requires HoldsAt(buf, start, outer) && HoldsAt(outer, pos, data)
    ensures HoldsAt(buf, start + pos, data)
  {
    assert buf[start..start + |outer|] == outer;
    forall q | 0 <= q < |data|
      ensures buf[start + pos..start + pos + |data|][q] == data[q]
    {
      assert buf[start + pos + q] == buf[start..start + |outer|][pos + q];
      assert outer[pos + q] == outer[pos..pos + |data|][q];
    }
    assert buf[start + pos..start + pos + |data|] == data;
  }

  /**
   * A buffer that agrees with `buf` everywhere outside [at, at + n) still holds what
   * `buf` held at a span that misses [at, at + n).
   */
  lemma HoldsOutside(buf: seq<byte>, other: seq<byte>, at: nat, n: nat, pos: nat, data: seq<byte>)
    requires HoldsAt(buf, pos, data) && |other| == |buf|
    requires pos + |data| <= at || at + n <= pos
    requires forall q | 0 <= q < |buf| && !(at <= q < at + n) :: other[q] == buf[q]
    ensures HoldsAt(other, pos, data)
  {
    forall q | 0 <= q < |data|
      ensures other[pos..pos + |data|][q] == data[q]
    {
      assert buf[pos..pos + |data|][q] == buf[pos + q];
    }
    assert other[pos..pos + |data|] == data;
  }

  /** Two values that occupy the same bytes: equal widths, equal lengths, all the way down. */
  predicate SameLayout(a: Value, b: Value)
    decreases a
  {
    match a
    case Scalar(x) => b.Scalar? && |x| == |b.bytes|
    case Items(xs) =>
      && b.Items?
      && |xs| == |b.items|
      && forall i | 0 <= i < |xs| :: SameLayout(xs[i], b.items[i])
  }

  // ---------------------------------------------------------------------------
  // Extents
  // ---------------------------------------------------------------------------

  /** A vector of `n` scalars of width `w` has a payload of n * w bytes (the memcpy size). */
  lemma {:induction false} ScalarPayloadLength(xs: seq<Value>, w: nat)
    requires forall i | 0 <= i < |xs| :: HasShape(xs[i], Pod(w))
    ensures |EncodeAll(xs)| == |xs| * w
    ensures |ReserveAll(xs)| == |xs| * w
  {
    if |xs| > 0 {
      ScalarPayloadLength(xs[1..], w);
      assert |xs| * w == w + (|xs| - 1) * w;
    }
  }

  /** reserve_and_zero advances the cursor exactly as serialize does for the same value. */
  lemma {:induction false} ReserveLength(v: Value)
    ensures |ReserveBytes(v)| == |Encode(v)|
    decreases v, 1
  {
    match v
    case Scalar(_) =>
    case Items(xs) => ReserveAllLength(xs);
  }

  lemma {:induction false} ReserveAllLength(xs: seq<Value>)
    ensures |ReserveAll(xs)| == |EncodeAll(xs)|
    decreases xs, 0
  {
    if |xs| > 0 {
      ReserveLength(xs[0]);
      ReserveAllLength(xs[1..]);
    }
  }

  /** Values of the same layout encode to the same number of bytes. */
  lemma {:induction false} SameLayoutLength(a: Value, b: Value)
    requires SameLayout(a, b)
    ensures |Encode(a)| == |Encode(b)|
    decreases a, 1
  {
    match a
    case Scalar(_) =>
    case Items(xs) => SameLayoutAllLength(xs, b.items);
  }

  lemma {:induction false} SameLayoutAllLength(xs: seq<Value>, ys: seq<Value>)
    requires |xs| == |ys| && forall i | 0 <= i < |xs| :: SameLayout(xs[i], ys[i])
    ensures |EncodeAll(xs)| == |EncodeAll(ys)|
    decreases xs, 0
  {
    if |xs| > 0 {
      SameLayoutLength(xs[0], ys[0]);
      SameLayoutAllLength(xs[1..], ys[1..]);
    }
  }

  /** Encoding a concatenation of elements is concatenating their encodings. */
  lemma {:induction false} EncodeAllAppend(a: seq<Value>, b: seq<Value>)
    ensures EncodeAll(a + b) == EncodeAll(a) + EncodeAll(b)
    decreases |a|
  {
    if |a| > 0 {
      assert (a + b)[1..] == a[1..] + b;
      EncodeAllAppend(a[1..], b);
    } else {
      assert a + b == b;
    }
  }

  lemma {:induction false} ReserveAllAppend(a: seq<Value>, b: seq<Value>)
    ensures ReserveAll(a + b) == ReserveAll(a) + ReserveAll(b)
    decreases |a|
  {
    if |a| > 0 {
      assert (a + b)[1..] == a[1..] + b;
      ReserveAllAppend(a[1..], b);
    } else {
      assert a + b == b;
    }
  }

  /** The first i + 1 elements encode as the first i followed by element i. */
  lemma EncodeAllSnoc(xs: seq<Value>, i: nat)
    requires i < |xs|
    ensures EncodeAll(xs[..i + 1]) == EncodeAll(xs[..i]) + Encode(xs[i])
    ensures ReserveAll(xs[..i + 1]) == ReserveAll(xs[..i]) + ReserveBytes(xs[i])
    ensures |EncodeAll(xs[..i + 1])| <= |EncodeAll(xs)|
    ensures |ReserveAll(xs[..i + 1])| <= |ReserveAll(xs)|
  {
    assert xs[..i + 1] == xs[..i] + [xs[i]];
    EncodeAllAppend(xs[..i], [xs[i]]);
    ReserveAllAppend(xs[..i], [xs[i]]);
    assert EncodeAll([xs[i]]) == Encode(xs[i]);
    assert ReserveAll([xs[i]]) == ReserveBytes(xs[i]);
    assert xs == xs[..i + 1] + xs[i + 1..];
    EncodeAllAppend(xs[..i + 1], xs[i + 1..]);
    ReserveAllAppend(xs[..i + 1], xs[i + 1..]);
  }

  /** The reservation of a vector of scalars is one block of zeros (the memset). */
  lemma {:induction false} ScalarReservationIsZeros(xs: seq<Value>, w: nat)
    requires forall i | 0 <= i < |xs| :: HasShape(xs[i], Pod(w))
    ensures ReserveAll(xs) == Zeros(|xs| * w)
  {
    ScalarPayloadLength(xs, w);
    if |xs| > 0 {
      ScalarReservationIsZeros(xs[1..], w);
      assert ReserveAll(xs) == Zeros(w) + Zeros((|xs| - 1) * w);
    }
  }

  // ---------------------------------------------------------------------------
  // Round trip
  // ---------------------------------------------------------------------------

  /** A header written with two int-sized counts reads back as those counts. */
  lemma HeaderRead(buf: seq<byte>, pos: nat, reserved: nat, live: nat, rest: seq<byte>)
    requires reserved <= IntMax && live <= IntMax
    requires HoldsAt(buf, pos, Header(reserved, live) + rest)
    ensures pos + HeaderSize <= |buf|
    ensures ReadCount(buf, pos) == Some(reserved) && ReadCount(buf, pos + IntSize) == Some(live)
    ensures HoldsAt(buf, pos + HeaderSize, rest)
  {
    HoldsSplit(buf, pos, Header(reserved, live), rest);
    HoldsSplit(buf, pos, IntBytes(reserved), IntBytes(live));
    CountRoundTrip(reserved);
    CountRoundTrip(live);
  }

  /**
   * serialize writes a vector as its reserved count, then its live count,
   * both equal to its length, then its elements; a scalar as its own bytes.
   */
  lemma EncodeHeaderOrder(v: Value)
    ensures v.Scalar? ==> Encode(v) == v.bytes
    ensures v.Items? ==> && |Encode(v)| >= HeaderSize
                         && Encode(v)[..IntSize] == IntBytes(|v.items|)
                         && Encode(v)[IntSize..HeaderSize] == IntBytes(|v.items|)
                         && Encode(v)[HeaderSize..] == EncodeAll(v.items)
  {
    if v.Items? {
      var e := Encode(v);
      assert e == IntBytes(|v.items|) + IntBytes(|v.items|) + EncodeAll(v.items);
    }
  }

  /**
   * reserve_and_zero writes a vector as its reserved count (its length), a
   * live count of 0, then every element reserved; a scalar as zero bytes.
   */
  lemma ReserveHeaderOrder(cap: Value)
    ensures cap.Scalar? ==> ReserveBytes(cap) == Zeros(|cap.bytes|)
    ensures cap.Items? ==> && |ReserveBytes(cap)| >= HeaderSize
                           && ReserveBytes(cap)[..IntSize] == IntBytes(|cap.items|)
                           && ReserveBytes(cap)[IntSize..HeaderSize] == IntBytes(0)
                           && ReserveBytes(cap)[HeaderSize..] == ReserveAll(cap.items)
  {
    if cap.Items? {
      var r := ReserveBytes(cap);
      assert r == IntBytes(|cap.items|) + IntBytes(0) + ReserveAll(cap.items);
    }
  }

  /**
   * Whatever deserialize of a vector reads, it has as many elements as the
   * live count in the header; a vector of scalars moves the cursor past the
   * whole reserved extent, so the entries beyond the live count are skipped.
   */
  lemma DecodeVectorShape(t: Shape, buf: seq<byte>, pos: nat)
    requires t.Vector? && Decode(t, buf, pos).Some?
    ensures pos + HeaderSize <= |buf|
    ensures ReadCount(buf, pos).Some? && ReadCount(buf, pos + IntSize).Some?
    ensures Decode(t, buf, pos).value.value.Items?
    ensures |Decode(t, buf, pos).value.value.items| == ReadCount(buf, pos + IntSize).value
    ensures t.elem.Pod? ==>
              Decode(t, buf, pos).value.next == pos + HeaderSize + ReadCount(buf, pos).value * t.elem.width
  {
  }

  /** deserialize refuses a vector whose header holds a count above INT_MAX (a negative C++ int). */
  lemma DecodeRefusesLargeCount(t: Shape, buf: seq<byte>, pos: nat)
    requires t.Vector? && pos + HeaderSize <= |buf|
    requires FromLittleEndian(buf[pos..pos + IntSize]) > IntMax
             || FromLittleEndian(buf[pos + IntSize..pos + HeaderSize]) > IntMax
    ensures Decode(t, buf, pos).None?
  {
  }

  /** deserialize at the place where serialize wrote a value returns that value and the same end. */
  lemma {:induction false} RoundTrip(v: Value, t: Shape, buf: seq<byte>, pos: nat)
    requires HasShape(v, t) && HoldsAt(buf, pos, Encode(v))
    ensures Decode(t, buf, pos) == Some(Decoded(v, pos + |Encode(v)|))
    decreases t, 0
  {
    match t
    case Pod(w) =>
    case Vector(e) =>
      var xs := v.items;
      var n := |xs|;
      HeaderRead(buf, pos, n, n, EncodeAll(xs));
      RoundTripAll(xs, e, buf, pos + HeaderSize);
      if e.Pod? {
        ScalarPayloadLength(xs, e.width);
      } else {
        assert Resize(xs, n) == xs;
      }
  }

  lemma {:induction false} RoundTripAll(xs: seq<Value>, e: Shape, buf: seq<byte>, pos: nat)
    requires forall i | 0 <= i < |xs| :: HasShape(xs[i], e)
    requires HoldsAt(buf, pos, EncodeAll(xs))
    ensures DecodeSeq(e, buf, pos, |xs|) == Some(DecodedSeq(xs, pos + |EncodeAll(xs)|))
    decreases e, |xs| + 1
  {
    if |xs| > 0 {
      var mid := EncodedHead(xs, buf, pos);
      RoundTrip(xs[0], e, buf, pos);
      RoundTripAll(xs[1..], e, buf, mid);
      DecodeSeqHead(e, buf, pos, xs, mid, mid + |EncodeAll(xs[1..])|);
    }
  }

  /** A run of encoded values is its first value's bytes followed by the rest's. */
  lemma EncodedHead(xs: seq<Value>, buf: seq<byte>, pos: nat) returns (mid: nat)
    requires |xs| > 0 && HoldsAt(buf, pos, EncodeAll(xs))
    ensures mid == pos + |Encode(xs[0])|
    ensures HoldsAt(buf, pos, Encode(xs[0])) && HoldsAt(buf, mid, EncodeAll(xs[1..]))
    ensures mid + |EncodeAll(xs[1..])| == pos + |EncodeAll(xs)|
  {
    HoldsSplit(buf, pos, Encode(xs[0]), EncodeAll(xs[1..]));
    mid := pos + |Encode(xs[0])|;
  }

  /** A run of reserved values is its first value's reservation followed by the rest's. */
  lemma ReservedHead(xs: seq<Value>, buf: seq<byte>, pos: nat) returns (mid: nat)
    requires |xs| > 0 && HoldsAt(buf, pos, ReserveAll(xs))
    ensures mid == pos + |ReserveBytes(xs[0])|
    ensures HoldsAt(buf, pos, ReserveBytes(xs[0])) && HoldsAt(buf, mid, ReserveAll(xs[1..]))
    ensures mid + |ReserveAll(xs[1..])| == pos + |ReserveAll(xs)|
  {
    HoldsSplit(buf, pos, ReserveBytes(xs[0]), ReserveAll(xs[1..]));
    mid := pos + |ReserveBytes(xs[0])|;
  }

  /** A run of `m > 0` values is its first value followed by the other `m - 1`. */
  lemma DecodeSeqUncons(e: Shape, buf: seq<byte>, pos: nat, m: nat, vs: seq<Value>, end: nat)
    requires m > 0 && DecodeSeq(e, buf, pos, m) == Some(DecodedSeq(vs, end))
    ensures Decode(e, buf, pos).Some? && Decode(e, buf, pos).value.value == vs[0]
    ensures DecodeSeq(e, buf, Decode(e, buf, pos).value.next, m - 1) == Some(DecodedSeq(vs[1..], end))
  {
    var d := Decode(e, buf, pos).value;
    var rest := DecodeSeq(e, buf, d.next, m - 1).value;
    assert vs == [d.value] + rest.values;
    assert vs[1..] == rest.values;
  }

  /** The first value of a run followed by the others is the whole run. */
  lemma DecodeSeqHead(e: Shape, buf: seq<byte>, pos: nat, xs: seq<Value>, mid: nat, end: nat)
    requires |xs| > 0 && Decode(e, buf, pos) == Some(Decoded(xs[0], mid))
    requires DecodeSeq(e, buf, mid, |xs| - 1) == Some(DecodedSeq(xs[1..], end))
    ensures DecodeSeq(e, buf, pos, |xs|) == Some(DecodedSeq(xs, end))
  {
    DecodeSeqCons(e, buf, pos, xs[0], mid, xs[1..], end);
    assert [xs[0]] + xs[1..] == xs;
  }

  /** One value followed by the rest of a run is the whole run. */
  lemma DecodeSeqCons(e: Shape, buf: seq<byte>, pos: nat, x: Value, mid: nat, rest: seq<Value>, end: nat)
    requires Decode(e, buf, pos) == Some(Decoded(x, mid))
    requires DecodeSeq(e, buf, mid, |rest|) == Some(DecodedSeq(rest, end))
    ensures DecodeSeq(e, buf, pos, |rest| + 1) == Some(DecodedSeq([x] + rest, end))
  {
  }

  // ---------------------------------------------------------------------------
  // Zero before patch
  // ---------------------------------------------------------------------------

  /**
   * A region written by reserve_and_zero reads back as zero bytes or an empty vector,
   * and the reader leaves it at the same end the writer did.
   */
  lemma {:induction false} ZeroRead(cap: Value, t: Shape, buf: seq<byte>, pos: nat)
    requires HasShape(cap, t) && HoldsAt(buf, pos, ReserveBytes(cap))
    ensures Decode(t, buf, pos) == Some(Decoded(ZeroValue(t), pos + |ReserveBytes(cap)|))
    decreases t, 0
  {
    match t
    case Pod(w) =>
    case Vector(e) =>
      var xs := cap.items;
      HeaderRead(buf, pos, |xs|, 0, ReserveAll(xs));
      if e.Pod? {
        ScalarPayloadLength(xs, e.width);
      } else {
        ZeroReadAll(xs, e, buf, pos + HeaderSize);
        assert Resize(ZeroValues(e, |xs|), 0) == [];
      }
  }

  lemma {:induction false} ZeroReadAll(xs: seq<Value>, e: Shape, buf: seq<byte>, pos: nat)
    requires forall i | 0 <= i < |xs| :: HasShape(xs[i], e)
    requires HoldsAt(buf, pos, ReserveAll(xs))
    ensures DecodeSeq(e, buf, pos, |xs|) == Some(DecodedSeq(ZeroValues(e, |xs|), pos + |ReserveAll(xs)|))
    decreases e, |xs| + 1
  {
    if |xs| > 0 {
      var mid := ReservedHead(xs, buf, pos);
      ZeroRead(xs[0], e, buf, pos);
      ZeroReadAll(xs[1..], e, buf, mid);
      DecodeSeqCons(e, buf, pos, ZeroValue(e), mid, ZeroValues(e, |xs[1..]|), mid + |ReserveAll(xs[1..])|);
    }
  }

  // ---------------------------------------------------------------------------
  // Writing in place
  // ---------------------------------------------------------------------------

  /** Place writes exactly `data` at `at` and keeps every other byte the buffer had. */
  lemma PlaceContents(buf: seq<byte>, at: nat, data: seq<byte>)
    ensures HoldsAt(Place(buf, at, data), at, data)
    ensures forall i | 0 <= i < |buf| && !(at <= i < at + |data|) :: Place(buf, at, data)[i] == buf[i]
  {
    var r := Place(buf, at, data);
    assert r[at..at + |data|] == data;
  }

  /** Placing nothing inside the buffer leaves it as it is. */
  lemma PlaceEmpty(buf: seq<byte>, at: nat)
    requires at <= |buf|
    ensures Place(buf, at, []) == buf
  {
    assert Place(buf, at, []) == buf;
  }

  /** Two consecutive writes are one write of the concatenation. */
  lemma PlaceCompose(buf: seq<byte>, s: nat, x: seq<byte>, y: seq<byte>)
    ensures Place(Place(buf, s, x), s + |x|, y) == Place(buf, s, x + y)
  {
    var a := Place(Place(buf, s, x), s + |x|, y);
    var b := Place(buf, s, x + y);
    assert |a| == |b|;
    forall i | 0 <= i < |a| ensures a[i] == b[i] {
      if s + |x| <= i < s + |x| + |y| {
        assert b[i] == (x + y)[i - s];
      } else if s <= i < s + |x| {
        assert b[i] == (x + y)[i - s];
      }
    }
  }

  /** Place is a splice into the buffer grown with zero bytes to hold the data. */
  lemma PlaceSplice(buf: seq<byte>, at: nat, data: seq<byte>)
    ensures var grown := Extend(buf, at + |data|);
      Place(buf, at, data) == grown[..at] + data + grown[at + |data|..]
  {
    var grown := Extend(buf, at + |data|);
    var spliced := grown[..at] + data + grown[at + |data|..];
    assert |spliced| == |Place(buf, at, data)|;
    forall i | 0 <= i < |spliced| ensures spliced[i] == Place(buf, at, data)[i] {
      if i < at {
        assert spliced[i] == grown[i];
      } else if i < at + |data| {
        assert spliced[i] == data[i - at];
      } else {
        assert spliced[i] == grown[i];
      }
    }
  }

  /** A write right after an earlier one extends it: the two are one write of both. */
  lemma PlaceAfter(before: seq<byte>, start: nat, done: seq<byte>, at: nat, next: seq<byte>, prev: seq<byte>, now: seq<byte>)
    requires prev == Place(before, start, done)
    requires at == start + |done| && now == Place(prev, at, next)
    ensures now == Place(before, start, done + next)
  {
    PlaceCompose(before, start, done, next);
  }

  /** Writing into the span a buffer already has does not change its length. */
  lemma PlaceInside(buf: seq<byte>, at: nat, data: seq<byte>)
    requires at + |data| <= |buf|
    ensures |Place(buf, at, data)| == |buf|
  {
  }

  /**
   * at_offset: serializing a value of the reserved layout over a reserved region reads
   * back as that value and ends where the reservation ends ...
   */
  lemma {:induction false} PatchReservation(cap: Value, v: Value, t: Shape, buf: seq<byte>, pos: nat, end: nat)
    requires HasShape(cap, t) && HasShape(v, t) && SameLayout(v, cap)
    requires HoldsAt(buf, pos, ReserveBytes(cap)) && end == pos + |ReserveBytes(cap)|
    ensures |Encode(v)| == |ReserveBytes(cap)|
    ensures |Place(buf, pos, Encode(v))| == |buf|
    ensures Decode(t, Place(buf, pos, Encode(v)), pos) == Some(Decoded(v, end))
  {
    SameLayoutLength(v, cap);
    ReserveLength(cap);
    PlaceContents(buf, pos, Encode(v));
    RoundTrip(v, t, Place(buf, pos, Encode(v)), pos);
  }

  /** ... and leaves every byte outside the reservation as it was. */
  lemma PatchOutside(cap: Value, v: Value, buf: seq<byte>, pos: nat)
    requires SameLayout(v, cap) && HoldsAt(buf, pos, ReserveBytes(cap))
    ensures |Place(buf, pos, Encode(v))| == |buf|
    ensures forall i | 0 <= i < |buf| && !(pos <= i < pos + |ReserveBytes(cap)|) ::
              Place(buf, pos, Encode(v))[i] == buf[i]
  {
    SameLayoutLength(v, cap);
    ReserveLength(cap);
    PlaceContents(buf, pos, Encode(v));
  }
}
