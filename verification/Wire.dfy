/** What is on the wire: a stream as a list of bit fields and byte strings, one after another. */
module Wire {

  import opened Bits
  import opened Buffers

  /** A number in some bits, or bytes from the next byte boundary. */
  datatype Slot = Bits(value: nat, count: nat) | Bytes(bytes: seq<byte>)

  function After(p: nat, x: Slot): nat {
    match x
    case Bits(_, c) => p + c
    case Bytes(b) => Align(p) + 8 * |b|
  }

  /** The position behind a list of slots. */
  function End(p: nat, xs: seq<Slot>): nat
    decreases |xs|
  {
    if xs == [] then p else End(After(p, xs[0]), xs[1..])
  }

  ghost predicate Holds(s: seq<byte>, p: nat, x: Slot) {
    After(p, x) <= 8 * |s|
    && match x
       case Bits(v, c) => Field(s, p, c) == v
       case Bytes(b) => s[Align(p) / 8..Align(p) / 8 + |b|] == b
  }

  /** The stream holds the slots from position p on. */
  ghost predicate Laid(s: seq<byte>, p: nat, xs: seq<Slot>)
    decreases |xs|
  {
    if xs == [] then p <= 8 * |s| else Holds(s, p, xs[0]) && Laid(s, After(p, xs[0]), xs[1..])
  }

  lemma {:induction false} EndAscends(p: nat, xs: seq<Slot>)
    ensures p <= End(p, xs)
    decreases |xs|
  {
    if xs != [] {
      EndAscends(After(p, xs[0]), xs[1..]);
    }
  }

  lemma NothingLaid(s: seq<byte>, p: nat)
    ensures End(p, []) == p && (Laid(s, p, []) <==> p <= 8 * |s|)
  {
  }

  lemma LaidOne(s: seq<byte>, p: nat, x: Slot)
    ensures End(p, [x]) == After(p, x)
    ensures Laid(s, p, [x]) <==> Holds(s, p, x)
  {
    assert [x][1..] == [];
  }

  /** Lists of slots follow each other. */
  lemma {:induction false} LaidTogether(s: seq<byte>, p: nat, xs: seq<Slot>, ys: seq<Slot>)
    ensures End(p, xs + ys) == End(End(p, xs), ys)
    ensures Laid(s, p, xs + ys) <==> Laid(s, p, xs) && Laid(s, End(p, xs), ys)
    decreases |xs|
  {
    if xs == [] {
      assert xs + ys == ys;
      LaidFits(s, p, ys);
    } else {
      assert (xs + ys)[0] == xs[0] && (xs + ys)[1..] == xs[1..] + ys;
      LaidTogether(s, After(p, xs[0]), xs[1..], ys);
    }
  }

  lemma {:induction false} LaidFits(s: seq<byte>, p: nat, xs: seq<Slot>)
    ensures Laid(s, p, xs) ==> End(p, xs) <= 8 * |s| && p <= 8 * |s|
    decreases |xs|
  {
    if xs != [] {
      LaidFits(s, After(p, xs[0]), xs[1..]);
    }
  }

  /** Whatever is written later, the slots stay. */
  lemma {:induction false} LaidStays(t: seq<byte>, s: seq<byte>, p: nat, xs: seq<Slot>)
    requires Laid(s, p, xs) && Extends(t, s, End(p, xs))
    ensures Laid(t, p, xs)
    decreases |xs|
  {
    hide Extends, Holds;
    LaidFits(s, p, xs);
    if xs == [] {
      ExtendsFits(t, s, p);
    } else {
      var q := After(p, xs[0]);
      EndAscends(q, xs[1..]);
      ExtendsEarlier(t, s, End(p, xs), q);
      HoldsStill(t, s, p, xs[0]);
      LaidStays(t, s, q, xs[1..]);
    }
  }

  lemma ExtendsFits(t: seq<byte>, s: seq<byte>, p: nat)
    requires Extends(t, s, p)
    ensures p <= 8 * |t|
  {
  }

  lemma HoldsStill(t: seq<byte>, s: seq<byte>, p: nat, x: Slot)
    requires Holds(s, p, x) && Extends(t, s, After(p, x))
    ensures Holds(t, p, x)
  {
    hide LE, Shr, Low;
    match x
    case Bits(_, c) =>
      FieldOfWritten(s, p, c);
      FieldOfWritten(t, p, c);
    case Bytes(b) =>
      var q, n := Align(p), |b|;
      FieldOfWritten(s, q, 8 * n);
      FieldOfWritten(t, q, 8 * n);
      LESlice(s, q / 8, n);
      LESlice(t, q / 8, n);
      LEInjective(t[q / 8..q / 8 + n], b);
  }

  /** What is laid behind slots that stay is laid together with them. */
  lemma LaidMore(t: seq<byte>, s: seq<byte>, p: nat, xs: seq<Slot>, ys: seq<Slot>)
    requires Laid(s, p, xs) && Extends(t, s, End(p, xs)) && Laid(t, End(p, xs), ys)
    ensures Laid(t, p, xs + ys) && End(p, xs + ys) == End(End(p, xs), ys)
  {
    hide *;
    LaidStays(t, s, p, xs);
    LaidTogether(t, p, xs, ys);
  }

  // ----- What the decoding functions find there

  lemma BitsFound(s: seq<byte>, p: nat, v: nat, c: nat)
    ensures Holds(s, p, Bits(v, c)) ==> DecBits(s, p, c) == Got(v, p + c)
    ensures p + c <= 8 * |s| && DecBits(s, p, c) == Got(v, p + c) ==> Holds(s, p, Bits(v, c))
  {
    hide Field;
  }

  /** What every extension reads stands in the stream itself. */
  lemma BitsStand(s: seq<byte>, p: nat, v: nat, c: nat)
    requires p + c <= 8 * |s|
    requires forall t :: Extends(t, s, p + c) ==> DecBits(t, p, c) == Got(v, p + c)
    ensures Holds(s, p, Bits(v, c))
  {
    SelfExtends(s, p + c);
    BitsFound(s, p, v, c);
  }

  lemma BytesStand(s: seq<byte>, p: nat, b: seq<byte>)
    requires After(p, Bytes(b)) <= 8 * |s|
    requires forall t :: Extends(t, s, After(p, Bytes(b))) ==> DecBytes(t, p, |b|) == Got(b, After(p, Bytes(b)))
    ensures Holds(s, p, Bytes(b))
  {
    SelfExtends(s, After(p, Bytes(b)));
  }

  lemma BytesFound(s: seq<byte>, p: nat, b: seq<byte>)
    ensures Holds(s, p, Bytes(b)) ==> DecBytes(s, p, |b|) == Got(b, After(p, Bytes(b)))
  {
  }

  // ----- Bytes at any alignment

  /** Bytes as eight-bit fields, wherever they begin. */
  function Octets(bytes: seq<byte>): (xs: seq<Slot>)
    ensures |xs| == |bytes|
  {
    seq(|bytes|, i requires 0 <= i < |bytes| => Bits(bytes[i], 8))
  }

  lemma OctetsMore(bytes: seq<byte>, b: byte)
    ensures Octets(bytes + [b]) == Octets(bytes) + [Bits(b, 8)]
  {
  }

  /** Octets together are one field, least significant byte first, and at a byte boundary they are the bytes there. */
  lemma {:induction false} OctetsAreField(s: seq<byte>, p: nat, bytes: seq<byte>)
    requires Laid(s, p, Octets(bytes))
    ensures End(p, Octets(bytes)) == p + 8 * |bytes| <= 8 * |s|
    ensures Field(s, p, 8 * |bytes|) == LE(bytes)
    ensures p % 8 == 0 ==> s[p / 8..p / 8 + |bytes|] == bytes
    decreases |bytes|
  {
    hide Shr, Low, Shl, LE;
    if bytes == [] {
      LowNone(Shr(LE(s), p));
      assert LE([]) == 0 by { LENone(); }
    } else {
      var rest := bytes[1..];
      assert bytes == [bytes[0]] + rest;
      assert Octets(bytes)[1..] == Octets(rest);
      OctetsAreField(s, p + 8, rest);
      Split(Shr(LE(s), p), 8, 8 * |rest|);
      Split(LE(s), p, 8);
      LEConcat([bytes[0]], rest);
      LEByte(bytes[0]);
      assert 8 + 8 * |rest| == 8 * |bytes|;
    }
    if p % 8 == 0 {
      LESlice(s, p / 8, |bytes|);
      LEInjective(s[p / 8..p / 8 + |bytes|], bytes);
    }
  }

  lemma LENone()
    ensures LE([]) == 0
  {
  }
}
