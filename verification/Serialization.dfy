/** The wire primitives built on the bit cursor: variable-length integers, sign folding,
  * booleans, strings and byte vectors. */
module Serialization {
  import opened Bits
  import opened Buffers
  import opened Wire

  const WORD := 64

  // ----- Variable-length integers

  /** Reading groups of seven bits and a continuation bit, `value` and `shift` being what
    * the loop has gathered so far. Bits shifted out of the 64-bit word are lost. */
  function DecVarIntFrom(s: seq<byte>, p: nat, value: nat, shift: nat): Got<nat>
    decreases 8 * |s| - p
  {
    var g := DecBits(s, p, 7);
    var f := DecBits(s, g.pos, 1);
    var gathered := BitOr(value, Low(Shl(g.value, shift), WORD));
    if f.value == 1 then DecVarIntFrom(s, f.pos, gathered, shift + 7) else Got(gathered, f.pos)
  }

  function DecVarInt(s: seq<byte>, p: nat): Got<nat> {
    DecVarIntFrom(s, p, 0, 0)
  }

  /** Number of eight-bit groups a value takes. */
  function Groups(v: nat): (k: nat)
    ensures k >= 1
  {
    if v < 128 then 1 else 1 + Groups(v / 128)
  }

  /** A value takes at most k groups exactly when it fits in 7k bits. */
  lemma {:induction false} GroupsFit(v: nat, k: nat)
    requires k >= 1
    ensures Groups(v) <= k <==> v < Pow2(7 * k)
    decreases k
  {
    assert Pow2(7) == 128 by { assert Pow2(3) == 8; Pow2Sum(3, 4); }
    if k > 1 {
      Pow2Sum(7, 7 * (k - 1));
      assert 7 + 7 * (k - 1) == 7 * k;
      var m := Pow2(7 * (k - 1));
      assert v < 128 * m <==> v / 128 < m;
      GroupsFit(v / 128, k - 1);
    }
  }

  /** A 64-bit value takes at most ten groups, so the reader's shift stays below 64. */
  lemma WordGroups(v: nat)
    requires v < Pow2(WORD)
    ensures Groups(v) <= 10
  {
    Pow2Monotonic(64, 70);
    GroupsFit(v, 10);
  }

  /** The standard byte form of an unsigned number (section 7.6 of DWARF 5): seven bits a byte, least significant
    * first, and 128 added to every byte but the last. */
  function Leb128(v: nat): (bytes: seq<byte>)
    ensures |bytes| == Groups(v)
  {
    if v < 128 then [v] else [v % 128 + 128] + Leb128(v / 128)
  }

  /** The examples of DWARF 5, figure 7.6. */
  lemma Leb128Examples()
    ensures Leb128(2) == [0x02] && Leb128(127) == [0x7f] && Leb128(128) == [0x80, 0x01]
    ensures Leb128(129) == [0x81, 0x01] && Leb128(12857) == [0xb9, 0x64]
  {
  }

  /** Seven bits and a flag behind them are one octet. */
  lemma OctetOfGroup(s: seq<byte>, p: nat, value: nat)
    requires Holds(s, p, Bits(Low(value, 7), 7))
    requires Holds(s, p + 7, Bits(if Shr(value, 7) != 0 then 1 else 0, 1))
    ensures Holds(s, p, Bits(Leb128(value)[0], 8))
  {
    Split(Shr(LE(s), p), 7, 1);
    Split(LE(s), p, 7);
    hide LE, Shl, Shr, Low;
    FirstOctet(value);
  }

  lemma FirstOctet(value: nat)
    ensures Leb128(value)[0] == Low(value, 7) + Shl(if Shr(value, 7) != 0 then 1 else 0, 7)
  {
    Pow2Seven();
  }

  method ReadBool(r: Reader) returns (b: bool)
    modifies r
    ensures b == (DecBits(r.Stream(), old(r.bitPosition), 1).value == 1)
    ensures r.bitPosition == DecBits(r.Stream(), old(r.bitPosition), 1).pos
  {
    var ok, value := r.ReadBits(1);
    return value == 1;
  }

  method WriteBool(w: Writer, b: bool)
    requires w.Valid()
    modifies w, w.buffer, w.buffer.data
    ensures w.Valid() && (w.buffer.data == old(w.buffer.data) || fresh(w.buffer.data))
    ensures w.bitPosition == old(w.bitPosition) + 1
    ensures Extends(w.Stream(), old(w.Stream()), old(w.bitPosition))
    ensures forall t :: Extends(t, w.Stream(), w.bitPosition) ==>
      DecBits(t, old(w.bitPosition), 1) == Got(if b then 1 else 0, w.bitPosition)
  {
    var value := if b then 1 else 0;
    BoolBit(value);
    w.WriteBits(value, 1);
  }

  lemma BoolBit(b: nat)
    requires b <= 1
    ensures Low(b, 1) == b && b < Pow2(64)
  {
    assert Pow2(1) == 2;
    Pow2Monotonic(1, 64);
  }

  /** Terminates on every stream from every position, past the end included. */
  method ReadVarInt(r: Reader) returns (value: nat)
    modifies r
    ensures Got(value, r.bitPosition) == DecVarInt(r.Stream(), old(r.bitPosition))
  {
    value := 0;
    var shift := 0;
    var more := true;
    while more
      invariant more ==>
                  DecVarIntFrom(r.Stream(), r.bitPosition, value, shift) == DecVarInt(r.Stream(), old(r.bitPosition))
      invariant !more ==> Got(value, r.bitPosition) == DecVarInt(r.Stream(), old(r.bitPosition))
      decreases more, 8 * |r.Stream()| - r.bitPosition
    {
      var ok, tmp := r.ReadBits(7);
      value := BitOr(value, Low(Shl(tmp, shift), WORD));
      shift := shift + 7;
      more := ReadBool(r);
    }
  }

  /** Seven bits, and whether there are more. */
  method WriteGroup(w: Writer, value: nat) returns (rest: nat)
    requires w.Valid() && value < Pow2(WORD)
    modifies w, w.buffer, w.buffer.data
    ensures w.Valid() && (w.buffer.data == old(w.buffer.data) || fresh(w.buffer.data))
    ensures w.bitPosition == old(w.bitPosition) + 8
    ensures Extends(w.Stream(), old(w.Stream()), old(w.bitPosition))
    ensures Holds(w.Stream(), old(w.bitPosition), Bits(Leb128(value)[0], 8))
    ensures rest == Shr(value, 7)
  {
    hide Shl, Shr, Low, Pow2, LE, Written, Extends, DecBits, Holds, Leb128;
    ghost var s, p := w.Stream(), w.bitPosition;
    w.WriteBits(value, 7);
    ghost var s', q := w.Stream(), w.bitPosition;
    BitsStand(s', p, Low(value, 7), 7);
    rest := Shr(value, 7);
    WriteBool(w, rest != 0);
    BitsStand(w.Stream(), q, if rest != 0 then 1 else 0, 1);
    ExtendsTransitive(w.Stream(), s', q, s, p);
    HoldsStill(w.Stream(), s', p, Bits(Low(value, 7), 7));
    OctetOfGroup(w.Stream(), p, value);
  }

  /** The bytes written are the standard ones, at every alignment, and every later stream decodes to the value. */
  method WriteVarInt(w: Writer, v: nat)
    requires w.Valid() && v < Pow2(WORD)
    modifies w, w.buffer, w.buffer.data
    ensures w.Valid() && (w.buffer.data == old(w.buffer.data) || fresh(w.buffer.data))
    ensures w.bitPosition == old(w.bitPosition) + 8 * Groups(v)
    ensures Extends(w.Stream(), old(w.Stream()), old(w.bitPosition))
    ensures Laid(w.Stream(), old(w.bitPosition), Octets(Leb128(v)))
    ensures w.bitPosition == End(old(w.bitPosition), Octets(Leb128(v)))
    ensures Field(w.Stream(), old(w.bitPosition), 8 * Groups(v)) == LE(Leb128(v))
    ensures forall t :: Extends(t, w.Stream(), w.bitPosition) ==>
      DecVarInt(t, old(w.bitPosition)) == Got(v, w.bitPosition)
  {
    hide Shl, Shr, Low, Pow2, LE, Written, Extends, DecBits, Holds, Laid, Octets, End, Leb128, Groups, DecVarInt, Field;
    ghost var p := w.bitPosition;
    ghost var done: seq<byte> := [];
    NoOctets();
    NothingLaid(w.Stream(), p);
    SelfExtends(w.Stream(), p);
    var value: nat := v;
    var more := true;
    while more
      invariant w.Valid() && (w.buffer.data == old(w.buffer.data) || fresh(w.buffer.data))
      invariant p <= w.bitPosition && Extends(w.Stream(), old(w.Stream()), p)
      invariant value < Pow2(WORD) && Leb128(v) == done + (if more then Leb128(value) else [])
      invariant Laid(w.Stream(), p, Octets(done)) && w.bitPosition == End(p, Octets(done))
      decreases more, value
    {
      ghost var s, q, b := w.Stream(), w.bitPosition, Leb128(value)[0];
      LebGoes(Leb128(v), done, value);
      value := WriteGroup(w, value);
      ExtendsTransitive(w.Stream(), s, q, old(w.Stream()), p);
      OctetLaid(w.Stream(), s, p, done, b);
      more := value > 0;
      done := done + [b];
    }
    assert done + [] == done;
    LebFoundLater(w.Stream(), p, v);
    LebIsField(w.Stream(), p, v);
  }

  lemma NoOctets()
    ensures Octets([]) == []
  {
  }

  lemma OctetLaid(t: seq<byte>, s: seq<byte>, p: nat, done: seq<byte>, b: byte)
    requires Laid(s, p, Octets(done)) && Extends(t, s, End(p, Octets(done)))
    requires Holds(t, End(p, Octets(done)), Bits(b, 8))
    ensures Laid(t, p, Octets(done + [b])) && End(p, Octets(done + [b])) == End(p, Octets(done)) + 8
  {
    hide Extends, Holds, Laid, Octets;
    var q := End(p, Octets(done));
    LaidStays(t, s, p, Octets(done));
    OctetsMore(done, b);
    LaidOne(t, q, Bits(b, 8));
    LaidTogether(t, p, Octets(done), [Bits(b, 8)]);
  }

  lemma LebStep(value: nat)
    ensures Shr(value, 7) <= value && (Shr(value, 7) > 0 ==> Shr(value, 7) < value)
    ensures Leb128(value) == [Leb128(value)[0]] + (if Shr(value, 7) > 0 then Leb128(Shr(value, 7)) else [])
  {
    Pow2Seven();
  }

  lemma LebGoes(bytes: seq<byte>, done: seq<byte>, value: nat)
    requires bytes == done + Leb128(value)
    ensures Shr(value, 7) <= value && (Shr(value, 7) > 0 ==> Shr(value, 7) < value)
    ensures bytes == done + [Leb128(value)[0]] + (if Shr(value, 7) > 0 then Leb128(Shr(value, 7)) else [])
  {
    LebStep(value);
  }

  /** Where the standard bytes of a value stand, reading on finds the rest of the value. */
  lemma {:induction false} LebFoundFrom(s: seq<byte>, q: nat, v: nat, k: nat, value: nat)
    requires v < Pow2(WORD) && value == Shr(v, 7 * k) && Laid(s, q, Octets(Leb128(value)))
    ensures DecVarIntFrom(s, q, Low(v, 7 * k), 7 * k) == Got(v, q + 8 * |Leb128(value)|)
    decreases value
  {
    hide Shl, Shr, Low, Pow2, LE, DecBits, BitOr, Holds, Laid, Octets, Leb128, Groups;
    var next := Shr(value, 7);
    GroupStep(v, k, value);
    LebLaid(s, q, value);
    GroupOfOctet(s, q, value);
    assert 7 * k + 7 == 7 * (k + 1);
    if next > 0 {
      LebFoundFrom(s, q + 8, v, k + 1, next);
    }
  }

  lemma LebLaid(s: seq<byte>, q: nat, value: nat)
    requires Laid(s, q, Octets(Leb128(value)))
    ensures Holds(s, q, Bits(Leb128(value)[0], 8))
    ensures Shr(value, 7) > 0 ==> Laid(s, q + 8, Octets(Leb128(Shr(value, 7))))
    ensures |Leb128(value)| == 1 + if Shr(value, 7) > 0 then |Leb128(Shr(value, 7))| else 0
  {
    hide Holds, Shr;
    var b := Leb128(value)[0];
    LebStep(value);
    var rest := if Shr(value, 7) > 0 then Leb128(Shr(value, 7)) else [];
    assert Octets(Leb128(value)) == [Bits(b, 8)] + Octets(rest);
    hide *;
    LaidTogether(s, q, [Bits(b, 8)], Octets(rest));
    LaidOne(s, q, Bits(b, 8));
    AfterOctet(q, b);
  }

  lemma AfterOctet(q: nat, b: byte)
    ensures After(q, Bits(b, 8)) == q + 8
  {
  }

  lemma GroupOfOctet(s: seq<byte>, q: nat, value: nat)
    requires Holds(s, q, Bits(Leb128(value)[0], 8))
    ensures DecBits(s, q, 7) == Got(Low(value, 7), q + 7)
    ensures DecBits(s, q + 7, 1) == Got(if Shr(value, 7) > 0 then 1 else 0, q + 8)
  {
    var high := if Shr(value, 7) > 0 then 1 else 0;
    FirstOctet(value);
    Split(Shr(LE(s), q), 7, 1);
    Split(LE(s), q, 7);
    hide LE;
    SevenAndOne(Shr(LE(s), q), Low(value, 7), high);
  }

  lemma SevenAndOne(x: nat, lo: nat, hi: nat)
    requires Low(x, 7) + Shl(Low(Shr(x, 7), 1), 7) == lo + Shl(hi, 7) && lo < Pow2(7) && hi <= 1
    ensures Low(x, 7) == lo && Low(Shr(x, 7), 1) == hi
  {
    Halves(x, 7);
    Join(Low(x, 7), Low(Shr(x, 7), 1), 7);
    Join(lo, hi, 7);
  }

  /** Wherever the standard bytes of a 64-bit value stand, at whatever alignment, the reader finds it. */
  lemma LebFound(s: seq<byte>, p: nat, v: nat)
    requires v < Pow2(WORD) && Laid(s, p, Octets(Leb128(v)))
    ensures DecVarInt(s, p) == Got(v, p + 8 * Groups(v)) == Got(v, End(p, Octets(Leb128(v))))
  {
    LowNone(v);
    hide Shl, Shr, Low, Pow2, LE, Laid, Octets, Leb128;
    LebFoundFrom(s, p, v, 0, v);
    OctetsAreField(s, p, Leb128(v));
  }

  lemma LebFoundLater(s: seq<byte>, p: nat, v: nat)
    requires v < Pow2(WORD) && Laid(s, p, Octets(Leb128(v)))
    ensures End(p, Octets(Leb128(v))) == p + 8 * Groups(v)
    ensures forall t :: Extends(t, s, End(p, Octets(Leb128(v)))) ==>
              DecVarInt(t, p) == Got(v, End(p, Octets(Leb128(v))))
  {
    hide Pow2, Extends, Laid, Octets, End, Leb128, DecVarInt;
    OctetsAreField(s, p, Leb128(v));
    forall t | Extends(t, s, End(p, Octets(Leb128(v)))) ensures DecVarInt(t, p) == Got(v, End(p, Octets(Leb128(v)))) {
      LaidStays(t, s, p, Octets(Leb128(v)));
      LebFound(t, p, v);
    }
  }

  /** The same as one number of eight bits a group, and as the bytes of the stream where it begins at one. */
  lemma LebIsField(s: seq<byte>, p: nat, v: nat)
    requires Laid(s, p, Octets(Leb128(v)))
    ensures Field(s, p, 8 * Groups(v)) == LE(Leb128(v))
    ensures p % 8 == 0 ==> p / 8 + Groups(v) <= |s| && s[p / 8..p / 8 + Groups(v)] == Leb128(v)
  {
    OctetsAreField(s, p, Leb128(v));
  }

  /** One group: what the reader has gathered grows by the seven bits just written. */
  lemma GroupStep(v: nat, k: nat, value: nat)
    requires value == Shr(v, 7 * k) && v < Pow2(WORD)
    ensures Shr(value, 7) == Shr(v, 7 * (k + 1)) && Shr(value, 7) <= value
            && (Shr(value, 7) > 0 ==> Shr(value, 7) < value)
    ensures BitOr(Low(v, 7 * k), Low(Shl(Low(value, 7), 7 * k), WORD)) == Low(v, 7 * (k + 1))
    ensures Groups(value) == 1 + (if Shr(value, 7) > 0 then Groups(Shr(value, 7)) else 0)
    ensures Shr(value, 7) == 0 ==> Low(v, 7 * (k + 1)) == v
  {
    assert 7 * k + 7 == 7 * (k + 1);
    SevenBits(value);
    hide Shl, Shr, Low, Pow2, BitOr, Groups;
    GroupGathered(v, 7 * k, value);
    if Shr(value, 7) == 0 {
      LastGroup(v, 7 * (k + 1));
    }
  }

  lemma SevenBits(value: nat)
    ensures Shr(value, 7) <= value && (Shr(value, 7) > 0 ==> Shr(value, 7) < value)
    ensures Groups(value) == 1 + (if Shr(value, 7) > 0 then Groups(Shr(value, 7)) else 0)
  {
    Pow2Seven();
    hide Pow2;
  }

  lemma Pow2Seven()
    ensures Pow2(7) == 128
  {
    assert Pow2(3) == 8;
    Pow2Sum(3, 4);
  }

  lemma GroupGathered(v: nat, n: nat, value: nat)
    requires value == Shr(v, n) && v < Pow2(WORD)
    ensures Shr(value, 7) == Shr(v, n + 7)
    ensures BitOr(Low(v, n), Low(Shl(Low(value, 7), n), WORD)) == Low(v, n + 7)
  {
    Halves(v, n + 7);
    Halves(v, n);
    LowBelow(v, n + 7);
    hide Shl, Shr, Low, Pow2, BitOr;
    Split(v, n, 7);
    LowSmall(Shl(Low(value, 7), n), WORD);
    OrDisjoint(Low(value, 7), Low(v, n), n);
    OrSymmetric(Shl(Low(value, 7), n), Low(v, n));
  }

  lemma LowBelow(v: nat, n: nat)
    ensures Low(v, n) <= v
  {
    hide Low, Shr, Shl, Pow2;
    Halves(v, n);
  }

  lemma LastGroup(v: nat, n: nat)
    requires Shr(v, n) == 0
    ensures Low(v, n) == v
  {
    hide Pow2;
    Halves(v, n);
    ShlZero(n);
  }

  lemma ShlZero(n: nat)
    ensures Shl(0, n) == 0
  {
  }

  /** No sequence of reads leaves the stream: a variable-length integer ends inside it. */
  lemma {:induction false} VarIntStaysInside(s: seq<byte>, p: nat, value: nat, shift: nat)
    requires p <= 8 * |s|
    ensures p <= DecVarIntFrom(s, p, value, shift).pos <= 8 * |s|
    decreases 8 * |s| - p
  {
    var g := DecBits(s, p, 7);
    var f := DecBits(s, g.pos, 1);
    if f.value == 1 {
      VarIntStaysInside(s, f.pos, BitOr(value, Low(Shl(g.value, shift), WORD)), shift + 7);
    }
  }

  // ----- Signed integers

  predicate InRange(v: int, n: nat)
    requires n > 0
  {
    0 <= v + Pow2(n - 1) < Pow2(n)
  }

  /** Two's complement of a signed number in n bits. */
  function Pattern(v: int, n: nat): (x: nat)
    requires n > 0 && InRange(v, n)
    ensures x < Pow2(n)
  {
    if v < 0 then v + Pow2(n) else v
  }

  function Signed(x: nat, n: nat): (v: int)
    requires n > 0 && x < Pow2(n)
    ensures InRange(v, n) && Pattern(v, n) == x
  {
    if x < Pow2(n - 1) then x else x - Pow2(n)
  }

  /** The sign folding of the writer: shift left, complement if negative, sign into bit 0. */
  function Fold(x: nat, n: nat): nat
    requires n > 0 && x < Pow2(n)
  {
    var sign := Shr(x, n - 1);
    var shifted := Low(Shl(x, 1), n);
    Halves(Shl(x, 1), n);
    BitOr(if sign != 0 then Pow2(n) - 1 - shifted else shifted, sign)
  }

  /** The reader's unfolding. */
  function Unfold(y: nat, n: nat): nat
    requires n > 0 && y < Pow2(n)
  {
    var sign := Shl(Low(y, 1), n - 1);
    var plain := if sign != 0 then Pow2(n) - 1 - y else y;
    BitOr(Shr(plain, 1), sign)
  }

  lemma OrOne(x: nat, b: nat)
    requires b <= 1 && (b == 1 ==> x % 2 == 1)
    ensures BitOr(x, b) == x
  {
    OrZero(x);
    OrZero(x / 2);
  }

  /** Shifts by one bit, and the powers around the sign bit. */
  lemma OneBitShifts(x: nat, n: nat)
    requires n > 0
    ensures Pow2(n) == 2 * Pow2(n - 1)
    ensures Low(x, 1) == x % 2 && Shr(x, 1) == x / 2 && Shl(x, 1) == 2 * x
    ensures Shl(0, n - 1) == 0 && Shl(1, n - 1) == Pow2(n - 1)
  {
    assert Pow2(1) == 2;
  }

  function ZigZag(v: int): nat {
    if v >= 0 then 2 * v else -2 * v - 1
  }

  /** Folding is ZigZag: 0, -1, 1, -2, 2, ... become 0, 1, 2, 3, 4, ... */
  lemma FoldIsZigZag(v: int, n: nat)
    requires n > 0 && InRange(v, n)
    ensures Fold(Pattern(v, n), n) == ZigZag(v)
  {
    hide Fold, Pow2;
    if v >= 0 {
      FoldPositive(v, n);
    } else {
      FoldNegative(v, n);
    }
  }

  lemma FoldPositive(v: int, n: nat)
    requires n > 0 && InRange(v, n) && v >= 0
    ensures Fold(Pattern(v, n), n) == 2 * v
  {
    hide Shl, Pow2, BitOr;
    OneBitShifts(v, n);
    LowSmall(v, n - 1);
    LowSmall(2 * v, n);
    OrOne(2 * v, 0);
  }

  lemma FoldNegative(v: int, n: nat)
    requires n > 0 && InRange(v, n) && v < 0
    ensures Fold(Pattern(v, n), n) == -2 * v - 1
  {
    hide Shl, Pow2, BitOr;
    var h, x := Pow2(n - 1), Pattern(v, n);
    OneBitShifts(x, n);
    DivModUnique(x, h, 1, x - h);
    DivModUnique(2 * x, 2 * h, 1, 2 * x - 2 * h);
    OrOne(4 * h - 1 - 2 * x, 1);
  }

  lemma UnfoldIsZagZig(y: nat, n: nat)
    requires n > 0 && y < Pow2(n)
    ensures Unfold(y, n) < Pow2(n)
    ensures Signed(Unfold(y, n), n) == (if y % 2 == 0 then y / 2 else -((y + 1) / 2))
  {
    hide Shl, Shr, Low, Pow2, BitOr;
    OneBitShifts(y, n);
    if y % 2 == 0 {
      OrZero(y / 2);
    } else {
      UnfoldOdd(y, n);
    }
  }

  lemma UnfoldOdd(y: nat, n: nat)
    requires n > 0 && y < Pow2(n) && y % 2 == 1
    ensures var k := (y + 1) / 2;
            k <= Pow2(n - 1) && Unfold(y, n) == 2 * Pow2(n - 1) - k && Pow2(n) == 2 * Pow2(n - 1) && k > 0
  {
    hide Shl, Shr, Low, Pow2, BitOr;
    OneBitShifts(y, n);
    var h := Pow2(n - 1);
    var k := OddHalf(y, h);
    OneBitShifts(2 * h - 1 - y, n);
    OrDisjoint(1, h - k, n - 1);
    OrSymmetric(h, h - k);
  }

  lemma OddHalf(y: nat, h: nat) returns (k: nat)
    requires y % 2 == 1 && y < 2 * h
    ensures k == (y + 1) / 2 && 0 < k <= h && (2 * h - 1 - y) / 2 == h - k
  {
    k := (y + 1) / 2;
  }

  lemma FoldThenUnfold(v: int, n: nat)
    requires n > 0 && InRange(v, n)
    ensures Fold(Pattern(v, n), n) < Pow2(n) && Unfold(Fold(Pattern(v, n), n), n) == Pattern(v, n)
  {
    var z := if v >= 0 then 2 * v else -2 * v - 1;
    hide Fold, Unfold, Pow2, Pattern, Signed;
    ZigZagFits(v, n, z);
    FoldIsZigZag(v, n);
    UnfoldIsZagZig(z, n);
  }

  lemma ZigZagFits(v: int, n: nat, z: int)
    requires n > 0 && InRange(v, n) && z == if v >= 0 then 2 * v else -2 * v - 1
    ensures 0 <= z < Pow2(n)
    ensures (if z % 2 == 0 then z / 2 else -((z + 1) / 2)) == v
  {
    OneBitShifts(0, n);
    hide Pow2;
    ZigZagHalves(v, Pow2(n - 1), z);
  }

  lemma ZigZagHalves(v: int, h: nat, z: int)
    requires 0 <= v + h && v < h && z == if v >= 0 then 2 * v else -2 * v - 1
    ensures 0 <= z < 2 * h
    ensures (if z % 2 == 0 then z / 2 else -((z + 1) / 2)) == v
  {
  }

  lemma UnfoldThenFold(y: nat, n: nat)
    requires n > 0 && y < Pow2(n)
    ensures Unfold(y, n) < Pow2(n) && Fold(Unfold(y, n), n) == y
  {
    hide Fold, Unfold, Pow2, Pattern, Signed, InRange;
    UnfoldIsZagZig(y, n);
    FoldIsZigZag(Signed(Unfold(y, n), n), n);
  }

  /** Folding and unfolding undo each other, on every pattern of either width. */
  lemma FoldUnfold(v: int, y: nat, n: nat)
    requires n > 0 && InRange(v, n) && y < Pow2(n)
    ensures Fold(Pattern(v, n), n) < Pow2(n) && Unfold(Fold(Pattern(v, n), n), n) == Pattern(v, n)
    ensures Unfold(y, n) < Pow2(n) && Fold(Unfold(y, n), n) == y
  {
    hide Fold, Unfold, Pow2, Pattern, InRange;
    FoldThenUnfold(v, n);
    UnfoldThenFold(y, n);
  }

  /** Reading a signed integer of n bits: mask, unfold, reinterpret. */
  function DecInt(s: seq<byte>, p: nat, n: nat): Got<int>
    requires n > 0
  {
    var g := DecVarInt(s, p);
    var y := Low(g.value, n);
    Halves(g.value, n);
    UnfoldIsZagZig(y, n);
    Got(Signed(Unfold(y, n), n), g.pos)
  }

  method WriteInt(w: Writer, v: int, n: nat)
    requires w.Valid() && (n == 32 || n == 64) && InRange(v, n)
    modifies w, w.buffer, w.buffer.data
    ensures w.Valid() && (w.buffer.data == old(w.buffer.data) || fresh(w.buffer.data))
    ensures w.bitPosition >= old(w.bitPosition)
    ensures Extends(w.Stream(), old(w.Stream()), old(w.bitPosition))
    ensures Laid(w.Stream(), old(w.bitPosition), Octets(Leb128(ZigZag(v))))
    ensures w.bitPosition == End(old(w.bitPosition), Octets(Leb128(ZigZag(v))))
    ensures forall t :: Extends(t, w.Stream(), w.bitPosition) ==>
            DecInt(t, old(w.bitPosition), n) == Got(v, w.bitPosition)
  {
    hide Shl, Shr, Low, Pow2, BitOr, Extends, DecVarInt, Laid, Octets, End, Leb128, Field, LE;
    FoldIsZigZag(v, n);
    var x := Pattern(v, n);
    var sign := Shr(x, n - 1);
    var value := Low(Shl(x, 1), n);
    Halves(Shl(x, 1), n);
    if sign != 0 {
      value := Pow2(n) - 1 - value;
    }
    value := BitOr(value, sign);
    FoldUnfold(v, 0, n);
    Pow2Monotonic(n, 64);
    LowSmall(value, n);
    WriteVarInt(w, value);
  }

  method ReadInt(r: Reader, n: nat) returns (v: int)
    requires n == 32 || n == 64
    modifies r
    ensures Got(v, r.bitPosition) == DecInt(r.Stream(), old(r.bitPosition), n)
  {
    hide Shl, Shr, Low, Pow2, BitOr, DecVarInt;
    var raw := ReadVarInt(r);
    var res := Low(raw, n);
    Halves(raw, n);
    UnfoldIsZagZig(res, n);
    var sign := Shl(Low(res, 1), n - 1);
    if sign != 0 {
      res := Pow2(n) - 1 - res;
    }
    res := BitOr(Shr(res, 1), sign);
    v := Signed(res, n);
  }

  // ----- Strings and byte vectors: a length of 16 bits, then the bytes from a byte boundary

  function DecString(s: seq<byte>, p: nat): Got<seq<byte>> {
    var g := DecVarInt(s, p);
    DecBytes(s, g.pos, g.value % 65536)
  }

  /** The bytes that are sent of a string: as many as its length modulo 65536. */
  function Short(bytes: seq<byte>): seq<byte> {
    bytes[..|bytes| % 65536]
  }

  /** The length as standard bytes, then the string from the next byte boundary. */
  function TextSlots(bytes: seq<byte>): seq<Slot> {
    Octets(Leb128(|bytes| % 65536)) + [Bytes(Short(bytes))]
  }

  method WriteString(w: Writer, bytes: seq<byte>)
    requires w.Valid()
    modifies w, w.buffer, w.buffer.data
    ensures w.Valid() && (w.buffer.data == old(w.buffer.data) || fresh(w.buffer.data))
    ensures w.bitPosition >= old(w.bitPosition)
    ensures Extends(w.Stream(), old(w.Stream()), old(w.bitPosition))
    ensures Laid(w.Stream(), old(w.bitPosition), TextSlots(bytes))
    ensures w.bitPosition == End(old(w.bitPosition), TextSlots(bytes))
    ensures forall t :: Extends(t, w.Stream(), w.bitPosition) ==>
      DecString(t, old(w.bitPosition)) == Got(Short(bytes), w.bitPosition)
  {
    hide Extends, DecVarInt, DecBytes, Pow2, Laid, Octets, End, Leb128, Holds, Field, LE;
    ghost var s, p := w.Stream(), w.bitPosition;
    var len := |bytes| % 65536;
    ShortFits(len);
    WriteVarInt(w, len);
    ghost var s', q := w.Stream(), w.bitPosition;
    w.WriteBytes(bytes[..len]);
    ExtendsTransitive(w.Stream(), s', q, s, p);
    LengthThenBytes(w.Stream(), s', p, q, bytes);
    forall t | Extends(t, w.Stream(), w.bitPosition) ensures DecString(t, p) == Got(bytes[..len], w.bitPosition) {
      ExtendsTransitive(t, w.Stream(), w.bitPosition, s', q);
    }
  }

  lemma LengthThenBytes(t: seq<byte>, s: seq<byte>, p: nat, q: nat, bytes: seq<byte>)
    requires Laid(s, p, Octets(Leb128(|bytes| % 65536))) && q == End(p, Octets(Leb128(|bytes| % 65536)))
    requires Extends(t, s, q) && After(q, Bytes(Short(bytes))) <= 8 * |t|
    requires forall u :: Extends(u, t, After(q, Bytes(Short(bytes)))) ==>
               DecBytes(u, q, |Short(bytes)|) == Got(Short(bytes), After(q, Bytes(Short(bytes))))
    ensures Laid(t, p, TextSlots(bytes)) && End(p, TextSlots(bytes)) == After(q, Bytes(Short(bytes)))
  {
    hide Extends, DecBytes, Laid, Octets, End, Leb128, Holds, Short, After;
    var x := Bytes(Short(bytes));
    BytesStand(t, q, Short(bytes));
    LaidStays(t, s, p, Octets(Leb128(|bytes| % 65536)));
    LaidOne(t, q, x);
    LaidTogether(t, p, Octets(Leb128(|bytes| % 65536)), [x]);
  }

  lemma TextFound(s: seq<byte>, p: nat, bytes: seq<byte>)
    requires Laid(s, p, TextSlots(bytes))
    ensures DecString(s, p) == Got(Short(bytes), End(p, TextSlots(bytes)))
  {
    hide Laid, End, Octets, Leb128, Holds, DecVarInt, DecBytes, Pow2, Short;
    var len, b := |bytes| % 65536, Short(bytes);
    var q := End(p, Octets(Leb128(len)));
    ShortFits(len);
    ShortLength(bytes);
    LaidTogether(s, p, Octets(Leb128(len)), [Bytes(b)]);
    LebFound(s, p, len);
    LaidOne(s, q, Bytes(b));
    BytesFound(s, q, b);
  }

  lemma ShortLength(bytes: seq<byte>)
    ensures |Short(bytes)| == |bytes| % 65536
  {
  }

  lemma ShortFits(len: nat)
    requires len < 65536
    ensures len < Pow2(WORD)
  {
    assert Pow2(4) == 16;
    Pow2Sum(4, 4);
    Pow2Sum(8, 8);
    Pow2Monotonic(16, WORD);
  }

  method ReadString(r: Reader) returns (bytes: seq<byte>)
    requires r.bitPosition <= 8 * |r.Stream()|
    modifies r
    ensures Got(bytes, r.bitPosition) == DecString(r.Stream(), old(r.bitPosition))
    ensures r.bitPosition <= 8 * |r.Stream()|
  {
    hide LE, Low, Shr;
    VarIntStaysInside(r.Stream(), r.bitPosition, 0, 0);
    var n := ReadVarInt(r);
    var len := n % 65536;
    bytes := seq(len, _ => 0);
    var ok, dest := r.ReadBytes(len);
    if ok { bytes := dest; }
  }
}
