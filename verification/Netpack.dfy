/** The message code that netpack emits: which fields a message has on the wire and in
  * which order, and what the emitted serialize and deserialize do with them. */
module Netpack {
  import opened Bits
  import opened Buffers
  import opened Serialization
  import opened Wire

  // ----- Schemas and values

  /** Field types as the generator distinguishes them: raw 32/64-bit patterns, booleans,
    * integers and enums (variable length), strings and byte vectors, and messages. */
  datatype Kind = Fixed(bits: nat) | Boolean | Integer(signed: bool, bits: nat) | Text | Nested(schema: Schema)

  /** A message on the wire: its singular fields, each with a presence bit, then its repeated fields. */
  datatype Schema = Schema(singles: seq<Kind>, repeats: seq<Kind>)

  datatype Value = Num(n: int) | Flag(b: bool) | Blob(bytes: seq<byte>) | Object(message: Message)

  datatype Message = Message(present: seq<bool>, singles: seq<Value>, repeats: seq<seq<Value>>)

  predicate ValidKind(k: Kind)
    decreases k, 0
  {
    match k
    case Fixed(n) => n == 32 || n == 64
    case Integer(_, n) => n == 32 || n == 64
    case Nested(sch) => ValidSchema(sch)
    case _ => true
  }

  /** At most 64 presence bits per message. */
  predicate ValidSchema(sch: Schema)
    decreases sch, 1
  {
    && |sch.singles| <= 64
    && (forall i :: 0 <= i < |sch.singles| ==> ValidKind(sch.singles[i]))
    && (forall i :: 0 <= i < |sch.repeats| ==> ValidKind(sch.repeats[i]))
  }

  /** v is a value of kind k whose lengths fit the 16-bit counts. */
  predicate Typed(k: Kind, v: Value)
    decreases k, 0
  {
    match k
    case Fixed(n) => v.Num? && 0 <= v.n < Pow2(n)
    case Boolean => v.Flag?
    case Integer(signed, n) => v.Num? && if signed then n > 0 && InRange(v.n, n) else 0 <= v.n < Pow2(n)
    case Text => v.Blob? && |v.bytes| < 65536
    case Nested(sch) => v.Object? && TypedMessage(sch, v.message)
  }

  predicate TypedMessage(sch: Schema, m: Message)
    decreases sch, 1
  {
    && |m.present| == |m.singles| == |sch.singles| && |m.repeats| == |sch.repeats|
    && (forall i :: 0 <= i < |sch.singles| ==> Typed(sch.singles[i], m.singles[i]))
    && (forall i :: 0 <= i < |sch.repeats| ==> |m.repeats[i]| < 65536)
    && (forall i, j :: 0 <= i < |sch.repeats| && 0 <= j < |m.repeats[i]| ==> Typed(sch.repeats[i], m.repeats[i][j]))
  }

  /** A freshly constructed field. */
  function Default(k: Kind): Value
    decreases k, 0
  {
    match k
    case Fixed(_) => Num(0)
    case Boolean => Flag(false)
    case Integer(_, _) => Num(0)
    case Text => Blob([])
    case Nested(sch) => Object(Fresh(sch))
  }

  function Fresh(sch: Schema): Message
    decreases sch, 1
  {
    Message(seq(|sch.singles|, _ => false),
            seq(|sch.singles|, i requires 0 <= i < |sch.singles| => Default(sch.singles[i])),
            seq(|sch.repeats|, _ => []))
  }

  /** What of a value is sent: absent fields are as in a fresh object, at every depth. */
  function Sent(k: Kind, v: Value): Value
    requires Typed(k, v)
    decreases k, 0
  {
    match k
    case Nested(sch) => Object(SentMessage(sch, v.message))
    case _ => v
  }

  function SentMessage(sch: Schema, m: Message): Message
    requires TypedMessage(sch, m)
    decreases sch, 1
  {
    Message(m.present,
            seq(|sch.singles|, i requires 0 <= i < |sch.singles| =>
              if m.present[i] then Sent(sch.singles[i], m.singles[i]) else Default(sch.singles[i])),
            seq(|sch.repeats|, i requires 0 <= i < |sch.repeats| => SentAll(sch.repeats[i], m.repeats[i])))
  }

  function SentAll(k: Kind, vs: seq<Value>): (sent: seq<Value>)
    requires forall j :: 0 <= j < |vs| ==> Typed(k, vs[j])
    decreases k, 1
  {
    seq(|vs|, j requires 0 <= j < |vs| => Sent(k, vs[j]))
  }

  // ----- Presence bits

  function FromBools(bs: seq<bool>): nat {
    if bs == [] then 0 else (if bs[0] then 1 else 0) + 2 * FromBools(bs[1..])
  }

  function ToBools(x: nat, n: nat): (bs: seq<bool>)
    ensures |bs| == n
  {
    if n == 0 then [] else [x % 2 == 1] + ToBools(x / 2, n - 1)
  }

  lemma {:induction false} BoolsRoundTrip(bs: seq<bool>)
    ensures FromBools(bs) < Pow2(|bs|) && ToBools(FromBools(bs), |bs|) == bs
    decreases |bs|
  {
    if bs != [] {
      BoolsRoundTrip(bs[1..]);
      assert bs == [bs[0]] + bs[1..];
    }
  }

  /** The presence bits of an object after `|=` with the bits read. */
  function OrBools(a: seq<bool>, b: seq<bool>): seq<bool>
    requires |a| == |b|
  {
    seq(|a|, i requires 0 <= i < |a| => a[i] || b[i])
  }

  // ----- What deserializing a stream must give

  function DecValue(s: seq<byte>, p: nat, k: Kind): Got<Value>
    decreases k, 0
  {
    match k
    case Fixed(n) => var g := DecBits(s, p, n); Got(Num(g.value), g.pos)
    case Boolean => var g := DecBits(s, p, 1); Got(Flag(g.value == 1), g.pos)
    case Integer(signed, n) =>
      var g := DecVarInt(s, p);
      var x := Low(g.value, n);
      Halves(g.value, n);
      Got(Num(if signed && n > 0 then Signed(x, n) else x), g.pos)
    case Text => var g := DecString(s, p); Got(Blob(g.value), g.pos)
    case Nested(sch) => var g := DecMessage(s, p, sch); Got(Object(g.value), g.pos)
  }

  /** The optional part, `acc` being the fields already dealt with. */
  function DecSingles(s: seq<byte>, p: nat, sch: Schema, present: seq<bool>, acc: seq<Value>): Got<seq<Value>>
    requires |acc| <= |sch.singles| == |present|
    decreases sch, 1, |sch.singles| - |acc|
  {
    var i := |acc|;
    if i == |sch.singles| then Got(acc, p)
    else if present[i] then
      var g := DecValue(s, p, sch.singles[i]);
      DecSingles(s, g.pos, sch, present, acc + [g.value])
    else
      DecSingles(s, p, sch, present, acc + [Default(sch.singles[i])])
  }

  function DecElements(s: seq<byte>, p: nat, k: Kind, count: nat, acc: seq<Value>): Got<seq<Value>>
    requires |acc| <= count
    decreases k, 1, count - |acc|
  {
    if |acc| == count then Got(acc, p)
    else
      var g := DecValue(s, p, k);
      DecElements(s, g.pos, k, count, acc + [g.value])
  }

  function DecRepeats(s: seq<byte>, p: nat, sch: Schema, acc: seq<seq<Value>>): Got<seq<seq<Value>>>
    requires |acc| <= |sch.repeats|
    decreases sch, 1, |sch.repeats| - |acc|
  {
    var i := |acc|;
    if i == |sch.repeats| then Got(acc, p)
    else
      var c := DecVarInt(s, p);
      var g := DecElements(s, c.pos, sch.repeats[i], c.value % 65536, []);
      DecRepeats(s, g.pos, sch, acc + [g.value])
  }

  /** Deserializing into a fresh object. */
  function DecMessage(s: seq<byte>, p: nat, sch: Schema): Got<Message>
    decreases sch, 2
  {
    var n := |sch.singles|;
    var b := if n == 0 then Got(0, p) else DecBits(s, p, n);
    var present := OrBools(Fresh(sch).present, ToBools(b.value, n));
    var o := DecSingles(s, b.pos, sch, present, []);
    var r := DecRepeats(s, o.pos, sch, []);
    Got(Message(present, o.value, r.value), r.pos)
  }

  /** Conversion of an integer to the 64-bit word handed to WriteVarInt: sign extension. */
  function Word(v: int): nat
    requires v + Pow2(63) >= 0
  {
    OneBitShifts(0, 64);
    if v < 0 then v + Pow2(64) else v
  }

  lemma WordReadsBack(signed: bool, n: nat, v: int)
    requires n == 32 || n == 64
    requires if signed then InRange(v, n) else 0 <= v < Pow2(n)
    ensures v + Pow2(63) >= 0 && Word(v) < Pow2(64)
    ensures Low(Word(v), n) < Pow2(n) && (if signed then Signed(Low(Word(v), n), n) else Low(Word(v), n)) == v
  {
    hide Shl, Low, Pow2;
    Pow2Monotonic(n - 1, 63);
    Pow2Monotonic(n, 64);
    OneBitShifts(0, n);
    OneBitShifts(0, 64);
    if v >= 0 {
      LowSmall(v, n);
    } else if n == 64 {
      LowSmall(v + Pow2(64), 64);
    } else {
      SignExtended(v);
    }
  }

  lemma SignExtended(v: int)
    requires v < 0 && InRange(v, 32)
    ensures v + Pow2(64) >= 0 && Low(v + Pow2(64), 32) == v + Pow2(32)
  {
    hide Low, Pow2;
    OneBitShifts(0, 32);
    TopWord();
    Join(v + Pow2(32), Pow2(32) - 1, 32);
  }

  lemma TopWord()
    ensures Pow2(32) + Shl(Pow2(32) - 1, 32) == Pow2(64)
  {
    hide Pow2;
    Pow2Sum(32, 32);
    Square(Pow2(32));
  }

  lemma Square(h: nat)
    ensures (h - 1) * h == h * h - h
  {
  }

  // ----- What a message is on the wire

  /** One bit for each flag, in order. */
  function FlagSlots(bs: seq<bool>): seq<Slot> {
    seq(|bs|, i requires 0 <= i < |bs| => Bits(if bs[i] then 1 else 0, 1))
  }

  function ValueSlots(k: Kind, v: Value): seq<Slot>
    requires ValidKind(k) && Typed(k, v)
    decreases k, 0
  {
    match k
    case Fixed(n) => [Bits(v.n, n)]
    case Boolean => FlagSlots([v.b])
    case Integer(signed, n) =>
      WordReadsBack(signed, n, v.n);
      Octets(Leb128(Word(v.n)))
    case Text => TextSlots(v.bytes)
    case Nested(sch) => MessageSlots(sch, v.message)
  }

  /** The present ones of the first i singular fields. */
  function SinglesSlots(sch: Schema, m: Message, i: nat): seq<Slot>
    requires ValidSchema(sch) && TypedMessage(sch, m) && i <= |sch.singles|
    decreases sch, 1, i
  {
    if i == 0 then []
    else SinglesSlots(sch, m, i - 1)
         + (if m.present[i - 1] then ValueSlots(sch.singles[i - 1], m.singles[i - 1]) else [])
  }

  function ElementsSlots(k: Kind, vs: seq<Value>, j: nat): seq<Slot>
    requires ValidKind(k) && (forall j :: 0 <= j < |vs| ==> Typed(k, vs[j])) && j <= |vs|
    decreases k, 1, j
  {
    if j == 0 then [] else ElementsSlots(k, vs, j - 1) + ValueSlots(k, vs[j - 1])
  }

  /** The first i repeated fields, each with the number of its elements in front. */
  function RepeatsSlots(sch: Schema, m: Message, i: nat): seq<Slot>
    requires ValidSchema(sch) && TypedMessage(sch, m) && i <= |sch.repeats|
    decreases sch, 1, i
  {
    if i == 0 then []
    else RepeatsSlots(sch, m, i - 1) + RepeatSlots(sch.repeats[i - 1], m.repeats[i - 1])
  }

  function RepeatSlots(k: Kind, vs: seq<Value>): seq<Slot>
    requires ValidKind(k) && forall j :: 0 <= j < |vs| ==> Typed(k, vs[j])
    decreases k, 2
  {
    Octets(Leb128(|vs|)) + ElementsSlots(k, vs, |vs|)
  }

  /** A presence bit for every singular field, the present ones, and the repeated fields. */
  function MessageSlots(sch: Schema, m: Message): seq<Slot>
    requires ValidSchema(sch) && TypedMessage(sch, m)
    decreases sch, 2
  {
    FlagSlots(m.present) + SinglesSlots(sch, m, |sch.singles|) + RepeatsSlots(sch, m, |sch.repeats|)
  }

  /** Flags packed into a number, the first one lowest, are one bit each. */
  lemma {:induction false} FlagsLaid(s: seq<byte>, p: nat, bs: seq<bool>)
    ensures Laid(s, p, FlagSlots(bs)) <==> p + |bs| <= 8 * |s| && Field(s, p, |bs|) == FromBools(bs)
    ensures End(p, FlagSlots(bs)) == p + |bs|
    decreases |bs|
  {
    hide LE, Shl, Shr, Low;
    if bs == [] {
      LowNone(Shr(LE(s), p));
    } else {
      var n, rest := |bs| - 1, bs[1..];
      assert FlagSlots(bs)[1..] == FlagSlots(rest);
      FlagsLaid(s, p + 1, rest);
      Split(Shr(LE(s), p), 1, n);
      Split(LE(s), p, 1);
      BitAndRest(Shr(LE(s), p), bs[0], n);
    }
  }

  lemma BitAndRest(x: nat, b: bool, n: nat)
    ensures Low(x, 1) < 2 && Shl(Low(Shr(x, 1), n), 1) == 2 * Low(Shr(x, 1), n)
  {
    OneBit(x);
    Doubled(Low(Shr(x, 1), n));
  }

  // ----- What deserializing finds there

  lemma ValueFound(s: seq<byte>, p: nat, k: Kind, v: Value)
    requires ValidKind(k) && Typed(k, v) && Laid(s, p, ValueSlots(k, v))
    ensures DecValue(s, p, k) == Got(Sent(k, v), End(p, ValueSlots(k, v)))
    decreases k, 0
  {
    hide Shl, Shr, Low, Pow2, LE, DecBits, DecVarInt, DecString, DecMessage, Field, Holds, Laid, Octets, Leb128;
    match k
    case Fixed(n) =>
      LaidOne(s, p, Bits(v.n, n));
      BitsFound(s, p, v.n, n);
    case Boolean =>
      var x := if v.b then 1 else 0;
      assert FlagSlots([v.b]) == [Bits(x, 1)];
      LaidOne(s, p, Bits(x, 1));
      BitsFound(s, p, x, 1);
    case Integer(signed, n) =>
      WordReadsBack(signed, n, v.n);
      LebFound(s, p, Word(v.n));
    case Text =>
      assert v.bytes[..|v.bytes| % 65536] == v.bytes;
      TextFound(s, p, v.bytes);
    case Nested(sch) =>
      MessageFound(s, p, sch, v.message);
  }

  lemma SinglesFound(s: seq<byte>, p: nat, sch: Schema, m: Message, i: nat)
    requires ValidSchema(sch) && TypedMessage(sch, m) && i <= |sch.singles| && Laid(s, p, SinglesSlots(sch, m, i))
    ensures DecSingles(s, p, sch, m.present, [])
         == DecSingles(s, End(p, SinglesSlots(sch, m, i)), sch, m.present, SentMessage(sch, m).singles[..i])
    decreases sch, 1, i
  {
    hide DecValue, Sent, Typed, ValidKind, Laid, ValueSlots, End, Default;
    var sent := SentMessage(sch, m).singles;
    if i == 0 {
      NothingLaid(s, p);
    } else {
      var before, k, v := SinglesSlots(sch, m, i - 1), sch.singles[i - 1], m.singles[i - 1];
      var xs := if m.present[i - 1] then ValueSlots(k, v) else [];
      LaidTogether(s, p, before, xs);
      SinglesFound(s, p, sch, m, i - 1);
      assert sent[..i] == sent[..i - 1] + [sent[i - 1]];
      if m.present[i - 1] {
        ValueFound(s, End(p, before), k, v);
      } else {
        NothingLaid(s, End(p, before));
      }
    }
  }

  lemma ElementsFound(s: seq<byte>, p: nat, k: Kind, vs: seq<Value>, j: nat)
    requires ValidKind(k) && (forall j :: 0 <= j < |vs| ==> Typed(k, vs[j])) && j <= |vs|
    requires Laid(s, p, ElementsSlots(k, vs, j))
    ensures DecElements(s, p, k, |vs|, [])
         == DecElements(s, End(p, ElementsSlots(k, vs, j)), k, |vs|, SentAll(k, vs)[..j])
    decreases k, 1, j
  {
    hide DecValue, Sent, Typed, ValidKind, Laid, ValueSlots, End;
    var sent := SentAll(k, vs);
    if j == 0 {
      NothingLaid(s, p);
    } else {
      var before := ElementsSlots(k, vs, j - 1);
      LaidTogether(s, p, before, ValueSlots(k, vs[j - 1]));
      ElementsFound(s, p, k, vs, j - 1);
      assert sent[..j] == sent[..j - 1] + [sent[j - 1]];
      ValueFound(s, End(p, before), k, vs[j - 1]);
    }
  }

  lemma AllElementsFound(s: seq<byte>, p: nat, k: Kind, vs: seq<Value>)
    requires ValidKind(k) && forall j :: 0 <= j < |vs| ==> Typed(k, vs[j])
    requires Laid(s, p, ElementsSlots(k, vs, |vs|))
    ensures DecElements(s, p, k, |vs|, []) == Got(SentAll(k, vs), End(p, ElementsSlots(k, vs, |vs|)))
    decreases k, 2
  {
    hide DecValue, Sent, Typed, ValidKind, Laid, ElementsSlots, End;
    ElementsFound(s, p, k, vs, |vs|);
    assert SentAll(k, vs)[..|vs|] == SentAll(k, vs);
  }

  lemma RepeatFound(s: seq<byte>, p: nat, k: Kind, vs: seq<Value>)
    requires ValidKind(k) && (forall j :: 0 <= j < |vs| ==> Typed(k, vs[j])) && |vs| < 65536
    requires Laid(s, p, RepeatSlots(k, vs))
    ensures DecVarInt(s, p) == Got(|vs|, End(p, Octets(Leb128(|vs|))))
    ensures DecElements(s, DecVarInt(s, p).pos, k, |vs|, []) == Got(SentAll(k, vs), End(p, RepeatSlots(k, vs)))
    decreases k, 3
  {
    hide DecValue, Sent, Typed, ValidKind, Laid, ValueSlots, End, Octets, Leb128, DecVarInt, Pow2, ElementsSlots;
    ShortFits(|vs|);
    LaidTogether(s, p, Octets(Leb128(|vs|)), ElementsSlots(k, vs, |vs|));
    LebFound(s, p, |vs|);
    AllElementsFound(s, End(p, Octets(Leb128(|vs|))), k, vs);
  }

  lemma RepeatsFound(s: seq<byte>, p: nat, sch: Schema, m: Message, i: nat)
    requires ValidSchema(sch) && TypedMessage(sch, m) && i <= |sch.repeats| && Laid(s, p, RepeatsSlots(sch, m, i))
    ensures DecRepeats(s, p, sch, [])
         == DecRepeats(s, End(p, RepeatsSlots(sch, m, i)), sch, SentMessage(sch, m).repeats[..i])
    decreases sch, 1, i
  {
    hide DecElements, DecVarInt, Sent, SentAll, Typed, ValidKind, Laid, RepeatSlots, End;
    var sent := SentMessage(sch, m).repeats;
    if i == 0 {
      NothingLaid(s, p);
    } else {
      var before := RepeatsSlots(sch, m, i - 1);
      LaidTogether(s, p, before, RepeatSlots(sch.repeats[i - 1], m.repeats[i - 1]));
      RepeatsFound(s, p, sch, m, i - 1);
      assert sent[..i] == sent[..i - 1] + [sent[i - 1]];
      RepeatFound(s, End(p, before), sch.repeats[i - 1], m.repeats[i - 1]);
    }
  }

  /** Wherever a message stands, at whatever alignment, deserializing gives what of it is sent. */
  lemma MessageFound(s: seq<byte>, p: nat, sch: Schema, m: Message)
    requires ValidSchema(sch) && TypedMessage(sch, m) && Laid(s, p, MessageSlots(sch, m))
    ensures DecMessage(s, p, sch) == Got(SentMessage(sch, m), End(p, MessageSlots(sch, m)))
    decreases sch, 2
  {
    hide DecSingles, DecRepeats, Sent, SentAll, Typed, ValidKind, Default;
    hide Laid, SinglesSlots, RepeatsSlots, FlagSlots, End, Field, LE, Low;
    var n, sent := |sch.singles|, SentMessage(sch, m);
    var xs, ys, zs := FlagSlots(m.present), SinglesSlots(sch, m, n), RepeatsSlots(sch, m, |sch.repeats|);
    LaidTogether(s, p, xs + ys, zs);
    LaidTogether(s, p, xs, ys);
    FlagsLaid(s, p, m.present);
    BoolsRoundTrip(m.present);
    assert OrBools(Fresh(sch).present, m.present) == m.present;
    NoBits(m.present);
    SinglesFound(s, p + n, sch, m, n);
    assert sent.singles[..n] == sent.singles && sent.repeats[..|sch.repeats|] == sent.repeats;
    AllSingles(s, End(p + n, ys), sch, m.present, sent.singles);
    RepeatsFound(s, End(p + n, ys), sch, m, |sch.repeats|);
    AllRepeats(s, End(End(p + n, ys), zs), sch, sent.repeats);
  }

  lemma AllSingles(s: seq<byte>, p: nat, sch: Schema, present: seq<bool>, all: seq<Value>)
    requires |all| == |sch.singles| == |present|
    ensures DecSingles(s, p, sch, present, all) == Got(all, p)
  {
  }

  lemma AllRepeats(s: seq<byte>, p: nat, sch: Schema, all: seq<seq<Value>>)
    requires |all| == |sch.repeats|
    ensures DecRepeats(s, p, sch, all) == Got(all, p)
  {
  }

  // ----- The emitted serializer

  /** w has appended just these slots: nothing before the old cursor has changed. */
  twostate predicate Appended(w: Writer, xs: seq<Slot>)
    reads w, w.buffer, w.buffer.data
  {
    && w.Valid() && (w.buffer.data == old(w.buffer.data) || fresh(w.buffer.data))
    && old(w.bitPosition) <= w.bitPosition == End(old(w.bitPosition), xs)
    && Extends(w.Stream(), old(w.Stream()), old(w.bitPosition))
    && Laid(w.Stream(), old(w.bitPosition), xs)
  }

  method WriteValue(w: Writer, k: Kind, v: Value)
    requires w.Valid() && ValidKind(k) && Typed(k, v)
    modifies w, w.buffer, w.buffer.data
    ensures Appended(w, ValueSlots(k, v))
    ensures forall t :: Extends(t, w.Stream(), w.bitPosition) ==>
      DecValue(t, old(w.bitPosition), k) == Got(Sent(k, v), w.bitPosition)
    decreases k, 0
  {
    hide Extends, Shl, Shr, Low, Pow2, LE, DecBits, DecVarInt, DecString, Holds, Laid, Octets, Leb128, Field;
    ghost var p := w.bitPosition;
    match k {
      case Fixed(n) =>
        Pow2Monotonic(n, 64);
        LowSmall(v.n, n);
        w.WriteBits(v.n, n);
        BitsStand(w.Stream(), p, v.n, n);
        LaidOne(w.Stream(), p, Bits(v.n, n));
      case Boolean =>
        WriteBool(w, v.b);
        ghost var x := if v.b then 1 else 0;
        BitsStand(w.Stream(), p, x, 1);
        assert FlagSlots([v.b]) == [Bits(x, 1)];
        LaidOne(w.Stream(), p, Bits(x, 1));
      case Integer(signed, n) =>
        WordReadsBack(signed, n, v.n);
        WriteVarInt(w, Word(v.n));
      case Text =>
        WriteString(w, v.bytes);
      case Nested(sch) =>
        Serialize(w, sch, v.message);
    }
    forall t | Extends(t, w.Stream(), w.bitPosition) ensures DecValue(t, p, k) == Got(Sent(k, v), w.bitPosition) {
      LaidStays(t, w.Stream(), p, ValueSlots(k, v));
      ValueFound(t, p, k, v);
    }
  }

  /** Optional fields: those present, in order. */
  method WriteSingles(w: Writer, sch: Schema, m: Message)
    requires w.Valid() && ValidSchema(sch) && TypedMessage(sch, m)
    modifies w, w.buffer, w.buffer.data
    ensures Appended(w, SinglesSlots(sch, m, |sch.singles|))
    decreases sch, 1
  {
    hide Extends, Typed, ValidKind, Laid, ValueSlots, End;
    ghost var p := w.bitPosition;
    SelfExtends(w.Stream(), p);
    NothingLaid(w.Stream(), p);
    for i := 0 to |sch.singles|
      invariant Appended(w, SinglesSlots(sch, m, i))
    {
      if m.present[i] {
        ghost var s, q := w.Stream(), w.bitPosition;
        WriteValue(w, sch.singles[i], m.singles[i]);
        ExtendsTransitive(w.Stream(), s, q, old(w.Stream()), p);
        LaidMore(w.Stream(), s, p, SinglesSlots(sch, m, i), ValueSlots(sch.singles[i], m.singles[i]));
      } else {
        assert SinglesSlots(sch, m, i) + [] == SinglesSlots(sch, m, i);
      }
    }
  }

  /** The elements of one repeated field. */
  method WriteElements(w: Writer, k: Kind, vs: seq<Value>)
    requires w.Valid() && ValidKind(k) && forall j :: 0 <= j < |vs| ==> Typed(k, vs[j])
    modifies w, w.buffer, w.buffer.data
    ensures Appended(w, ElementsSlots(k, vs, |vs|))
    ensures forall t :: Extends(t, w.Stream(), w.bitPosition) ==>
      DecElements(t, old(w.bitPosition), k, |vs|, []) == Got(SentAll(k, vs), w.bitPosition)
    decreases k, 1
  {
    hide Extends, Typed, ValidKind, Laid, ValueSlots, End, DecValue, DecElements, SentAll;
    ghost var p := w.bitPosition;
    SelfExtends(w.Stream(), p);
    NothingLaid(w.Stream(), p);
    for j := 0 to |vs|
      invariant Appended(w, ElementsSlots(k, vs, j))
    {
      ghost var s, q := w.Stream(), w.bitPosition;
      WriteValue(w, k, vs[j]);
      ExtendsTransitive(w.Stream(), s, q, old(w.Stream()), p);
      LaidMore(w.Stream(), s, p, ElementsSlots(k, vs, j), ValueSlots(k, vs[j]));
    }
    forall t | Extends(t, w.Stream(), w.bitPosition)
      ensures DecElements(t, p, k, |vs|, []) == Got(SentAll(k, vs), w.bitPosition)
    {
      LaidStays(t, w.Stream(), p, ElementsSlots(k, vs, |vs|));
      AllElementsFound(t, p, k, vs);
    }
  }

  /** A count, then the elements. */
  method WriteRepeated(w: Writer, k: Kind, vs: seq<Value>)
    requires w.Valid() && ValidKind(k) && (forall j :: 0 <= j < |vs| ==> Typed(k, vs[j])) && |vs| < 65536
    modifies w, w.buffer, w.buffer.data
    ensures Appended(w, RepeatSlots(k, vs))
    decreases k, 2
  {
    hide Extends, Typed, ValidKind, Laid, ElementsSlots, End, Octets, Leb128, DecVarInt, Pow2, Field, LE;
    ghost var s0, p := w.Stream(), w.bitPosition;
    ShortFits(|vs|);
    WriteVarInt(w, |vs| % 65536);
    ghost var s, q := w.Stream(), w.bitPosition;
    WriteElements(w, k, vs);
    ExtendsTransitive(w.Stream(), s, q, s0, p);
    LaidMore(w.Stream(), s, p, Octets(Leb128(|vs|)), ElementsSlots(k, vs, |vs|));
  }

  /** Repeated fields, in order. */
  method WriteRepeats(w: Writer, sch: Schema, m: Message)
    requires w.Valid() && ValidSchema(sch) && TypedMessage(sch, m)
    modifies w, w.buffer, w.buffer.data
    ensures Appended(w, RepeatsSlots(sch, m, |sch.repeats|))
    decreases sch, 1
  {
    hide Extends, Typed, ValidKind, Laid, RepeatSlots, End;
    ghost var p := w.bitPosition;
    SelfExtends(w.Stream(), p);
    NothingLaid(w.Stream(), p);
    for i := 0 to |sch.repeats|
      invariant Appended(w, RepeatsSlots(sch, m, i))
    {
      ghost var s, q := w.Stream(), w.bitPosition;
      WriteRepeated(w, sch.repeats[i], m.repeats[i]);
      ExtendsTransitive(w.Stream(), s, q, old(w.Stream()), p);
      LaidMore(w.Stream(), s, p, RepeatsSlots(sch, m, i), RepeatSlots(sch.repeats[i], m.repeats[i]));
    }
  }

  /** The presence bits, if there are any. */
  method WriteFlags(w: Writer, present: seq<bool>)
    requires w.Valid() && |present| <= 64
    modifies w, w.buffer, w.buffer.data
    ensures Appended(w, FlagSlots(present))
  {
    hide Extends, Low, Pow2, FromBools, LE, Shr, Field, DecBits, Laid, End;
    var n := |present|;
    ghost var p := w.bitPosition;
    BoolsRoundTrip(present);
    Pow2Monotonic(n, 64);
    LowSmall(FromBools(present), n);
    SelfExtends(w.Stream(), p);
    if n != 0 {
      w.WriteBits(FromBools(present), n);
      BitsStand(w.Stream(), p, FromBools(present), n);
    } else {
      NoField(w.Stream(), p, present);
    }
    FlagsLaid(w.Stream(), p, present);
  }

  lemma NoField(s: seq<byte>, p: nat, present: seq<bool>)
    requires present == []
    ensures Field(s, p, 0) == FromBools(present)
  {
    LowNone(Shr(LE(s), p));
  }

  /** The emitted serialize: presence bits, present optional fields, repeated fields. */
  method Serialize(w: Writer, sch: Schema, m: Message)
    requires w.Valid() && ValidSchema(sch) && TypedMessage(sch, m)
    modifies w, w.buffer, w.buffer.data
    ensures Appended(w, MessageSlots(sch, m))
    ensures forall t :: Extends(t, w.Stream(), w.bitPosition) ==>
      DecMessage(t, old(w.bitPosition), sch) == Got(SentMessage(sch, m), w.bitPosition)
    decreases sch, 2
  {
    hide Extends, Typed, ValidKind, Laid, FlagSlots, SinglesSlots, RepeatsSlots, End, DecMessage, SentMessage;
    ghost var s0, p := w.Stream(), w.bitPosition;
    WriteFlags(w, m.present);
    ghost var s1, q1 := w.Stream(), w.bitPosition;
    WriteSingles(w, sch, m);
    ghost var s2, q2 := w.Stream(), w.bitPosition;
    ExtendsTransitive(s2, s1, q1, s0, p);
    LaidMore(s2, s1, p, FlagSlots(m.present), SinglesSlots(sch, m, |sch.singles|));
    WriteRepeats(w, sch, m);
    ExtendsTransitive(w.Stream(), s2, q2, s0, p);
    LaidMore(w.Stream(), s2, p, FlagSlots(m.present) + SinglesSlots(sch, m, |sch.singles|),
             RepeatsSlots(sch, m, |sch.repeats|));
    forall t | Extends(t, w.Stream(), w.bitPosition)
      ensures DecMessage(t, p, sch) == Got(SentMessage(sch, m), w.bitPosition)
    {
      LaidStays(t, w.Stream(), p, MessageSlots(sch, m));
      MessageFound(t, p, sch, m);
    }
  }

  lemma NoBits(bs: seq<bool>)
    ensures |bs| == 0 ==> ToBools(0, |bs|) == bs
  {
  }

  // ----- The emitted deserializer

  method ReadValue(r: Reader, k: Kind) returns (v: Value)
    requires r.bitPosition <= 8 * |r.Stream()| && ValidKind(k)
    modifies r
    ensures Got(v, r.bitPosition) == DecValue(r.Stream(), old(r.bitPosition), k)
    ensures r.bitPosition <= 8 * |r.Stream()|
    decreases k, 0
  {
    hide Shl, Shr, Low, Pow2, DecVarInt, LE;
    match k
    case Fixed(n) =>
      var ok, scratch := r.ReadBits(n);
      v := Num(scratch);
    case Boolean =>
      var b := ReadBool(r);
      v := Flag(b);
    case Integer(signed, n) =>
      VarIntInside(r.Stream(), r.bitPosition);
      var raw := ReadVarInt(r);
      var x := Low(raw, n);
      Halves(raw, n);
      v := Num(if signed then Signed(x, n) else x);
    case Text =>
      var b := ReadString(r);
      v := Blob(b);
    case Nested(sch) =>
      var m := Deserialize(r, sch);
      v := Object(m);
  }

  lemma VarIntInside(s: seq<byte>, p: nat)
    requires p <= 8 * |s|
    ensures DecVarInt(s, p).pos <= 8 * |s|
  {
    VarIntStaysInside(s, p, 0, 0);
  }

  method ReadSingles(r: Reader, sch: Schema, present: seq<bool>) returns (vs: seq<Value>)
    requires r.bitPosition <= 8 * |r.Stream()| && ValidSchema(sch) && |present| == |sch.singles|
    modifies r
    ensures Got(vs, r.bitPosition) == DecSingles(r.Stream(), old(r.bitPosition), sch, present, [])
    ensures r.bitPosition <= 8 * |r.Stream()|
    decreases sch, 1
  {
    hide DecValue;
    vs := [];
    for i := 0 to |sch.singles|
      invariant |vs| == i && r.bitPosition <= 8 * |r.Stream()|
      invariant DecSingles(r.Stream(), r.bitPosition, sch, present, vs)
                == DecSingles(r.Stream(), old(r.bitPosition), sch, present, [])
    {
      if present[i] {
        var v := ReadValue(r, sch.singles[i]);
        vs := vs + [v];
      } else {
        vs := vs + [Default(sch.singles[i])];
      }
    }
  }

  method ReadElements(r: Reader, k: Kind, count: nat) returns (vs: seq<Value>)
    requires r.bitPosition <= 8 * |r.Stream()| && ValidKind(k)
    modifies r
    ensures Got(vs, r.bitPosition) == DecElements(r.Stream(), old(r.bitPosition), k, count, [])
    ensures r.bitPosition <= 8 * |r.Stream()|
    decreases k, 1
  {
    hide DecValue;
    vs := [];
    for j := 0 to count
      invariant |vs| == j && r.bitPosition <= 8 * |r.Stream()|
      invariant DecElements(r.Stream(), r.bitPosition, k, count, vs)
                == DecElements(r.Stream(), old(r.bitPosition), k, count, [])
    {
      var v := ReadValue(r, k);
      vs := vs + [v];
    }
  }

  method ReadRepeats(r: Reader, sch: Schema) returns (vss: seq<seq<Value>>)
    requires r.bitPosition <= 8 * |r.Stream()| && ValidSchema(sch)
    modifies r
    ensures Got(vss, r.bitPosition) == DecRepeats(r.Stream(), old(r.bitPosition), sch, [])
    ensures r.bitPosition <= 8 * |r.Stream()|
    decreases sch, 1
  {
    hide DecElements, DecVarInt;
    vss := [];
    for i := 0 to |sch.repeats|
      invariant |vss| == i && r.bitPosition <= 8 * |r.Stream()|
      invariant DecRepeats(r.Stream(), r.bitPosition, sch, vss) == DecRepeats(r.Stream(), old(r.bitPosition), sch, [])
    {
      VarIntInside(r.Stream(), r.bitPosition);
      var raw := ReadVarInt(r);
      var vs := ReadElements(r, sch.repeats[i], raw % 65536);
      vss := vss + [vs];
    }
  }

  /** The emitted deserialize, run on a fresh object. Terminates on every stream, well formed
    * or not, and never leaves it. */
  method Deserialize(r: Reader, sch: Schema) returns (m: Message)
    requires r.bitPosition <= 8 * |r.Stream()| && ValidSchema(sch)
    modifies r
    ensures Got(m, r.bitPosition) == DecMessage(r.Stream(), old(r.bitPosition), sch)
    ensures r.bitPosition <= 8 * |r.Stream()|
    decreases sch, 2
  {
    hide DecSingles, DecRepeats, Low, Shr, LE, Pow2, ToBools, Default;
    m := Fresh(sch);
    var scratch := 0;
    if |sch.singles| != 0 {
      var ok;
      ok, scratch := r.ReadBits(|sch.singles|);
    }
    var present := OrBools(m.present, ToBools(scratch, |sch.singles|));
    var singles := ReadSingles(r, sch, present);
    var repeats := ReadRepeats(r, sch);
    m := Message(present, singles, repeats);
  }

  // ----- The protocol: an opcode, then the message

  datatype Packet = Unknown | Packet(opcode: nat, message: Message)

  function DecPacket(s: seq<byte>, p: nat, protocol: seq<Schema>): Got<Packet> {
    var c := DecVarInt(s, p);
    if c.value < |protocol| then
      var g := DecMessage(s, c.pos, protocol[c.value]);
      Got(Packet(c.value, g.value), g.pos)
    else
      Got(Unknown, c.pos)
  }

  /** A packet on the wire: the opcode, then the message. */
  function PacketSlots(protocol: seq<Schema>, opcode: nat, m: Message): seq<Slot>
    requires opcode < |protocol| && ValidSchema(protocol[opcode]) && TypedMessage(protocol[opcode], m)
  {
    Octets(Leb128(opcode)) + MessageSlots(protocol[opcode], m)
  }

  /** A packet in full: message type 1 with a present number and an absent flag, and a list of one string. */
  lemma PacketExample(sch: Schema, m: Message)
    requires sch == Schema([Integer(false, 64), Boolean], [Text])
    requires m == Message([true, false], [Num(300), Flag(true)], [[Blob([65, 66])]])
    ensures ValidSchema(sch) && TypedMessage(sch, m)
    ensures PacketSlots([Schema([], []), sch], 1, m)
         == [Bits(1, 8), Bits(1, 1), Bits(0, 1), Bits(172, 8), Bits(2, 8), Bits(1, 8), Bits(2, 8), Bytes([65, 66])]
  {
    ThreeHundredFits();
    hide Pow2, Leb128, Octets, ValueSlots, RepeatSlots;
    NumberExample();
    SinglesExample(sch, m);
    ListExample(m.repeats[0]);
    RepeatsExample(sch, m);
    hide SinglesSlots, RepeatsSlots;
    assert FlagSlots(m.present) == [Bits(1, 1), Bits(0, 1)];
  }

  lemma SinglesExample(sch: Schema, m: Message)
    requires ValidSchema(sch) && TypedMessage(sch, m) && sch.singles == [Integer(false, 64), Boolean]
    requires m.present == [true, false]
    ensures SinglesSlots(sch, m, 2) == ValueSlots(Integer(false, 64), m.singles[0])
  {
    hide ValueSlots;
    assert SinglesSlots(sch, m, 0) == [];
    assert SinglesSlots(sch, m, 1) == ValueSlots(Integer(false, 64), m.singles[0]);
  }

  lemma RepeatsExample(sch: Schema, m: Message)
    requires ValidSchema(sch) && TypedMessage(sch, m) && sch.repeats == [Text]
    ensures RepeatsSlots(sch, m, 1) == RepeatSlots(Text, m.repeats[0])
  {
    hide RepeatSlots;
    assert RepeatsSlots(sch, m, 0) == [];
  }

  lemma ThreeHundredFits()
    ensures 300 < Pow2(64)
  {
    ShortFits(300);
  }

  lemma ThreeHundredBytes()
    ensures Leb128(300) == [172, 2] && Leb128(1) == [1]
    ensures Octets(Leb128(300)) == [Bits(172, 8), Bits(2, 8)] && Octets(Leb128(1)) == [Bits(1, 8)]
  {
  }

  lemma NumberExample()
    ensures Typed(Integer(false, 64), Num(300))
    ensures ValueSlots(Integer(false, 64), Num(300)) == [Bits(172, 8), Bits(2, 8)]
    ensures Octets(Leb128(1)) == [Bits(1, 8)]
  {
    hide Pow2, Leb128, Octets;
    ThreeHundredFits();
    ThreeHundredBytes();
  }

  lemma ListExample(texts: seq<Value>)
    requires texts == [Blob([65, 66])]
    ensures RepeatSlots(Text, texts) == [Bits(1, 8), Bits(2, 8), Bytes([65, 66])]
  {
    assert Octets(Leb128(2)) == [Bits(2, 8)] && Octets(Leb128(1)) == [Bits(1, 8)];
    assert [65, 66][..2] == [65, 66];
    assert ElementsSlots(Text, texts, 0) == [];
    assert ElementsSlots(Text, texts, 1) == [Bits(2, 8), Bytes([65, 66])];
  }

  /** Wherever a packet stands, the receiver picks its type, gets what is sent of the message and stops behind it. */
  lemma PacketFound(s: seq<byte>, p: nat, protocol: seq<Schema>, opcode: nat, m: Message)
    requires opcode < |protocol| && opcode < Pow2(64)
    requires ValidSchema(protocol[opcode]) && TypedMessage(protocol[opcode], m)
    requires Laid(s, p, PacketSlots(protocol, opcode, m))
    ensures DecPacket(s, p, protocol)
         == Got(Packet(opcode, SentMessage(protocol[opcode], m)), End(p, PacketSlots(protocol, opcode, m)))
  {
    hide Laid, End, Octets, Leb128, MessageSlots, DecVarInt, DecMessage, SentMessage, TypedMessage, ValidSchema, Pow2;
    LaidTogether(s, p, Octets(Leb128(opcode)), MessageSlots(protocol[opcode], m));
    LebFound(s, p, opcode);
    MessageFound(s, End(p, Octets(Leb128(opcode))), protocol[opcode], m);
  }

  /** Sends message type number `opcode`: whatever follows in the stream, the receiver picks
    * the same type, gets the message back and stops where the writer stopped. */
  method SerializePacket(w: Writer, protocol: seq<Schema>, opcode: nat, m: Message)
    requires w.Valid() && opcode < |protocol| && opcode < Pow2(64)
    requires ValidSchema(protocol[opcode]) && TypedMessage(protocol[opcode], m)
    modifies w, w.buffer, w.buffer.data
    ensures Appended(w, PacketSlots(protocol, opcode, m))
    ensures forall t :: Extends(t, w.Stream(), w.bitPosition) ==>
      DecPacket(t, old(w.bitPosition), protocol) == Got(Packet(opcode, SentMessage(protocol[opcode], m)), w.bitPosition)
  {
    hide Extends, DecVarInt, DecPacket, Pow2, TypedMessage, ValidSchema;
    hide Laid, End, Octets, Leb128, MessageSlots, Field, LE;
    ghost var s, p := w.Stream(), w.bitPosition;
    WriteVarInt(w, opcode);
    ghost var s', q := w.Stream(), w.bitPosition;
    Serialize(w, protocol[opcode], m);
    ExtendsTransitive(w.Stream(), s', q, s, p);
    LaidMore(w.Stream(), s', p, Octets(Leb128(opcode)), MessageSlots(protocol[opcode], m));
    forall t | Extends(t, w.Stream(), w.bitPosition)
      ensures DecPacket(t, p, protocol) == Got(Packet(opcode, SentMessage(protocol[opcode], m)), w.bitPosition)
    {
      LaidStays(t, w.Stream(), p, PacketSlots(protocol, opcode, m));
      PacketFound(t, p, protocol, opcode, m);
    }
  }

  method DeserializePacket(r: Reader, protocol: seq<Schema>) returns (known: bool, packet: Packet)
    requires r.bitPosition <= 8 * |r.Stream()| && forall i :: 0 <= i < |protocol| ==> ValidSchema(protocol[i])
    modifies r
    ensures Got(packet, r.bitPosition) == DecPacket(r.Stream(), old(r.bitPosition), protocol)
    ensures known == packet.Packet? && r.bitPosition <= 8 * |r.Stream()|
  {
    VarIntInside(r.Stream(), r.bitPosition);
    var opcode := ReadVarInt(r);
    if opcode < |protocol| {
      var m := Deserialize(r, protocol[opcode]);
      return true, Packet(opcode, m);
    }
    return false, Unknown;
  }

  /** Sender to receiver through a buffer of any initial size, behind any already written
    * bit fields and byte strings. */
  method RoundTrip(size: nat, before: seq<Item>, protocol: seq<Schema>, opcode: nat, m: Message)
    returns (known: bool, packet: Packet, written: nat, read: nat)
    requires forall i :: 0 <= i < |before| ==> ValidItem(before[i])
    requires opcode < |protocol| && opcode < Pow2(64) && TypedMessage(protocol[opcode], m)
    requires forall i :: 0 <= i < |protocol| ==> ValidSchema(protocol[i])
    ensures known && packet == Packet(opcode, SentMessage(protocol[opcode], m)) && read == written
  {
    hide DecPacket, Written, Extends, SentMessage, TypedMessage, ValidSchema, ValidItem, DecItems, Pow2;
    var buffer := new Buffer(size);
    var w := new Writer(buffer);
    WriteItems(w, before);
    var start := w.bitPosition;
    SerializePacket(w, protocol, opcode, m);
    SelfExtends(w.Stream(), w.bitPosition);
    var r := new Reader(buffer);
    r.bitPosition := start;
    known, packet := DeserializePacket(r, protocol);
    written, read := w.bitPosition, r.bitPosition;
  }

  // ----- Which fields are sent, and in which order

  datatype FieldDescriptor = FieldDescriptor(name: string, kind: Kind, repeated: bool, realOneof: bool)

  const TAG := "unreliable"

  /** The wire order of a message's fields, as positions in its declaration: every field but
    * the tag exactly once, singular fields before repeated ones, each group as declared. */
  ghost predicate WireOrder(fields: seq<FieldDescriptor>, order: seq<nat>) {
    && (forall a :: 0 <= a < |order| ==> order[a] < |fields| && fields[order[a]].name != TAG)
    && (forall i :: 0 <= i < |fields| && fields[i].name != TAG ==> i in order)
    && (forall a, b :: 0 <= a < b < |order| ==>
          if fields[order[a]].repeated == fields[order[b]].repeated then order[a] < order[b]
              else fields[order[b]].repeated)
  }

  datatype Group = Optional | Repeated | Plain | InOneof

  predicate Belongs(f: FieldDescriptor, g: Group) {
    f.name != TAG && match g {
      case Optional => !f.repeated
      case Repeated => f.repeated
      case Plain => !f.realOneof
      case InOneof => f.realOneof
    }
  }

  /** Positions below n of the fields of a group, ascending. */
  function Positions(fields: seq<FieldDescriptor>, n: nat, g: Group): (ps: seq<nat>)
    requires n <= |fields|
    ensures forall a :: 0 <= a < |ps| ==> ps[a] < n && Belongs(fields[ps[a]], g)
    ensures forall a, b :: 0 <= a < b < |ps| ==> ps[a] < ps[b]
  {
    if n == 0 then []
    else Positions(fields, n - 1, g) + (if Belongs(fields[n - 1], g) then [n - 1] else [])
  }

  lemma {:induction false} PositionsComplete(fields: seq<FieldDescriptor>, n: nat, g: Group, i: nat)
    requires i < n <= |fields| && Belongs(fields[i], g)
    ensures i in Positions(fields, n, g)
    decreases n
  {
    if i < n - 1 { PositionsComplete(fields, n - 1, g, i); }
  }

  /** The repeated fields of a list, in order. */
  function OnlyRepeated(fields: seq<FieldDescriptor>, list: seq<nat>): seq<nat>
    requires forall a :: 0 <= a < |list| ==> list[a] < |fields|
  {
    if list == [] then []
    else
      var k := |list| - 1;
      OnlyRepeated(fields, list[..k]) + (if fields[list[k]].repeated then [list[k]] else [])
  }

  lemma OnlyRepeatedMore(fields: seq<FieldDescriptor>, list: seq<nat>, i: nat)
    requires i < |fields| && forall a :: 0 <= a < |list| ==> list[a] < |fields|
    ensures OnlyRepeated(fields, list + [i]) == OnlyRepeated(fields, list) + (if fields[i].repeated then [i] else [])
  {
    assert (list + [i])[..|list|] == list;
  }

  lemma PositionsMore(fields: seq<FieldDescriptor>, n: nat, g: Group)
    requires n < |fields|
    ensures Positions(fields, n + 1, g) == Positions(fields, n, g) + (if Belongs(fields[n], g) then [n] else [])
  {
  }

  lemma OneFieldMore(fields: seq<FieldDescriptor>, i: nat, plain: seq<nat>, repeated: seq<nat>)
    requires i < |fields| && !(fields[i].repeated && fields[i].realOneof)
    requires (forall a :: 0 <= a < |plain| ==> plain[a] < |fields|) && OnlyRepeated(fields, plain) == repeated
    ensures OnlyRepeated(fields, plain + (if Belongs(fields[i], Plain) then [i] else []))
         == repeated + (if Belongs(fields[i], Repeated) then [i] else [])
  {
    OnlyRepeatedMore(fields, plain, i);
    hide OnlyRepeated;
    if Belongs(fields[i], Plain) {
    } else {
      assert plain + [] == plain && repeated + [] == repeated;
    }
  }

  lemma NoPositions(fields: seq<FieldDescriptor>)
    ensures OnlyRepeated(fields, Positions(fields, 0, Plain)) == Positions(fields, 0, Repeated)
  {
  }

  lemma {:induction false} RepeatedArePlain(fields: seq<FieldDescriptor>, n: nat)
    requires n <= |fields| && forall i :: 0 <= i < |fields| ==> !(fields[i].repeated && fields[i].realOneof)
    ensures OnlyRepeated(fields, Positions(fields, n, Plain)) == Positions(fields, n, Repeated)
  {
    hide OnlyRepeated, Positions, Belongs;
    if n == 0 {
      NoPositions(fields);
    } else {
      RepeatedArePlain(fields, n - 1);
      PositionsMore(fields, n - 1, Plain);
      PositionsMore(fields, n - 1, Repeated);
      OneFieldMore(fields, n - 1, Positions(fields, n - 1, Plain), Positions(fields, n - 1, Repeated));
    }
  }

  /** The generator's pass over a message's fields. */
  method CollectFields(fields: seq<FieldDescriptor>) returns (optional: seq<nat>, optimized: seq<nat>, reliable: bool)
    ensures optional == Positions(fields, |fields|, Optional)
    ensures optimized == Positions(fields, |fields|, Plain) + Positions(fields, |fields|, InOneof)
    ensures reliable <==> forall i :: 0 <= i < |fields| ==> fields[i].name != TAG
  {
    var next;
    optional, optimized, next, reliable := [], [], [], true;
    for i := 0 to |fields|
      invariant optional == Positions(fields, i, Optional)
      invariant optimized == Positions(fields, i, Plain)
      invariant next == Positions(fields, i, InOneof)
      invariant reliable <==> forall j :: 0 <= j < i ==> fields[j].name != TAG
    {
      if fields[i].name == TAG {
        reliable := false;
        continue;
      }
      if !fields[i].repeated { optional := optional + [i]; }
      if !fields[i].realOneof { optimized := optimized + [i]; } else { next := next + [i]; }
    }
    optimized := optimized + next;
  }

  /** The order in which the emitted code visits fields: the optional ones, then whatever of
    * the optimized order has not been processed. Repeated fields are never in a oneof. */
  method EmissionOrder(fields: seq<FieldDescriptor>) returns (order: seq<nat>, schema: Schema)
    requires forall i :: 0 <= i < |fields| ==> !(fields[i].repeated && fields[i].realOneof)
    ensures WireOrder(fields, order) && |order| == |schema.singles| + |schema.repeats|
    ensures forall a :: 0 <= a < |schema.singles| ==>
      !fields[order[a]].repeated && schema.singles[a] == fields[order[a]].kind
    ensures forall a :: |schema.singles| <= a < |order| ==>
      fields[order[a]].repeated && schema.repeats[a - |schema.singles|] == fields[order[a]].kind
  {
    hide Positions, OnlyRepeated, WireOrder;
    var optional, rest, reliable := CollectFields(fields);
    order := optional;
    NothingYet(fields, rest);
    for a := 0 to |rest|
      invariant order == optional + OnlyRepeated(fields, rest[..a])
    {
      Unprocessed(fields, rest, a, optional);
      if rest[a] !in order { order := order + [rest[a]]; }
    }
    EmittedInOrder(fields, rest, order);
    schema := SchemaOf(fields, order, |optional|);
  }

  /** The kinds of the fields in an order: the first k singular, the others repeated. */
  function SchemaOf(fields: seq<FieldDescriptor>, order: seq<nat>, k: nat): (schema: Schema)
    requires k <= |order| && forall a :: 0 <= a < |order| ==> order[a] < |fields|
    ensures |schema.singles| == k && |schema.repeats| == |order| - k
    ensures forall a :: 0 <= a < k ==> schema.singles[a] == fields[order[a]].kind
    ensures forall a :: k <= a < |order| ==> schema.repeats[a - k] == fields[order[a]].kind
  {
    Schema(seq(k, a requires 0 <= a < k => fields[order[a]].kind),
           seq(|order| - k, a requires 0 <= a < |order| - k => fields[order[k + a]].kind))
  }

  lemma EmittedInOrder(fields: seq<FieldDescriptor>, rest: seq<nat>, order: seq<nat>)
    requires forall i :: 0 <= i < |fields| ==> !(fields[i].repeated && fields[i].realOneof)
    requires rest == Positions(fields, |fields|, Plain) + Positions(fields, |fields|, InOneof)
    requires order == Positions(fields, |fields|, Optional) + OnlyRepeated(fields, rest[..|rest|])
    ensures WireOrder(fields, order)
    ensures var k := |Positions(fields, |fields|, Optional)|;
            k <= |order| && (forall a :: 0 <= a < |order| ==> order[a] < |fields|)
            && forall a :: 0 <= a < |order| ==> (a < k <==> !fields[order[a]].repeated)
  {
    hide Positions, OnlyRepeated, WireOrder;
    assert rest[..|rest|] == rest;
    RepeatedArePlain(fields, |fields|);
    NoneRepeated(fields, Positions(fields, |fields|, Plain), Positions(fields, |fields|, InOneof));
    TwoGroups(fields, order);
  }

  lemma NothingYet(fields: seq<FieldDescriptor>, rest: seq<nat>)
    requires forall a :: 0 <= a < |rest| ==> rest[a] < |fields|
    ensures OnlyRepeated(fields, rest[..0]) == []
  {
  }

  /** A field of the optimized order is still to be emitted exactly when it is repeated. */
  lemma Unprocessed(fields: seq<FieldDescriptor>, rest: seq<nat>, a: nat, optional: seq<nat>)
    requires optional == Positions(fields, |fields|, Optional) && a < |rest|
    requires rest == Positions(fields, |fields|, Plain) + Positions(fields, |fields|, InOneof)
    ensures rest[a] !in optional + OnlyRepeated(fields, rest[..a]) <==> fields[rest[a]].repeated
    ensures OnlyRepeated(fields, rest[..a + 1])
         == OnlyRepeated(fields, rest[..a]) + (if fields[rest[a]].repeated then [rest[a]] else [])
  {
    hide Positions;
    assert rest[..a + 1][..a] == rest[..a];
    if fields[rest[a]].repeated {
      OnlyRepeatedFrom(fields, rest[..a]);
      AllDifferent(fields, rest);
      assert forall b :: 0 <= b < a ==> rest[b] != rest[a];
    } else {
      PositionsComplete(fields, |fields|, Optional, rest[a]);
    }
  }

  lemma AllDifferent(fields: seq<FieldDescriptor>, rest: seq<nat>)
    requires rest == Positions(fields, |fields|, Plain) + Positions(fields, |fields|, InOneof)
    ensures forall a, b :: 0 <= a < b < |rest| ==> rest[a] != rest[b]
  {
    hide Positions;
    var k := |Positions(fields, |fields|, Plain)|;
    forall a, b | 0 <= a < b < |rest| ensures rest[a] != rest[b] {
      if a < k <= b {
        assert Belongs(fields[rest[a]], Plain) && Belongs(fields[rest[b]], InOneof);
      }
    }
  }

  lemma {:induction false} OnlyRepeatedFrom(fields: seq<FieldDescriptor>, list: seq<nat>)
    requires forall a :: 0 <= a < |list| ==> list[a] < |fields|
    ensures forall x :: x in OnlyRepeated(fields, list) ==> x in list
  {
    if list != [] { OnlyRepeatedFrom(fields, list[..|list| - 1]); }
  }

  lemma {:induction false} NoneRepeated(fields: seq<FieldDescriptor>, front: seq<nat>, back: seq<nat>)
    requires forall a :: 0 <= a < |front| ==> front[a] < |fields|
    requires forall a :: 0 <= a < |back| ==> back[a] < |fields| && !fields[back[a]].repeated
    ensures OnlyRepeated(fields, front + back) == OnlyRepeated(fields, front)
    decreases |back|
  {
    if back == [] {
      assert front + back == front;
    } else {
      var k := |back| - 1;
      NoneRepeated(fields, front, back[..k]);
      assert (front + back)[..|front| + k] == front + back[..k];
    }
  }

  lemma TwoGroups(fields: seq<FieldDescriptor>, order: seq<nat>)
    requires order == Positions(fields, |fields|, Optional) + Positions(fields, |fields|, Repeated)
    ensures WireOrder(fields, order)
    ensures var k := |Positions(fields, |fields|, Optional)|;
            k <= |order| && (forall a :: 0 <= a < |order| ==> order[a] < |fields|)
            && forall a :: 0 <= a < |order| ==> (a < k <==> !fields[order[a]].repeated)
  {
    forall i | 0 <= i < |fields| && fields[i].name != TAG ensures i in order {
      PositionsComplete(fields, |fields|, if fields[i].repeated then Repeated else Optional, i);
    }
  }
}
