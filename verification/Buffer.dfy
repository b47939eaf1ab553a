/** The bit cursor: values of 0 to 64 bits and byte strings, packed one after another into
  * a growable byte buffer.
  *
  * A buffer's bytes are read as one little-endian number, so bit number p of the stream is
  * binary digit p of that number and a field is a slice of its digits. Writing leaves
  * arbitrary bits above the cursor; `Extends` is the relation that ignores them. */
module Buffers {
  import opened Bits

  /** Rounds a bit position up to the next whole byte. */
  function Align(p: nat): (q: nat)
    ensures q % 8 == 0 && p <= q < p + 8
  {
    p - p % 8 + (if p % 8 != 0 then 8 else 0)
  }

  // ----- What reading a stream must give

  datatype Got<T> = Got(value: T, pos: nat)

  /** Bits p .. p + c of a stream, as a number. */
  function Field(s: seq<byte>, p: nat, c: nat): nat {
    Low(Shr(LE(s), p), c)
  }

  /** Reading c bits: past the end gives zero and does not move. */
  function DecBits(s: seq<byte>, p: nat, c: nat): Got<nat> {
    if p + c <= 8 * |s| then Got(Field(s, p, c), p + c) else Got(0, p)
  }

  /** Reading n bytes from the next byte boundary: past the end gives zero bytes. */
  function DecBytes(s: seq<byte>, p: nat, n: nat): (g: Got<seq<byte>>)
    ensures |g.value| == n
  {
    var q := Align(p);
    if q + 8 * n <= 8 * |s| then Got(s[q / 8..q / 8 + n], q + 8 * n)
    else Got(seq(n, _ => 0), q)
  }

  /** What has been written up to bit p. */
  function Written(s: seq<byte>, p: nat): nat {
    Low(LE(s), p)
  }

  /** Stream t still holds the first p bits of stream s. */
  ghost predicate Extends(t: seq<byte>, s: seq<byte>, p: nat) {
    p <= 8 * |t| && Written(t, p) == Written(s, p)
  }

  lemma ExtendsEarlier(t: seq<byte>, s: seq<byte>, p: nat, q: nat)
    requires Extends(t, s, p) && q <= p
    ensures Extends(t, s, q)
  {
    LowLow(LE(t), q, p);
    LowLow(LE(s), q, p);
  }

  lemma ExtendsTransitive(u: seq<byte>, t: seq<byte>, q: nat, s: seq<byte>, p: nat)
    requires Extends(u, t, q) && Extends(t, s, p) && p <= q
    ensures Extends(u, s, p)
  {
    ExtendsEarlier(u, t, q, p);
  }

  /** A field below p is the same in every stream that extends s from p. */
  lemma FieldOfWritten(s: seq<byte>, p: nat, c: nat)
    ensures Field(s, p, c) == Shr(Written(s, p + c), p)
  {
    ShrLow(LE(s), p, c);
  }

  // ----- The buffer and its two cursors

  class Buffer {
    var data: array<byte>

    constructor (size: nat)
      ensures fresh(data) && data.Length == size
    {
      data := new byte[size];
    }

    /** Moves to a new allocation, if there is one: old bytes kept, new ones whatever the memory holds. */
    method Resize(size: nat, granted: bool) returns (ok: bool)
      modifies this
      ensures ok == granted
      ensures if ok then fresh(data) && data.Length == size else data == old(data)
      ensures forall i :: 0 <= i < data.Length && i < old(data.Length) ==> data[i] == old(data[i])
    {
      if !granted {
        return false;
      }
      var bigger := new byte[size];
      var n := if data.Length < size then data.Length else size;
      forall i | 0 <= i < n {
        bigger[i] := data[i];
      }
      data := bigger;
      return true;
    }

    /** Overwrites the bytes from `at` on. */
    method Copy(source: seq<byte>, at: nat)
      requires at + |source| <= data.Length
      modifies data
      ensures data[..] == old(data[..at]) + source + old(data[at + |source|..])
    {
      forall i | 0 <= i < |source| {
        data[at + i] := source[i];
      }
    }

    /** Makes room for `count` bytes at byte `at`, growing by at least 2048 bytes, which are there to be had. */
    method Reserve(at: nat, count: nat)
      requires at <= data.Length
      modifies this
      ensures data == old(data) || fresh(data)
      ensures at + count <= data.Length && old(data.Length) <= data.Length
      ensures at + count <= old(data.Length) ==> data == old(data)
      ensures at + count > old(data.Length) ==> data.Length == old(data.Length) + if count > 2048 then count else 2048
      ensures data[..old(data.Length)] == old(data[..])
    {
      if count + at > data.Length {
        var growth := if count > 2048 then count else 2048;
        var _ := Resize(data.Length + growth, true);
      }
    }
  }

  class Reader {
    var bitPosition: nat
    const buffer: Buffer

    constructor (buffer: Buffer)
      ensures bitPosition == 0 && this.buffer == buffer
    {
      this.buffer := buffer;
      bitPosition := 0;
    }

    function Stream(): seq<byte>
      reads this, buffer, buffer.data
    {
      buffer.data[..]
    }

    /** Reads up to 64 bits, gathering the rest of the current byte and the whole bytes after it. */
    method ReadBits(count: nat) returns (ok: bool, dest: nat)
      requires count <= 64
      modifies this
      ensures Got(dest, bitPosition) == DecBits(Stream(), old(bitPosition), count)
      ensures ok == (old(bitPosition) + count <= 8 * |Stream()|)
      ensures ok ==> bitPosition == old(bitPosition) + count && dest == Field(Stream(), old(bitPosition), count)
      ensures !ok ==> bitPosition == old(bitPosition) && dest == 0
      ensures dest < Pow2(count)
    {
      hide Shl, Shr, Low, Pow2, LE, BitOr, BitAnd;
      ghost var s := Stream();
      dest := 0;
      var bitIndex := bitPosition % 8;
      var bitsToRead := 0;
      var bytesToRead := Align(count + bitIndex) / 8;
      if bytesToRead + bitPosition / 8 > buffer.data.Length { return false, 0; }
      var endBits, location := 0, bitPosition / 8;
      if bitIndex != 0 {
        bitsToRead := 8 - bitIndex;
        bitsToRead := if bitsToRead > count then count else bitsToRead;
        endBits := BitAnd(Shr(buffer.data[location], bitIndex), Pow2(bitsToRead) - 1);
        location := location + 1;
        bytesToRead := bytesToRead - 1;
      }
      dest := LE(buffer.data[location..location + bytesToRead]);
      dest := Low(Shl(dest, bitsToRead), 64);
      dest := BitOr(dest, endBits);
      if count < 64 {
        dest := BitAnd(dest, Pow2(count) - 1);
      }
      GatherField(s, bitPosition, count, bitsToRead, bytesToRead, endBits, dest);
      bitPosition := bitPosition + count;
      ok := true;
    }

    method ReadBytes(count: nat) returns (ok: bool, dest: seq<byte>)
      requires bitPosition <= 8 * |Stream()|
      modifies this
      ensures bitPosition == DecBytes(Stream(), old(bitPosition), count).pos
      ensures ok ==> dest == DecBytes(Stream(), old(bitPosition), count).value
      ensures ok == (Align(old(bitPosition)) + 8 * count <= 8 * |Stream()|)
      ensures bitPosition == Align(old(bitPosition)) + if ok then 8 * count else 0
      ensures ok ==> dest == Stream()[Align(old(bitPosition)) / 8..Align(old(bitPosition)) / 8 + count]
    {
      bitPosition := Align(bitPosition);
      if count + bitPosition / 8 <= buffer.data.Length {
        dest := buffer.data[bitPosition / 8..bitPosition / 8 + count];
        bitPosition := bitPosition + count * 8;
        return true, dest;
      }
      return false, [];
    }
  }

  /** The bits gathered by `ReadBits` are the requested field of the stream. */
  lemma GatherField(s: seq<byte>, p: nat, c: nat, n: nat, k: nat, e: nat, dest: nat)
    requires c <= 64 && p + c <= 8 * |s|
    requires n == (if p % 8 == 0 then 0 else if 8 - p % 8 > c then c else 8 - p % 8)
    requires k == Align(c + p % 8) / 8 - (if p % 8 == 0 then 0 else 1)
    requires var q := p / 8 + (if p % 8 == 0 then 0 else 1);
             && q + k <= |s|
             && e == (if p % 8 == 0 then 0 else BitAnd(Shr(s[p / 8], p % 8), Pow2(n) - 1))
             && var whole := BitOr(Low(Shl(LE(s[q..q + k]), n), 64), e);
                dest == if c < 64 then BitAnd(whole, Pow2(c) - 1) else whole
    ensures dest == Field(s, p, c) && dest < Pow2(c)
  {
    hide Shl, Shr, Low, Pow2, LE, BitOr, BitAnd;
    var q := p / 8 + (if p % 8 == 0 then 0 else 1);
    var rest := LE(s[q..q + k]);
    EndBits(s, p, c, n, e);
    Shifted(rest, n, e);
    var whole := BitOr(Low(Shl(rest, n), 64), e);
    if c < 64 { AndMask(whole, c); }
    Halves(e + Shl(rest, n), 64);
    LowLow(e + Shl(rest, n), c, 64);
    assert dest == Low(e + Shl(rest, n), c);
    LowJoin(e, rest, n, c - n);
    RestBits(s, p, c, n, k, q);
    Split(Shr(LE(s), p), n, c - n);
    Halves(dest, c);
    Halves(Shr(LE(s), p), c);
  }

  lemma Shifted(rest: nat, n: nat, e: nat)
    requires e < Pow2(n) && n <= 64
    ensures BitOr(Low(Shl(rest, n), 64), e) == Low(e + Shl(rest, n), 64)
  {
    hide Shl, Shr, Low, Pow2, LE, BitOr, BitAnd;
    LowJoin(0, rest, n, 64 - n);
    OrDisjoint(Low(rest, 64 - n), e, n);
    LowJoin(e, rest, n, 64 - n);
  }

  /** The part taken from a partly used byte. */
  lemma EndBits(s: seq<byte>, p: nat, c: nat, n: nat, e: nat)
    requires p + c <= 8 * |s|
    requires n == (if p % 8 == 0 then 0 else if 8 - p % 8 > c then c else 8 - p % 8)
    requires p % 8 != 0 ==> p / 8 < |s|
    requires e == (if p % 8 == 0 then 0 else BitAnd(Shr(s[p / 8], p % 8), Pow2(n) - 1))
    ensures e == Low(Shr(LE(s), p), n) && e < Pow2(n)
  {
    hide Shl, Shr, Low, Pow2, LE, BitOr, BitAnd;
    var x := Shr(LE(s), p);
    Halves(x, n);
    if p % 8 == 0 {
      LowNone(x);
    } else {
      var b, i := p % 8, p / 8;
      AndMask(Shr(s[i], b), n);
      assert s[i..i + 1] == [s[i]];
      LEByte(s[i]);
      LESlice(s, i, 1);
      Split(LE(s), 8 * i, b);
      ShrLow(Shr(LE(s), 8 * i), b, 8 - b);
      LowLow(x, n, 8 - b);
    }
  }

  /** The part taken from the whole bytes that follow. */
  lemma RestBits(s: seq<byte>, p: nat, c: nat, n: nat, k: nat, q: nat)
    requires n == (if p % 8 == 0 then 0 else if 8 - p % 8 > c then c else 8 - p % 8)
    requires k == Align(c + p % 8) / 8 - (if p % 8 == 0 then 0 else 1)
    requires q == p / 8 + (if p % 8 == 0 then 0 else 1) && q + k <= |s|
    ensures Low(LE(s[q..q + k]), c - n) == Low(Shr(Shr(LE(s), p), n), c - n)
  {
    hide Shl, Shr, Low, Pow2, LE, BitOr, BitAnd;
    LESlice(s, q, k);
    Split(LE(s), p, n);
    if c == n {
      LowNone(LE(s[q..q + k]));
      LowNone(Shr(Shr(LE(s), p), n));
    } else {
      assert 8 * q == p + n;
      LowLow(Shr(LE(s), 8 * q), c - n, 8 * k);
    }
  }

  /** As many bytes as a bit field touches reach to its end, and a partly used byte is one of them. */
  lemma BytesTouched(p: nat, count: nat)
    ensures var touched := Align(count + p % 8) / 8;
            && p + count <= 8 * (p / 8 + touched)
            && (p % 8 != 0 ==> touched >= 1 && p <= 8 * (p / 8 + 1))
  {
  }

  class Writer {
    var bitPosition: nat
    const buffer: Buffer

    constructor (buffer: Buffer)
      ensures bitPosition == 0 && this.buffer == buffer && Valid()
    {
      this.buffer := buffer;
      bitPosition := 0;
    }

    function Stream(): seq<byte>
      reads this, buffer, buffer.data
    {
      buffer.data[..]
    }

    predicate Valid()
      reads this, buffer, buffer.data
    {
      bitPosition <= 8 * |Stream()|
    }

    /** Mixes the first bits into a byte that is partly written. */
    method WriteEdge(location: nat, bitIndex: nat, value: nat, bitsToWrite: nat)
      requires location < buffer.data.Length && bitIndex < 8 && bitIndex + bitsToWrite <= 8
      modifies buffer.data
      ensures buffer.data[..]
              == old(buffer.data[..])[location := Mix(old(buffer.data[location]), bitIndex, value, bitsToWrite)]
    {
      hide Shl, Shr, Low, Pow2, BitOr, BitAnd, Mix;
      var workByte := BitAnd(buffer.data[location], Pow2(bitIndex) - 1);
      var newBits := Low(Shl(BitAnd(BitAnd(value, 255), Pow2(bitsToWrite) - 1), bitIndex), 8);
      MixedByte(buffer.data[location], bitIndex, value, bitsToWrite);
      buffer.data[location] := BitOr(newBits, workByte);
    }

    /** Stores the bits where there is room for them: mixed into a partly used byte, and copied as whole bytes. */
    method StoreBits(data: nat, count: nat, touched: nat)
      requires Valid() && touched == Align(count + bitPosition % 8) / 8
      requires bitPosition / 8 + touched <= buffer.data.Length
      modifies this`bitPosition, buffer.data
      ensures bitPosition == old(bitPosition) + count && |Stream()| == |old(Stream())|
      ensures var s, p := old(Stream()), old(bitPosition);
              var n := if p % 8 == 0 then 0 else if 8 - p % 8 > count then count else 8 - p % 8;
              var k := touched - (if p % 8 == 0 then 0 else 1);
              k >= 0
              && (p % 8 != 0 ==> p / 8 < |s|)
              && s[..p / 8] + (if p % 8 == 0 then [] else [Mix(s[p / 8], p % 8, data, n)]) + ToBytes(Shr(data, n), k)
                 <= Stream()
    {
      hide Shl, Shr, Low, Pow2, ToBytes, Mix, Align;
      BytesTouched(bitPosition, count);
      LowNone(data);
      ghost var s, p := Stream(), bitPosition;
      var bitIndex := bitPosition % 8;
      var location, value, bytesToWrite := bitPosition / 8, data, touched;
      ghost var head: seq<byte> := [];
      if bitIndex != 0 {
        var bitsToWrite := 8 - bitIndex;
        bitsToWrite := if bitsToWrite > count then count else bitsToWrite;
        WriteEdge(location, bitIndex, data, bitsToWrite);
        head := [Mix(s[location], bitIndex, data, bitsToWrite)];
        location := location + 1;
        bytesToWrite := bytesToWrite - 1;
        value := Shr(value, bitsToWrite);
      }
      assert buffer.data[..location] == s[..p / 8] + head;
      buffer.Copy(ToBytes(value, bytesToWrite), location);
      bitPosition := bitPosition + count;
    }

    /** Writes the low bits of a 64-bit value. Whatever is written later, reading them back
      * gives the value modulo 2^count; nothing before the cursor changes. */
    method WriteBits(data: nat, count: nat)
      requires Valid() && data < Pow2(64) && count <= 64
      modifies this, buffer, buffer.data
      ensures Valid() && (buffer.data == old(buffer.data) || fresh(buffer.data))
      ensures bitPosition == old(bitPosition) + count
      ensures Extends(Stream(), old(Stream()), old(bitPosition))
      ensures forall t :: Extends(t, Stream(), bitPosition) ==>
        DecBits(t, old(bitPosition), count) == Got(Low(data, count), bitPosition)
    {
      hide Shl, Shr, Low, Pow2, ToBytes, Mix, Extends, DecBits, Align;
      ghost var p := bitPosition;
      BytesTouched(p, count);
      var bytesToWrite := Align(count + bitPosition % 8) / 8;
      buffer.Reserve(bitPosition / 8, bytesToWrite);
      ghost var s := Stream();
      StoreBits(data, count, bytesToWrite);
      ghost var n := if p % 8 == 0 then 0 else if 8 - p % 8 > count then count else 8 - p % 8;
      BitsStored(old(Stream()), s, Stream(), p, count, data, n, bytesToWrite - (if p % 8 == 0 then 0 else 1));
    }

    /** Writes whole bytes from the next byte boundary. */
    method WriteBytes(source: seq<byte>)
      requires Valid()
      modifies this, buffer, buffer.data
      ensures Valid() && (buffer.data == old(buffer.data) || fresh(buffer.data))
      ensures bitPosition == Align(old(bitPosition)) + 8 * |source|
      ensures Extends(Stream(), old(Stream()), old(bitPosition))
      ensures forall t :: Extends(t, Stream(), bitPosition) ==>
        DecBytes(t, old(bitPosition), |source|) == Got(source, bitPosition)
    {
      hide Shl, Shr, Low, Pow2, LE, Written, Extends, DecBytes;
      ghost var p := bitPosition;
      bitPosition := Align(bitPosition);
      buffer.Reserve(bitPosition / 8, |source|);
      ghost var s := Stream();
      Grown(s, old(Stream()), bitPosition);
      buffer.Copy(source, bitPosition / 8);
      BytesStored(s, Stream(), p, bitPosition, source, bitPosition + 8 * |source|);
      ExtendsTransitive(Stream(), s, bitPosition, old(Stream()), bitPosition);
      ExtendsEarlier(Stream(), old(Stream()), bitPosition, p);
      bitPosition := bitPosition + |source| * 8;
    }
  }

  /** Bytes stored at a byte boundary are found there in every later stream. */
  lemma BytesStored(s: seq<byte>, t: seq<byte>, p: nat, q: nat, source: seq<byte>, end: nat)
    requires q == Align(p) && q % 8 == 0 && q / 8 + |source| <= |s| && end == q + 8 * |source|
    requires t == s[..q / 8] + source + s[q / 8 + |source|..]
    ensures Extends(t, s, q)
    ensures forall u :: Extends(u, t, end) ==> DecBytes(u, p, |source|) == Got(source, end)
  {
    hide Shl, Shr, Low, Pow2, LE;
    var i, n := q / 8, |source|;
    LESlice(s, 0, i);
    LESlice(t, 0, i);
    LowNone(LE(s));
    LowNone(LE(t));
    assert t[..i] == s[..i];
    forall u | Extends(u, t, end) ensures DecBytes(u, p, n) == Got(source, end) {
      FieldOfWritten(u, q, 8 * n);
      FieldOfWritten(t, q, 8 * n);
      LESlice(u, i, n);
      LESlice(t, i, n);
      assert t[i..i + n] == source;
      LEInjective(u[i..i + n], source);
    }
  }

  /** Growing keeps everything written. */
  lemma Grown(t: seq<byte>, s: seq<byte>, p: nat)
    requires p <= 8 * |s| && |s| <= |t| && forall i :: 0 <= i < |s| ==> t[i] == s[i]
    ensures Extends(t, s, p)
  {
    hide Shl, Shr, Low, Pow2, LE;
    assert t == s + t[|s|..];
    LEConcat(s, t[|s|..]);
    Join(LE(s), LE(t[|s|..]), 8 * |s|);
    LowSmall(LE(s), 8 * |s|);
    assert Written(t, 8 * |s|) == Written(s, 8 * |s|);
    ExtendsEarlier(t, s, 8 * |s|, p);
  }

  /** The byte shared by what was there (its low b bits) and the first n bits written. */
  function Mix(kept: byte, b: nat, data: nat, n: nat): (w: byte)
    requires b < 8 && n <= 8 - b
  {
    MixBound(kept, b, data, n);
    Low(kept, b) + Shl(Low(data, n), b)
  }

  lemma MixBound(kept: nat, b: nat, data: nat, n: nat)
    requires b + n <= 8
    ensures Low(kept, b) < Pow2(b) && Low(kept, b) + Shl(Low(data, n), b) < Pow2(b + n) <= 256
  {
    hide Shl, Shr, Low, Pow2;
    Halves(kept, b);
    Halves(data, n);
    Bound(Low(kept, b), Low(data, n), b, n);
    Pow2Monotonic(b + n, 8);
    Pow2Byte();
  }

  lemma MixedByte(kept: byte, b: nat, data: nat, n: nat)
    requires b < 8 && b + n <= 8
    ensures BitOr(Low(Shl(BitAnd(BitAnd(data, 255), Pow2(n) - 1), b), 8), BitAnd(kept, Pow2(b) - 1))
            == Mix(kept, b, data, n)
  {
    hide Shl, Shr, Low, Pow2, LE, BitOr, BitAnd;
    Pow2Byte();
    AndMask(data, 8);
    AndMask(Low(data, 8), n);
    LowLow(data, n, 8);
    AndMask(kept, b);
    MixBound(kept, b, data, n);
    LowSmall(Shl(Low(data, n), b), 8);
    OrDisjoint(Low(data, n), Low(kept, b), b);
  }

  /** Storing a field: the mixed byte, if any, and the whole bytes after it put the value's
    * low bits right above what was written, whatever the bytes behind them hold. */
  lemma FieldStored(s: seq<byte>, t: seq<byte>, p: nat, c: nat, data: nat, n: nat, k: nat)
    requires p / 8 <= |s| && (p % 8 != 0 ==> p / 8 < |s|)
    requires n == (if p % 8 == 0 then 0 else if 8 - p % 8 > c then c else 8 - p % 8)
    requires k == Align(c + p % 8) / 8 - (if p % 8 == 0 then 0 else 1)
    requires var head := if p % 8 == 0 then [] else [Mix(s[p / 8], p % 8, data, n)];
             s[..p / 8] + head + ToBytes(Shr(data, n), k) <= t
    ensures Written(t, p + c) == Written(s, p) + Shl(Low(data, c), p)
  {
    hide Shl, Shr, Low, Pow2, LE, ToBytes, Mix;
    var i, b := p / 8, p % 8;
    var head := if b == 0 then [] else [Mix(s[i], b, data, n)];
    var body := ToBytes(Shr(data, n), k);
    var tail := t[i + |head| + k..];
    assert t == s[..i] + (head + (body + tail));
    LEConcat(s[..i], head + (body + tail));
    var x := LE(head + (body + tail));
    LowJoin(LE(s[..i]), x, 8 * i, b + c);
    KeptPrefix(s, i, b);
    var kept := if b == 0 then 0 else Low(s[i], b);
    assert Low(x, b + c) == kept + Shl(Low(data, c), b) by {
      if b == 0 {
        assert head + (body + tail) == body + tail;
        BodyLow(data, n, k, tail, c);
        LowNone(data);
        LowNone(Low(data, c));
      } else {
        MixedLow(s[i], b, data, n, k, tail, c);
      }
    }
    ShlSum(kept, Shl(Low(data, c), b), 8 * i);
    ShlShl(Low(data, c), b, 8 * i);
  }

  lemma KeptPrefix(s: seq<byte>, i: nat, b: nat)
    requires b < 8 && i <= |s| && (b != 0 ==> i < |s|)
    ensures Written(s, 8 * i + b) == LE(s[..i]) + Shl(if b == 0 then 0 else Low(s[i], b), 8 * i)
  {
    hide Shl, Shr, Low, Pow2, LE;
    LESlice(s, 0, i);
    LowNone(LE(s));
    Split(LE(s), 8 * i, b);
    if b == 0 {
      LowNone(Shr(LE(s), 8 * i));
    } else {
      LESlice(s, i, 1);
      assert s[i..i + 1] == [s[i]];
      LEByte(s[i]);
      LowLow(Shr(LE(s), 8 * i), b, 8);
    }
  }

  lemma BodyLow(data: nat, n: nat, k: nat, tail: seq<byte>, c: nat)
    requires c <= 8 * k
    ensures Low(LE(ToBytes(Shr(data, n), k) + tail), c) == Low(Shr(data, n), c)
  {
    hide Shl, Shr, Low, Pow2, LE, ToBytes;
    var body := ToBytes(Shr(data, n), k);
    LEConcat(body, tail);
    ToBytesValue(Shr(data, n), k);
    Join(LE(body), LE(tail), 8 * k);
    LowLow(LE(body + tail), c, 8 * k);
    LowLow(Shr(data, n), c, 8 * k);
  }

  lemma MixedLow(kept: byte, b: nat, data: nat, n: nat, k: nat, tail: seq<byte>, c: nat)
    requires 0 < b < 8 && n == (if 8 - b > c then c else 8 - b) && k == Align(c + b) / 8 - 1
    ensures Low(LE([Mix(kept, b, data, n)] + (ToBytes(Shr(data, n), k) + tail)), b + c)
            == Low(kept, b) + Shl(Low(data, c), b)
  {
    hide Shl, Shr, Low, Pow2, LE, ToBytes;
    var w := Mix(kept, b, data, n);
    var y := LE(ToBytes(Shr(data, n), k) + tail);
    LEConcat([w], ToBytes(Shr(data, n), k) + tail);
    LEByte(w);
    var x := w + Shl(y, 8);
    MixBound(kept, b, data, n);
    if c == n {
      Pow2Byte();
      Join(w, y, 8);
      LowLow(x, b + c, 8);
      LowSmall(w, b + c);
    } else {
      ShlShl(y, n, b);
      ShlSum(Low(data, n), Shl(y, n), b);
      LowJoin(Low(kept, b), Low(data, n) + Shl(y, n), b, c);
      Halves(data, n);
      LowJoin(Low(data, n), y, n, c - n);
      BodyLow(data, n, k, tail, c - n);
      Split(data, n, c - n);
    }
  }

  /** What the stored digits mean for every later stream. */
  lemma StoredMeaning(t: seq<byte>, s: seq<byte>, p: nat, c: nat, data: nat)
    requires p + c <= 8 * |t| && Written(t, p + c) == Written(s, p) + Shl(Low(data, c), p)
    ensures Extends(t, s, p)
    ensures forall u :: Extends(u, t, p + c) ==> DecBits(u, p, c) == Got(Low(data, c), p + c)
  {
    hide Shl, Shr, Low, Pow2, LE;
    Halves(LE(s), p);
    Join(Written(s, p), Low(data, c), p);
    LowLow(LE(t), p, p + c);
    forall u | Extends(u, t, p + c) ensures DecBits(u, p, c) == Got(Low(data, c), p + c) {
      FieldOfWritten(u, p, c);
    }
  }

  /** What a write of bits stored, in a stream that may have grown before it, means for every reader. */
  lemma BitsStored(before: seq<byte>, s: seq<byte>, t: seq<byte>, p: nat, c: nat, data: nat, n: nat, k: nat)
    requires p <= 8 * |before| && |before| <= |s| && s[..|before|] == before && (p % 8 != 0 ==> p / 8 < |s|)
    requires n == (if p % 8 == 0 then 0 else if 8 - p % 8 > c then c else 8 - p % 8)
    requires k == Align(c + p % 8) / 8 - (if p % 8 == 0 then 0 else 1)
    requires var head := if p % 8 == 0 then [] else [Mix(s[p / 8], p % 8, data, n)];
             s[..p / 8] + head + ToBytes(Shr(data, n), k) <= t
    requires p + c <= 8 * |t|
    ensures Extends(t, before, p)
    ensures forall u :: Extends(u, t, p + c) ==> DecBits(u, p, c) == Got(Low(data, c), p + c)
  {
    hide Shl, Shr, Low, Pow2, LE, ToBytes, Mix, Written, Extends, DecBits, Align;
    assert forall i :: 0 <= i < |before| ==> s[i] == s[..|before|][i];
    Grown(s, before, p);
    FieldStored(s, t, p, c, data, n, k);
    StoredMeaning(t, s, p, c, data);
    ExtendsTransitive(t, s, p, before, p);
  }

  // ----- Any interleaving of the two write operations

  datatype Item = BitsItem(data: nat, count: nat) | BytesItem(bytes: seq<byte>)

  predicate ValidItem(x: Item) {
    x.BitsItem? ==> x.data < Pow2(64) && x.count <= 64
  }

  /** What a reader gets for an item: bit fields come back modulo 2^count. */
  function Read(x: Item): Item {
    match x
    case BitsItem(d, c) => BitsItem(Low(d, c), c)
    case BytesItem(_) => x
  }

  /** One read of the kind and size of x. */
  function DecItem(s: seq<byte>, p: nat, x: Item): Got<Item> {
    match x
    case BitsItem(_, c) => var g := DecBits(s, p, c); Got(BitsItem(g.value, c), g.pos)
    case BytesItem(b) => var g := DecBytes(s, p, |b|); Got(BytesItem(g.value), g.pos)
  }

  /** Replaying the reads for the items from k on, after having read `acc`. */
  function DecItems(s: seq<byte>, p: nat, xs: seq<Item>, acc: seq<Item>): Got<seq<Item>>
    requires |acc| <= |xs|
    decreases |xs| - |acc|
  {
    if |acc| == |xs| then Got(acc, p)
    else
      var g := DecItem(s, p, xs[|acc|]);
      DecItems(s, g.pos, xs, acc + [g.value])
  }

  function ReadAll(xs: seq<Item>): (ys: seq<Item>)
    ensures |ys| == |xs| && forall i :: 0 <= i < |xs| ==> ys[i] == Read(xs[i])
  {
    seq(|xs|, i requires 0 <= i < |xs| => Read(xs[i]))
  }

  method WriteItem(w: Writer, x: Item)
    requires w.Valid() && ValidItem(x)
    modifies w, w.buffer, w.buffer.data
    ensures w.Valid() && (w.buffer.data == old(w.buffer.data) || fresh(w.buffer.data))
    ensures old(w.bitPosition) <= w.bitPosition
    ensures Extends(w.Stream(), old(w.Stream()), old(w.bitPosition))
    ensures forall t :: Extends(t, w.Stream(), w.bitPosition) ==>
            DecItem(t, old(w.bitPosition), x) == Got(Read(x), w.bitPosition)
  {
    match x
    case BitsItem(d, c) => w.WriteBits(d, c);
    case BytesItem(b) => w.WriteBytes(b);
  }

  /** Writing any items one after another and replaying the reads gives each of them back
    * and ends at the writer's bit position, across every growth of the buffer. */
  method WriteItems(w: Writer, xs: seq<Item>)
    requires w.Valid() && forall i :: 0 <= i < |xs| ==> ValidItem(xs[i])
    modifies w, w.buffer, w.buffer.data
    ensures w.Valid() && (w.buffer.data == old(w.buffer.data) || fresh(w.buffer.data))
    ensures old(w.bitPosition) <= w.bitPosition
    ensures Extends(w.Stream(), old(w.Stream()), old(w.bitPosition))
    ensures forall t :: Extends(t, w.Stream(), w.bitPosition) ==>
      DecItems(t, old(w.bitPosition), xs, []) == Got(ReadAll(xs), w.bitPosition)
  {
    hide Extends, DecItem, ValidItem, Read;
    ghost var p := w.bitPosition;
    var i := 0;
    SelfExtends(w.Stream(), p);
    assert ReadAll(xs)[..0] == [];
    while i < |xs|
      invariant 0 <= i <= |xs| && w.Valid() && (w.buffer.data == old(w.buffer.data) || fresh(w.buffer.data))
      invariant p <= w.bitPosition && Extends(w.Stream(), old(w.Stream()), p)
      invariant forall t :: Extends(t, w.Stream(), w.bitPosition) ==>
        DecItems(t, p, xs, []) == DecItems(t, w.bitPosition, xs, ReadAll(xs)[..i])
    {
      ghost var s, q := w.Stream(), w.bitPosition;
      WriteItem(w, xs[i]);
      ExtendsTransitive(w.Stream(), s, q, old(w.Stream()), p);
      forall t | Extends(t, w.Stream(), w.bitPosition)
        ensures DecItems(t, p, xs, []) == DecItems(t, w.bitPosition, xs, ReadAll(xs)[..i + 1])
      {
        ExtendsTransitive(t, w.Stream(), w.bitPosition, s, q);
        assert ReadAll(xs)[..i + 1] == ReadAll(xs)[..i] + [Read(xs[i])];
      }
      i := i + 1;
    }
    assert ReadAll(xs)[..|xs|] == ReadAll(xs);
  }

  lemma SelfExtends(s: seq<byte>, p: nat)
    requires p <= 8 * |s|
    ensures Extends(s, s, p)
  {
  }
}
