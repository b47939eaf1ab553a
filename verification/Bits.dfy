/** Bit arithmetic on natural numbers: masks, shifts and bitwise or, and a byte string
  * read as one little-endian number. */
module Bits {

  type byte = x: int | 0 <= x < 256

  function Pow2(n: nat): (p: nat)
    ensures p > 0
  {
    if n == 0 then 1 else 2 * Pow2(n - 1)
  }

  /** The n lowest bits: x & ((1 << n) - 1). */
  function Low(x: nat, n: nat): nat {
    x % Pow2(n)
  }

  function Shr(x: nat, n: nat): nat {
    QuotientIsNatural(x, Pow2(n));
    x / Pow2(n)
  }

  function Shl(x: nat, n: nat): nat {
    x * Pow2(n)
  }

  /** Bitwise or. */
  function BitOr(x: nat, y: nat): nat
    decreases x + y
  {
    if x == 0 && y == 0 then 0
    else 2 * BitOr(x / 2, y / 2) + (if x % 2 == 1 || y % 2 == 1 then 1 else 0)
  }

  /** Bitwise and. */
  function BitAnd(x: nat, y: nat): nat
    decreases x + y
  {
    if x == 0 && y == 0 then 0
    else 2 * BitAnd(x / 2, y / 2) + (if x % 2 == 1 && y % 2 == 1 then 1 else 0)
  }

  // ----- Arithmetic of shifts and masks

  lemma {:induction false} Pow2Sum(a: nat, b: nat)
    ensures Pow2(a + b) == Pow2(a) * Pow2(b)
  {
    if a > 0 { Pow2Sum(a - 1, b); }
  }

  lemma Pow2Monotonic(a: nat, b: nat)
    requires a <= b
    ensures Pow2(a) <= Pow2(b)
    decreases b
  {
    if a < b { Pow2Monotonic(a, b - 1); }
  }

  lemma QuotientIsNatural(x: nat, d: nat)
    requires d > 0
    ensures x / d >= 0
  {
    var q := x / d;
    Scale(q, -1, d);
  }

  /** Multiplying by d > 0 keeps order. */
  lemma Scale(a: int, b: int, d: nat)
    requires d > 0
    ensures a <= b ==> a * d <= b * d
  {
    if a <= b { assert (b - a) * d >= 0; }
  }

  lemma DivModUnique(x: int, d: int, q: int, r: int)
    requires d > 0 && 0 <= r < d && x == q * d + r
    ensures x / d == q && x % d == r
  {
    var q', r' := x / d, x % d;
    assert x == q' * d + r';
    Scale(q' + 1, q, d);
    Scale(q + 1, q', d);
    assert (q' + 1) * d == q' * d + d && (q + 1) * d == q * d + d;
  }

  /** Low bits and high bits put together again. */
  lemma Halves(x: nat, n: nat)
    ensures x == Low(x, n) + Shl(Shr(x, n), n) && Low(x, n) < Pow2(n)
  {
  }

  lemma Join(lo: nat, hi: nat, n: nat)
    requires lo < Pow2(n)
    ensures Low(lo + Shl(hi, n), n) == lo && Shr(lo + Shl(hi, n), n) == hi
  {
    DivModUnique(lo + Shl(hi, n), Pow2(n), hi, lo);
  }

  lemma ShlShl(x: nat, a: nat, b: nat)
    ensures Shl(Shl(x, a), b) == Shl(x, a + b)
  {
    hide Pow2;
    Pow2Sum(a, b);
    Regroup(x, Pow2(a), Pow2(b));
  }

  lemma Regroup(x: int, y: int, z: int)
    ensures x * y * z == x * (y * z)
  {
  }

  lemma ShlSum(x: nat, y: nat, n: nat)
    ensures Shl(x + y, n) == Shl(x, n) + Shl(y, n)
  {
  }

  /** Splitting off the low a bits of the low a + b bits. */
  lemma Split(x: nat, a: nat, b: nat)
    ensures Low(x, a + b) == Low(x, a) + Shl(Low(Shr(x, a), b), a)
    ensures Shr(Shr(x, a), b) == Shr(x, a + b)
  {
    var y := Shr(x, a);
    var lo, hi := Low(x, a) + Shl(Low(y, b), a), Shr(y, b);
    Halves(x, a);
    Halves(y, b);
    ShlSum(Low(y, b), Shl(hi, b), a);
    ShlShl(hi, b, a);
    assert x == lo + Shl(hi, a + b);
    Bound(Low(x, a), Low(y, b), a, b);
    Join(lo, hi, a + b);
  }

  lemma Bound(lo: nat, hi: nat, a: nat, b: nat)
    requires lo < Pow2(a) && hi < Pow2(b)
    ensures lo + Shl(hi, a) < Pow2(a + b)
  {
    Pow2Sum(a, b);
    Scale(hi + 1, Pow2(b), Pow2(a));
    assert (hi + 1) * Pow2(a) == hi * Pow2(a) + Pow2(a);
  }

  lemma LowNone(x: nat)
    ensures Pow2(0) == 1 && Low(x, 0) == 0 && Shl(x, 0) == x && Shr(x, 0) == x
  {
  }

  lemma LowSmall(x: nat, n: nat)
    requires x < Pow2(n)
    ensures Low(x, n) == x && Shr(x, n) == 0
  {
    DivModUnique(x, Pow2(n), 0, x);
  }

  /** A narrower mask absorbs a wider one. */
  lemma LowLow(x: nat, a: nat, c: nat)
    requires a <= c
    ensures Low(Low(x, c), a) == Low(x, a)
  {
    Split(x, a, c - a);
    Join(Low(x, a), Low(Shr(x, a), c - a), a);
  }

  lemma ShrLow(x: nat, a: nat, b: nat)
    ensures Shr(Low(x, a + b), a) == Low(Shr(x, a), b)
  {
    Split(x, a, b);
    Join(Low(x, a), Low(Shr(x, a), b), a);
  }

  /** The low bits of a number put together from a low part and a high part. */
  lemma LowJoin(lo: nat, hi: nat, a: nat, b: nat)
    requires lo < Pow2(a)
    ensures Low(lo + Shl(hi, a), a + b) == lo + Shl(Low(hi, b), a)
  {
    Split(lo + Shl(hi, a), a, b);
    Join(lo, hi, a);
  }

  lemma {:induction false} OrDisjoint(hi: nat, lo: nat, n: nat)
    requires lo < Pow2(n)
    ensures BitOr(Shl(hi, n), lo) == Shl(hi, n) + lo
    decreases n
  {
    if n == 0 {
      OrZero(hi);
    } else {
      var x := Shl(hi, n);
      assert x == 2 * Shl(hi, n - 1) by { assert hi * (2 * Pow2(n - 1)) == 2 * (hi * Pow2(n - 1)); }
      OrDisjoint(hi, lo / 2, n - 1);
      if x == 0 && lo == 0 {
      } else {
        assert BitOr(x, lo) == 2 * BitOr(x / 2, lo / 2) + lo % 2;
      }
    }
  }

  lemma {:induction false} OrZero(x: nat)
    ensures BitOr(x, 0) == x
  {
    if x > 0 { OrZero(x / 2); }
  }

  lemma {:induction false} OrSymmetric(x: nat, y: nat)
    ensures BitOr(x, y) == BitOr(y, x)
    decreases x + y
  {
    if x == 0 && y == 0 {
    } else {
      OrSymmetric(x / 2, y / 2);
    }
  }

  /** Masking with (1 << n) - 1 keeps the n lowest bits. */
  lemma {:induction false} AndMask(x: nat, n: nat)
    ensures BitAnd(x, Pow2(n) - 1) == Low(x, n)
    decreases n, x
  {
    hide BitAnd, Low, Pow2;
    PowerHalves(n);
    if n == 0 {
      AndZero(x);
      LowNone(x);
    } else {
      AndStep(x, Pow2(n) - 1);
      AndMask(x / 2, n - 1);
      LowStep(x, n);
    }
  }

  lemma PowerHalves(n: nat)
    ensures if n == 0 then Pow2(n) == 1 else (Pow2(n) - 1) % 2 == 1 && (Pow2(n) - 1) / 2 == Pow2(n - 1) - 1
  {
    if n > 0 {
      OddHalves(Pow2(n - 1));
    }
  }

  lemma OddHalves(h: nat)
    requires h > 0
    ensures (2 * h - 1) % 2 == 1 && (2 * h - 1) / 2 == h - 1
  {
  }

  lemma AndStep(x: nat, m: nat)
    requires m % 2 == 1
    ensures BitAnd(x, m) == 2 * BitAnd(x / 2, m / 2) + x % 2
  {
  }

  /** The lowest bit, and the others above it. */
  lemma LowStep(x: nat, n: nat)
    requires n > 0
    ensures Low(x, n) == 2 * Low(x / 2, n - 1) + x % 2
  {
    OneBit(x);
    hide Low, Shr, Shl, Pow2;
    Split(x, 1, n - 1);
    Doubled(Low(x / 2, n - 1));
  }

  lemma OneBit(x: nat)
    ensures Low(x, 1) == x % 2 && Shr(x, 1) == x / 2
  {
    assert Pow2(1) == 2;
  }

  lemma Doubled(x: nat)
    ensures Shl(x, 1) == 2 * x
  {
    assert Pow2(1) == 2;
  }

  lemma {:induction false} AndZero(x: nat)
    ensures BitAnd(x, 0) == 0
  {
    if x > 0 { AndZero(x / 2); }
  }

  // ----- Byte strings as little-endian numbers

  function LE(s: seq<byte>): nat {
    if s == [] then 0 else s[0] + 256 * LE(s[1..])
  }

  lemma Pow2Byte()
    ensures Pow2(8) == 256
  {
    assert Pow2(4) == 16;
  }

  lemma {:induction false} LEConcat(s: seq<byte>, t: seq<byte>)
    ensures LE(s + t) == LE(s) + Shl(LE(t), 8 * |s|)
    ensures LE(s) < Pow2(8 * |s|)
    decreases |s|
  {
    if s == [] {
      assert s + t == t;
    } else {
      LEConcat(s[1..], t);
      assert (s + t)[1..] == s[1..] + t;
      Pow2Byte();
      var k := 8 * |s[1..]|;
      ShlShl(LE(t), k, 8);
      ShlSum(LE(s[1..]), Shl(LE(t), k), 8);
      Pow2Sum(8, k);
      assert 8 * |s| == k + 8;
    }
  }

  lemma LEByte(b: byte)
    ensures LE([b]) == b
  {
  }

  /** A stretch of bytes is a stretch of bits of the whole number. */
  lemma LESlice(s: seq<byte>, i: nat, k: nat)
    requires i + k <= |s|
    ensures LE(s[i..i + k]) == Low(Shr(LE(s), 8 * i), 8 * k)
  {
    hide Shl, Shr, Low, Pow2, LE;
    assert s == s[..i] + s[i..];
    LEConcat(s[..i], s[i..]);
    Join(LE(s[..i]), LE(s[i..]), 8 * i);
    assert s[i..] == s[i..i + k] + s[i + k..];
    LEConcat(s[i..i + k], s[i + k..]);
    Join(LE(s[i..i + k]), LE(s[i + k..]), 8 * k);
  }

  /** The low bytes of a number, least significant first. */
  function ToBytes(x: nat, n: nat): (s: seq<byte>)
    ensures |s| == n
  {
    if n == 0 then [] else [x % 256] + ToBytes(x / 256, n - 1)
  }

  lemma {:induction false} ToBytesValue(x: nat, n: nat)
    ensures LE(ToBytes(x, n)) == Low(x, 8 * n)
    decreases n
  {
    if n == 0 {
    } else {
      Pow2Byte();
      ToBytesValue(x / 256, n - 1);
      assert ToBytes(x, n)[1..] == ToBytes(x / 256, n - 1);
      Split(x, 8, 8 * (n - 1));
    }
  }

  lemma {:induction false} ToBytesPrefix(x: nat, n: nat, k: nat)
    requires k <= n
    ensures ToBytes(x, n)[..k] == ToBytes(x, k)
    decreases n
  {
    if k > 0 { ToBytesPrefix(x / 256, n - 1, k - 1); }
  }

  lemma {:induction false} LEInjective(s: seq<byte>, t: seq<byte>)
    requires |s| == |t| && LE(s) == LE(t)
    ensures s == t
    decreases |s|
  {
    if s != [] {
      LEInjective(s[1..], t[1..]);
      assert s == [s[0]] + s[1..] && t == [t[0]] + t[1..];
    }
  }
}
