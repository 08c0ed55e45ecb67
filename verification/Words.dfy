/** 32-bit words as numbers, their bitwise operations, and big-endian byte strings. */
module Words {

  const WORDS: int := 0x1_0000_0000

  type Word = x: int | 0 <= x < WORDS witness 0
  type Byte = x: int | 0 <= x < 256 witness 0

  function Pow2(n: nat): (p: nat)
    ensures p > 0
  {
    if n == 0 then 1 else 2 * Pow2(n - 1)
  }

  function And(x: nat, y: nat): nat {
    if x == 0 || y == 0 then 0
    else 2 * And(x / 2, y / 2) + (if x % 2 == 1 && y % 2 == 1 then 1 else 0)
  }

  function Or(x: nat, y: nat): nat {
    if x == 0 then y else if y == 0 then x
    else 2 * Or(x / 2, y / 2) + (if x % 2 == 1 || y % 2 == 1 then 1 else 0)
  }

  function Xor(x: nat, y: nat): nat {
    if x == 0 then y else if y == 0 then x
    else 2 * Xor(x / 2, y / 2) + (if x % 2 != y % 2 then 1 else 0)
  }

  /** Bitwise operations stay within any width that holds their operands. */
  lemma {:induction false} BitwiseBound(x: nat, y: nat, k: nat)
    requires x < Pow2(k) && y < Pow2(k)
    ensures And(x, y) < Pow2(k) && Or(x, y) < Pow2(k) && Xor(x, y) < Pow2(k)
  {
    if x != 0 && y != 0 {
      BitwiseBound(x / 2, y / 2, k - 1);
    }
  }

  lemma Pow2Of32()
    ensures Pow2(32) == WORDS
  {
    assert Pow2(4) == 16;
    Pow2Add(4, 4);
    Pow2Add(8, 8);
    Pow2Add(16, 16);
  }

  lemma {:induction false} Pow2Add(a: nat, b: nat)
    ensures Pow2(a + b) == Pow2(a) * Pow2(b)
  {
    if a > 0 {
      Pow2Add(a - 1, b);
    }
  }

  function And32(x: Word, y: Word): Word {
    Pow2Of32(); BitwiseBound(x, y, 32);
    And(x, y)
  }

  function Xor32(x: Word, y: Word): Word {
    Pow2Of32(); BitwiseBound(x, y, 32);
    Xor(x, y)
  }

  function Or32(x: Word, y: Word): Word {
    Pow2Of32(); BitwiseBound(x, y, 32);
    Or(x, y)
  }

  /** The bitwise complement of a word. */
  function Not32(x: Word): Word {
    WORDS - 1 - x
  }

  /** Addition modulo 2^32. */
  function Add32(x: Word, y: Word): Word {
    (x + y) % WORDS
  }

  /** Right shift and right rotation: the low n bits are dropped, or move to the top. */
  function ShiftRight(x: Word, n: nat): Word {
    ShiftBound(x, n);
    x / Pow2(n)
  }

  function RotateRight(x: Word, n: nat): Word
    requires 0 < n < 32
  {
    RotateBound(x, n);
    x / Pow2(n) + x % Pow2(n) * Pow2(32 - n)
  }

  lemma ShiftBound(x: Word, n: nat)
    ensures 0 <= x / Pow2(n) < WORDS
  {
    DivBelow(x, Pow2(n));
  }

  lemma DivBelow(x: nat, d: nat)
    requires d > 0
    ensures 0 <= x / d <= x
  {
    var q := x / d;
    assert x == d * q + x % d;
    assert q >= 0;
    MulMonotone(1, d, q);
  }

  lemma RotateBound(x: Word, n: nat)
    requires 0 < n < 32
    ensures 0 <= x / Pow2(n) < Pow2(32 - n)
    ensures 0 <= x / Pow2(n) + x % Pow2(n) * Pow2(32 - n) < WORDS
  {
    assert Pow2(n) * Pow2(32 - n) == WORDS by { Pow2Of32(); Pow2Add(n, 32 - n); }
    RotateParts(x, Pow2(n), Pow2(32 - n));
  }

  lemma RotateParts(x: nat, lo: nat, hi: nat)
    requires lo > 0 && x < lo * hi
    ensures 0 <= x / lo < hi && 0 <= x / lo + x % lo * hi < lo * hi
  {
    DivBelow(x, lo);
    RotateBoundBy(x, lo, hi, x / lo, x % lo);
  }

  lemma RotateBoundBy(x: nat, lo: nat, hi: nat, q: nat, r: nat)
    requires x == lo * q + r && r < lo && x < lo * hi
    ensures q < hi && 0 <= q + r * hi < lo * hi
  {
    if hi <= q {
      MulMonotone(hi, q, lo);
    }
    MulMonotone(r + 1, lo, hi);
    assert (r + 1) * hi == r * hi + hi;
    assert r * hi >= 0;
  }

  /** A quotient and a remainder in range are the quotient and the remainder. */
  lemma QuotientRemainder(x: int, d: int, q: int, r: int)
    requires d > 0 && x == d * q + r && 0 <= r < d
    ensures x / d == q && x % d == r
  {
    var q', r' := x / d, x % d;
    assert x == d * q' + r';
    if q < q' {
      MulMonotone(q + 1, q', d);
    } else if q' < q {
      MulMonotone(q' + 1, q, d);
    }
  }

  lemma MulMonotone(a: int, b: int, c: int)
    requires a <= b && c >= 0
    ensures a * c <= b * c
  {
  }

  // ---------------------------------------------------------------------------------------------
  // Bytes

  function BigEndian32(x: Word): (s: seq<Byte>)
    ensures |s| == 4
  {
    [x / 256 / 256 / 256, x / 256 / 256 % 256, x / 256 % 256, x % 256]
  }

  function FromBigEndian32(s: seq<Byte>): Word
    requires |s| == 4
  {
    var b3: int, b2: int, b1: int, b0: int := s[0], s[1], s[2], s[3];
    b3 * 0x100_0000 + b2 * 0x1_0000 + b1 * 0x100 + b0
  }

  lemma WordReads(x: Word)
    ensures FromBigEndian32(BigEndian32(x)) == x
  {
  }
}
