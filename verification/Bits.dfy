/** What the word operations do, bit by bit. */
module Bits {
  import opened Words

  /** Bit k of x, counted from the least significant one. */
  function Bit(x: nat, k: nat): nat {
    if k == 0 then x % 2 else Bit(x / 2, k - 1)
  }

  lemma {:induction false} BitIsBit(x: nat, k: nat)
    ensures Bit(x, k) == 0 || Bit(x, k) == 1
  {
    if k > 0 {
      BitIsBit(x / 2, k - 1);
    }
  }

  lemma {:induction false} BitOfZero(k: nat)
    ensures Bit(0, k) == 0
  {
    if k > 0 {
      BitOfZero(k - 1);
    }
  }

  /** Numbers of the same width with the same bits are equal, so the laws below determine their operations. */
  lemma {:induction false} SameBits(x: nat, y: nat, width: nat)
    requires x < Pow2(width) && y < Pow2(width)
    requires forall k: nat :: k < width ==> Bit(x, k) == Bit(y, k)
    ensures x == y
  {
    if width > 0 {
      forall k: nat | k < width - 1 ensures Bit(x / 2, k) == Bit(y / 2, k) {
        assert Bit(x, k + 1) == Bit(y, k + 1);
      }
      SameBits(x / 2, y / 2, width - 1);
      assert Bit(x, 0) == Bit(y, 0);
    }
  }

  // ---------------------------------------------------------------------------------------------
  // Bitwise operations

  lemma {:induction false} AndBit(x: nat, y: nat, k: nat)
    ensures Bit(And(x, y), k) == if Bit(x, k) == 1 then Bit(y, k) else 0
  {
    BitIsBit(x, k);
    BitIsBit(y, k);
    if x == 0 || y == 0 {
      BitOfZero(k);
    } else if k > 0 {
      AndBit(x / 2, y / 2, k - 1);
    }
  }

  lemma {:induction false} OrBit(x: nat, y: nat, k: nat)
    ensures Bit(Or(x, y), k) == if Bit(x, k) >= Bit(y, k) then Bit(x, k) else Bit(y, k)
  {
    BitIsBit(x, k);
    BitIsBit(y, k);
    if x == 0 || y == 0 {
      BitOfZero(k);
    } else if k > 0 {
      OrBit(x / 2, y / 2, k - 1);
    }
  }

  lemma {:induction false} XorBit(x: nat, y: nat, k: nat)
    ensures Bit(Xor(x, y), k) == (Bit(x, k) + Bit(y, k)) % 2
  {
    BitIsBit(x, k);
    BitIsBit(y, k);
    if x == 0 || y == 0 {
      BitOfZero(k);
    } else if k > 0 {
      XorBit(x / 2, y / 2, k - 1);
    }
  }

  lemma {:induction false} ComplementBit(x: nat, width: nat, k: nat)
    requires x < Pow2(width) && k < width
    ensures Bit(Pow2(width) - 1 - x, k) == 1 - Bit(x, k)
  {
    if k > 0 {
      ComplementBit(x / 2, width - 1, k - 1);
      assert (Pow2(width) - 1 - x) / 2 == Pow2(width - 1) - 1 - x / 2;
    }
  }

  lemma NotBit(x: Word, k: nat)
    requires k < 32
    ensures Bit(Not32(x), k) == 1 - Bit(x, k)
  {
    Pow2Of32();
    ComplementBit(x, 32, k);
  }

  // ---------------------------------------------------------------------------------------------
  // Shifts and rotations

  /** Adding a multiple of 2^m does not change the bits below m. */
  lemma {:induction false} LowBit(a: nat, b: nat, m: nat, k: nat)
    requires k < m
    ensures Bit(a + b * Pow2(m), k) == Bit(a, k)
  {
    var half := b * Pow2(m - 1);
    assert b * Pow2(m) == 2 * half;
    if k > 0 {
      LowBit(a / 2, b, m - 1, k - 1);
      assert (a + 2 * half) / 2 == a / 2 + half;
    }
  }

  /** The bits from m on are those of the multiple. */
  lemma {:induction false} HighBit(a: nat, b: nat, m: nat, k: nat)
    requires a < Pow2(m) && k >= m
    ensures Bit(a + b * Pow2(m), k) == Bit(b, k - m)
  {
    if m > 0 {
      var half := b * Pow2(m - 1);
      assert b * Pow2(m) == 2 * half;
      HighBit(a / 2, b, m - 1, k - 1);
      assert (a + 2 * half) / 2 == a / 2 + half;
    } else {
      assert a + b * Pow2(0) == b;
    }
  }

  lemma Divided(x: nat, d: nat) returns (q: nat, r: nat)
    requires d > 0
    ensures q == x / d && r == x % d && r < d && x == r + q * d
  {
    DivBelow(x, d);
    q, r := x / d, x % d;
  }

  lemma ShiftBit(x: Word, n: nat, k: nat)
    ensures Bit(ShiftRight(x, n), k) == Bit(x, k + n)
  {
    var q, r := Divided(x, Pow2(n));
    HighBit(r, q, n, k + n);
  }

  /** Bit k of a word rotated right by n is the bit n places further up, cyclically. */
  lemma RotateBit(x: Word, n: nat, k: nat)
    requires 0 < n < 32 && k < 32
    ensures Bit(RotateRight(x, n), k) == Bit(x, (k + n) % 32)
  {
    hide Bit, Pow2;
    RotateBound(x, n);
    var q, r := Divided(x, Pow2(n));
    var m := 32 - n;
    if k < m {
      LowBit(q, r, m, k);
      HighBit(r, q, n, k + n);
    } else {
      HighBit(q, r, m, k);
      LowBit(r, q, n, k - m);
    }
  }
}
