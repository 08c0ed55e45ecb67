/** The 32-bit operators of JavaScript on numbers that hold integers exactly.
    `|`, `^`, `&`, `~` and `<<` return signed 32-bit values, `>>>` unsigned ones, and `+` is the mathematical sum
    as long as a double holds it exactly. */
module JsNumbers {
  import opened Words

  type Int32 = x: int | -0x8000_0000 <= x < 0x8000_0000

  const EXACT := 0x20_0000_0000_0000

  /** `x + y` on doubles, where it does not round. */
  function Plus(x: int, y: int): int
    requires -EXACT <= x + y <= EXACT
  {
    x + y
  }

  function ToUint32(x: int): Word {
    x % WORDS
  }

  function ToInt32(x: int): Int32 {
    var u := x % WORDS;
    if u >= 0x8000_0000 then u - WORDS else u
  }

  function BitOr(x: int, y: int): Int32 {
    ToInt32(Or32(ToUint32(x), ToUint32(y)))
  }

  function BitXor(x: int, y: int): Int32 {
    ToInt32(Xor32(ToUint32(x), ToUint32(y)))
  }

  function BitAnd(x: int, y: int): Int32 {
    ToInt32(And32(ToUint32(x), ToUint32(y)))
  }

  function BitNot(x: int): Int32 {
    -1 - ToInt32(x)
  }

  function UnsignedShiftRight(x: int, n: nat): int
    requires n < 32
  {
    ToUint32(x) / Pow2(n)
  }

  function ShiftLeft(x: int, n: nat): Int32
    requires n < 32
  {
    ToInt32(ToUint32(x) * Pow2(n))
  }

  function SignedShiftRight(x: int, n: nat): int
    requires n < 32
  {
    ToInt32(x) / Pow2(n)
  }

  /** `rotr` of the worker. */
  function Rotr(x: int, n: nat): Int32
    requires 0 < n < 32
  {
    BitOr(UnsignedShiftRight(x, n), ShiftLeft(x, 32 - n))
  }

  // ---------------------------------------------------------------------------------------------
  // A signed intermediate stands for the same word

  lemma SignIsInvisible(x: int)
    ensures ToUint32(ToInt32(x)) == ToUint32(x)
  {
  }

  lemma WordIsItself(w: Word)
    ensures ToUint32(w) == w && UnsignedShiftRight(w, 0) == w
  {
  }

  lemma SumIsAdd32(x: int, y: int)
    ensures ToUint32(x + y) == Add32(ToUint32(x), ToUint32(y))
  {
  }

  lemma BitwiseIsWordwise(x: int, y: int)
    ensures ToUint32(BitOr(x, y)) == Or32(ToUint32(x), ToUint32(y))
    ensures ToUint32(BitXor(x, y)) == Xor32(ToUint32(x), ToUint32(y))
    ensures ToUint32(BitAnd(x, y)) == And32(ToUint32(x), ToUint32(y))
    ensures ToUint32(BitNot(x)) == Not32(ToUint32(x))
  {
  }

  lemma {:induction false} OrOfDisjoint(a: nat, b: nat, k: nat)
    requires a < Pow2(k)
    ensures Or(a, b * Pow2(k)) == a + b * Pow2(k)
  {
    if a != 0 && b != 0 {
      assert b * Pow2(k) == 2 * (b * Pow2(k - 1));
      OrOfDisjoint(a / 2, b, k - 1);
      assert b * Pow2(k) != 0;
    }
  }

  lemma ModOfMultiple(x: nat, lo: nat, hi: nat)
    requires lo > 0 && hi > 0
    ensures lo * hi > 0 && x * hi % (lo * hi) == x % lo * hi
  {
    var q, r := x / lo, x % lo;
    assert x == lo * q + r;
    assert x * hi == (lo * hi) * q + r * hi by { assert (lo * q) * hi == (lo * hi) * q; }
    MulMonotone(r + 1, lo, hi);
    assert (r + 1) * hi == r * hi + hi;
    QuotientRemainder(x * hi, lo * hi, q, r * hi);
  }

  /** Both halves of a rotation, as `>>>` and `<<` leave them. */
  lemma RotrHalves(x: int, n: nat, lo: nat, hi: nat)
    requires 0 < n < 32 && lo == Pow2(n) && hi == Pow2(32 - n) && lo * hi == WORDS
    ensures ToUint32(UnsignedShiftRight(x, n)) == ToUint32(x) / lo
    ensures ToUint32(ShiftLeft(x, 32 - n)) == ToUint32(x) % lo * hi
  {
    ShiftBound(ToUint32(x), n);
    ModOfMultiple(ToUint32(x), lo, hi);
    SignIsInvisible(ToUint32(x) * hi);
  }

  /** The worker's shift-and-or on possibly negative numbers is rotation of the word. */
  lemma RotrIsRotation(x: int, n: nat)
    requires 0 < n < 32
    ensures ToUint32(Rotr(x, n)) == RotateRight(ToUint32(x), n)
  {
    hide Pow2, ToUint32, BitOr, UnsignedShiftRight, ShiftLeft, Or;
    var w, lo, hi := ToUint32(x), Pow2(n), Pow2(32 - n);
    assert lo * hi == WORDS by { Pow2Of32(); Pow2Add(n, 32 - n); }
    RotrHalves(x, n, lo, hi);
    BitwiseIsWordwise(UnsignedShiftRight(x, n), ShiftLeft(x, 32 - n));
    RotateParts(w, lo, hi);
    OrOfDisjoint(w / lo, w % lo, 32 - n);
  }
}
