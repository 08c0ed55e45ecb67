/** The seeded generator of bench/11-crowdsec-lookup.bench.ts: a 32-bit linear congruential generator
    computed in JavaScript doubles. */
module Lcg {
  import opened Words

  const A := 1_664_525
  const C := 1_013_904_223

  /** `(state * A + C) >>> 0`. */
  function Step(state: Word): Word {
    (state * A + C) % WORDS
  }

  /** The generator after n steps. */
  function After(seed: Word, n: nat): Word {
    if n == 0 then seed else Step(After(seed, n - 1))
  }

  /** The double holding the unreduced step is exact: it stays below 2^53. */
  lemma StepIsExact(state: Word)
    ensures 0 <= state * A + C < 0x20_0000_0000_0000
  {
  }

  class Random {
    var state: Word

    constructor (seed: int)
      ensures state == seed % WORDS
    {
      state := seed % WORDS;
    }

    method Next() returns (r: real)
      modifies this
      ensures state == Step(old(state)) == (old(state) * 1_664_525 + 1_013_904_223) % 0x1_0000_0000
      ensures r == state as real / 4294967296.0 && 0.0 <= r < 1.0
    {
      state := (state * A + C) % WORDS;
      r := state as real / 4294967296.0;
    }
  }

  // ---------------------------------------------------------------------------------------------
  // The step is a permutation of the 32-bit states

  const INVERSE_A := 4_276_115_653

  function Unstep(state: Word): Word {
    (state - C) * INVERSE_A % WORDS
  }

  lemma {:induction false} ModPlusMultiple(x: int, t: int, m: int)
    requires m > 0
    ensures (x + m * t) % m == x % m
    decreases if t < 0 then -t else t
  {
    if t > 0 {
      ModPlusMultiple(x, t - 1, m);
      assert x + m * t == x + m * (t - 1) + m;
      ModPlusOne(x + m * (t - 1), m);
    } else if t < 0 {
      ModPlusMultiple(x, t + 1, m);
      assert x + m * (t + 1) == x + m * t + m;
      ModPlusOne(x + m * t, m);
    }
  }

  lemma ModPlusOne(x: int, m: int)
    requires m > 0
    ensures (x + m) % m == x % m
  {
    assert x == m * (x / m) + x % m;
    assert x + m == m * (x / m + 1) + x % m;
    QuotientRemainder(x + m, m, x / m + 1, x % m);
  }

  const CARRY := 1_657_219

  /** A * INVERSE_A is one more than CARRY * 2^32, so the step can be undone. */
  lemma UnstepUndoesStep(state: Word)
    ensures Unstep(Step(state)) == state
  {
    var y := state * A + C;
    calc {
      Unstep(Step(state));
      (y % WORDS - C) * INVERSE_A % WORDS;
      { assert y % WORDS - C == state * A - WORDS * (y / WORDS); }
      (state * A * INVERSE_A + WORDS * (-(y / WORDS) * INVERSE_A)) % WORDS;
      { ModPlusMultiple(state * A * INVERSE_A, -(y / WORDS) * INVERSE_A, WORDS); }
      state * A * INVERSE_A % WORDS;
      { assert A * INVERSE_A == 1 + WORDS * CARRY; }
      (state + WORDS * (CARRY * state)) % WORDS;
      { ModPlusMultiple(state, CARRY * state, WORDS); }
      state;
    }
  }

  lemma StepUndoesUnstep(state: Word)
    ensures Step(Unstep(state)) == state
  {
    var x := (state - C) * INVERSE_A;
    calc {
      Step(Unstep(state));
      (x % WORDS * A + C) % WORDS;
      { assert x % WORDS == x - WORDS * (x / WORDS); }
      (x * A + C + WORDS * (-(x / WORDS) * A)) % WORDS;
      { ModPlusMultiple(x * A + C, -(x / WORDS) * A, WORDS); }
      (x * A + C) % WORDS;
      { assert A * INVERSE_A == 1 + WORDS * CARRY; }
      (state + WORDS * (CARRY * (state - C))) % WORDS;
      { ModPlusMultiple(state, CARRY * (state - C), WORDS); }
      state;
    }
  }

  // ---------------------------------------------------------------------------------------------
  // Full period

  /** n steps without reduction are the map x -> Factor(n) * x + Offset(n). */
  function Factor(n: nat): int {
    if n == 0 then 1 else A * Factor(n - 1)
  }

  function Offset(n: nat): int {
    if n == 0 then 0 else A * Offset(n - 1) + C
  }

  function Unreduced(x: int, n: nat): int {
    Factor(n) * x + Offset(n)
  }

  lemma {:induction false} AfterIsUnreduced(seed: Word, n: nat)
    ensures After(seed, n) == Unreduced(seed, n) % WORDS
  {
    if n > 0 {
      hide Unreduced;
      AfterIsUnreduced(seed, n - 1);
      UnreducedStep(seed, n);
      StepOfResidue(Unreduced(seed, n - 1));
    }
  }

  lemma UnreducedStep(x: int, n: nat)
    requires n > 0
    ensures Unreduced(x, n) == Unreduced(x, n - 1) * A + C
  {
    assert A * Factor(n - 1) * x == A * (Factor(n - 1) * x);
  }

  /** A step may be taken before or after reducing. */
  lemma StepOfResidue(y: int)
    ensures (y % WORDS * A + C) % WORDS == (y * A + C) % WORDS
  {
    var q := y / WORDS;
    assert y % WORDS == y - WORDS * q;
    assert y % WORDS * A + C == y * A + C + WORDS * (-q * A);
    ModPlusMultiple(y * A + C, -q * A, WORDS);
  }

  /** Running n + m steps is running n and then m. */
  lemma {:induction false} Compose(n: nat, m: nat)
    ensures Factor(n + m) == Factor(m) * Factor(n)
    ensures Offset(n + m) == Factor(m) * Offset(n) + Offset(m)
  {
    if m > 0 {
      Compose(n, m - 1);
      Regroup(Factor(m - 1), Offset(m - 1), Factor(n), Offset(n));
    }
  }

  lemma Regroup(f: int, o: int, fn: int, on: int)
    ensures A * (f * fn) == A * f * fn
    ensures A * (f * on + o) + C == A * f * on + (A * o + C)
  {
  }

  /** After 2^k steps: the factor is 1 modulo 2^(k+2) and the offset an odd multiple of 2^k. */
  lemma {:induction false} PowerForm(k: nat) returns (u: int, v: int)
    ensures Factor(Pow2(k)) == 1 + 4 * Pow2(k) * u
    ensures Offset(Pow2(k)) == Pow2(k) * (2 * v + 1)
  {
    if k == 0 {
      assert Factor(1) == A * Factor(0) && Offset(1) == A * Offset(0) + C;
      u, v := 416_131, 506_952_111;
    } else {
      var q := Pow2(k - 1);
      var u0, v0 := PowerForm(k - 1);
      Compose(q, q);
      u := u0 + 2 * (q * (u0 * u0));
      v := v0 + q * u0 + 2 * (v0 * (q * u0));
      Square(q, u0, v0);
    }
  }

  lemma Square(q: int, u: int, v: int)
    ensures (1 + 4 * q * u) * (1 + 4 * q * u) == 1 + 4 * (2 * q) * (u + 2 * (q * (u * u)))
    ensures (1 + 4 * q * u) * (q * (2 * v + 1)) + q * (2 * v + 1)
         == 2 * q * (2 * (v + q * u + 2 * (v * (q * u))) + 1)
  {
    var p := q * u;
    assert 4 * q * u == 4 * p;
    assert q * (u * u) == p * u;
    assert (4 * p) * (4 * p) == 16 * (p * p);
    assert 4 * (2 * q) * (2 * (p * u)) == 16 * (q * (p * u));
    assert q * (p * u) == p * p;
    assert 4 * (2 * q) * u == 8 * p;
    var w := q * (2 * v + 1);
    assert (4 * p) * w == 4 * (q * (p * (2 * v + 1)));
    assert p * (2 * v + 1) == 2 * (v * p) + p;
    assert w == 2 * (q * v) + q;
  }

  lemma ComposeUnreduced(x: int, n: nat, m: nat)
    ensures Unreduced(x, n + m) == Factor(m) * Unreduced(x, n) + Offset(m)
  {
    hide Factor, Offset;
    Compose(n, m);
    var f, fn, on := Factor(m), Factor(n), Offset(n);
    assert f * fn * x == f * (fn * x);
    assert f * (fn * x + on) == f * (fn * x) + f * on;
  }

  /** Strides of 2^k steps move the state by 2^k each, modulo 2^(k+1). */
  lemma {:induction false} Strides(k: nat, x: int, m: nat) returns (t: int)
    ensures Unreduced(x, Pow2(k) * m) == x + Pow2(k) * m + 2 * Pow2(k) * t
    decreases m
  {
    if m == 0 {
      assert Pow2(k) * m == 0;
      t := 0;
    } else {
      var t0 := Strides(k, x, m - 1);
      var u, v := PowerForm(k);
      t := OneStride(Pow2(k), x, m, t0, u, v);
    }
  }

  lemma OneStride(q: nat, x: int, m: nat, t0: int, u: int, v: int) returns (t: int)
    requires m > 0 && Unreduced(x, q * (m - 1)) == x + q * (m - 1) + 2 * q * t0
    requires Factor(q) == 1 + 4 * q * u && Offset(q) == q * (2 * v + 1)
    ensures Unreduced(x, q * m) == x + q * m + 2 * q * t
  {
    hide Factor, Offset, Unreduced;
    var n := q * (m - 1);
    assert q * m == n + q;
    var y := Unreduced(x, n);
    ComposeUnreduced(x, n, q);
    Stride(q, u, v, y);
    t := t0 + (2 * (u * y) + v);
    assert 2 * q * t == 2 * q * t0 + 2 * q * (2 * (u * y) + v);
  }

  lemma Stride(q: int, u: int, v: int, y: int)
    ensures (1 + 4 * q * u) * y + q * (2 * v + 1) == y + q + 2 * q * (2 * (u * y) + v)
  {
    assert 4 * q * u * y == 2 * q * (2 * (u * y));
    assert q * (2 * v + 1) == 2 * q * v + q;
  }

  lemma HalvedModulus(z: int, q: int)
    requires q > 0
    ensures 2 * q > 0 && (z % (2 * q) == 0 ==> z % q == 0)
  {
    if z % (2 * q) == 0 {
      var d := z / (2 * q);
      assert z == 2 * q * d;
      assert z == 0 + q * (2 * d);
      ModPlusMultiple(0, 2 * d, q);
    }
  }

  lemma EvenMultiple(q: int, m: nat)
    requires q > 0
    ensures 2 * q > 0 && (q * m % (2 * q) == 0 <==> m % 2 == 0)
  {
    var h := m / 2;
    if m % 2 == 0 {
      assert q * m == 0 + 2 * q * h;
      ModPlusMultiple(0, h, 2 * q);
    } else {
      assert m == 2 * h + 1;
      assert q * m == q + 2 * q * h;
      ModPlusMultiple(q, h, 2 * q);
      QuotientRemainder(q, 2 * q, 0, q);
    }
  }

  /** Modulo 2^k the state recurs after n steps exactly when 2^k divides n. */
  lemma {:induction false} RecursIff(k: nat, x: int, n: nat)
    ensures (Unreduced(x, n) - x) % Pow2(k) == 0 <==> n % Pow2(k) == 0
  {
    if k > 0 {
      hide Unreduced;
      var q := Pow2(k - 1);
      RecursIff(k - 1, x, n);
      HalvedModulus(Unreduced(x, n) - x, q);
      HalvedModulus(n, q);
      if n % q == 0 {
        var m := n / q;
        assert n == q * m;
        var t := Strides(k - 1, x, m);
        ModPlusMultiple(q * m, t, 2 * q);
        EvenMultiple(q, m);
      }
    }
  }

  lemma SameResidue(z: int, seed: Word)
    ensures z % WORDS == seed <==> (z - seed) % WORDS == 0
  {
    var q := z / WORDS;
    assert z - seed == (z % WORDS - seed) + WORDS * q;
    ModPlusMultiple(z % WORDS - seed, q, WORDS);
  }

  /** Full period: from every seed, the generator is back at the seed after n steps iff 2^32 divides n. */
  lemma FullPeriod(seed: Word, n: nat)
    ensures After(seed, n) == seed <==> n % WORDS == 0
  {
    hide Unreduced, Pow2, After;
    AfterIsUnreduced(seed, n);
    RecursIff(32, seed, n);
    Pow2Of32();
    SameResidue(Unreduced(seed, n), seed);
  }
}
