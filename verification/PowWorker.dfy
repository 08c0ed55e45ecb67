/** The nonce search of the proof-of-work worker (public/pow-worker.js): difficulty test, 3000-step
    slices, and the split of all nonces between workers (public/challenges/pow-sha256.js). */
module PowWorker {
  import opened Words
  import Fips = Fips180
  import PowSha256

  // ---------------------------------------------------------------------------------------------
  // Leading zero bits

  /** Leading zeros of x in a field of the given width; `Math.clz32` is the width 32. */
  function LeadingZerosIn(x: nat, width: nat): (z: int)
    ensures x == 0 ==> z == width
  {
    if x == 0 || width == 0 then width else LeadingZerosIn(x / 2, width - 1)
  }

  /** The digest read as a big-endian number. */
  function BigEndian(bytes: seq<Byte>): nat {
    if bytes == [] then 0 else bytes[0] * Pow2(8 * (|bytes| - 1)) + BigEndian(bytes[1..])
  }

  function ZeroBits(bytes: seq<Byte>): nat {
    if bytes == [] then 0
    else if bytes[0] == 0 then 8 + ZeroBits(bytes[1..])
    else ByteZeros(bytes[0]); LeadingZerosIn(bytes[0], 32) - 24
  }

  lemma {:induction false} FieldZeros(x: nat, width: nat, d: nat)
    requires x < Pow2(width) && d <= width
    ensures LeadingZerosIn(x, width) >= d <==> x < Pow2(width - d)
  {
    if x != 0 && width > 0 {
      if d < width {
        FieldZeros(x / 2, width - 1, d);
      } else {
        FieldZeros(x / 2, width - 1, d - 1);
      }
    }
  }

  /** The zeros of a nonzero byte: between 0 and 7 of them. */
  lemma ByteZeros(b: Byte)
    requires b != 0
    ensures 24 <= LeadingZerosIn(b, 32) < 32
  {
    assert Pow2(8) == 256;
    Pow2Of32();
    FieldZeros(b, 32, 24);
    FieldZeros(b, 32, 32);
  }

  lemma {:induction false} BigEndianBound(bytes: seq<Byte>)
    ensures BigEndian(bytes) < Pow2(8 * |bytes|)
  {
    if bytes != [] {
      BigEndianBound(bytes[1..]);
      DigitBound(bytes[0], Pow2(8 * (|bytes| - 1)), BigEndian(bytes[1..]));
      assert Pow2(8 * |bytes|) == 256 * Pow2(8 * (|bytes| - 1)) by {
        Pow2Add(8, 8 * (|bytes| - 1));
        assert Pow2(8) == 256;
      }
    }
  }

  lemma DigitBound(b: Byte, p: nat, low: nat)
    requires low < p
    ensures b * p + low < 256 * p
  {
    var digit: int := b;
    MulMonotone(digit + 1, 256, p);
    assert (digit + 1) * p == digit * p + p;
  }

  /** The difficulty condition of a digest as a bound on its value: its first d bits are zero. */
  predicate BelowTarget(bytes: seq<Byte>, d: nat)
    requires d <= 8 * |bytes|
  {
    BigEndian(bytes) < Pow2(8 * |bytes| - d)
  }

  /** A byte string has at least d leading zero bits exactly when its value is below 2^(8n - d). */
  lemma {:induction false} ZeroBitsIff(bytes: seq<Byte>, d: nat)
    requires d <= 8 * |bytes|
    ensures ZeroBits(bytes) >= d <==> BelowTarget(bytes, d)
  {
    if bytes != [] {
      var b, rest := bytes[0], bytes[1..];
      BigEndianBound(rest);
      if b == 0 {
        if d <= 8 {
          Pow2Monotone(8 * |rest|, 8 * |bytes| - d);
        } else {
          ZeroBitsIff(rest, d - 8);
        }
      } else {
        FirstByteZeros(b, 8 * |rest|, BigEndian(rest), d);
      }
    } else {
      assert Pow2(0) == 1;
    }
  }

  lemma {:induction false} Pow2Monotone(a: nat, b: nat)
    requires a <= b
    ensures Pow2(a) <= Pow2(b)
  {
    if a < b {
      Pow2Monotone(a, b - 1);
    }
  }

  /** Below a nonzero first byte the remaining n bits do not matter. */
  lemma FirstByteZeros(b: Byte, n: nat, low: nat, d: nat)
    requires b != 0 && low < Pow2(n) && d <= n + 8
    ensures LeadingZerosIn(b, 32) - 24 >= d <==> b * Pow2(n) + low < Pow2(n + 8 - d)
  {
    assert Pow2(8) == 256;
    ByteZeros(b);
    if d <= 8 {
      Pow2Add(8 - d, n);
      FieldZeros(b, 32, 24 + d) by { Pow2Of32(); }
      if b < Pow2(8 - d) {
        MulMonotone(b + 1, Pow2(8 - d), Pow2(n));
        assert (b + 1) * Pow2(n) == b * Pow2(n) + Pow2(n);
      } else {
        MulMonotone(Pow2(8 - d), b, Pow2(n));
      }
    } else {
      Pow2Monotone(n + 8 - d, n);
      MulMonotone(1, b, Pow2(n));
    }
  }

  /** `leadingZeroBits`. */
  method LeadingZeroBits(bytes: seq<Byte>) returns (total: nat)
    ensures total == ZeroBits(bytes)
    ensures forall d: nat :: d <= 8 * |bytes| ==> (total >= d <==> BelowTarget(bytes, d))
  {
    total := 0;
    var i := 0;
    while i < |bytes|
      invariant 0 <= i <= |bytes|
      invariant total + ZeroBits(bytes[i..]) == ZeroBits(bytes)
      decreases |bytes| - i
    {
      if bytes[i] == 0 {
        total := total + 8;
        i := i + 1;
        continue;
      }
      ByteZeros(bytes[i]);
      total := total + (LeadingZerosIn(bytes[i], 32) - 24);
      break;
    }
    forall d: nat | d <= 8 * |bytes| ensures total >= d <==> BelowTarget(bytes, d) {
      ZeroBitsIff(bytes, d);
    }
  }

  // ---------------------------------------------------------------------------------------------
  // The search

  const SLICE := 3000

  function Decimal(n: nat): (digits: seq<Byte>) {
    if n < 10 then [48 + n] else Decimal(n / 10) + [48 + n % 10]
  }

  /** The encoded text `seed:nonce`. */
  function Message(seed: seq<Byte>, nonce: nat): seq<Byte> {
    seed + [58] + Decimal(nonce)
  }

  /** The number a text of decimal digits stands for. */
  function DecimalValue(digits: seq<Byte>): int {
    if digits == [] then 0 else 10 * DecimalValue(digits[..|digits| - 1]) + digits[|digits| - 1] - 48
  }

  /** The digits of a number read back as the number, without a leading zero. */
  lemma {:induction false} DecimalReads(n: nat)
    ensures DecimalValue(Decimal(n)) == n && Decimal(n) != []
    ensures forall i :: 0 <= i < |Decimal(n)| ==> 48 <= Decimal(n)[i] < 58
    ensures n > 0 ==> Decimal(n)[0] != 48
  {
    if n >= 10 {
      DecimalReads(n / 10);
      assert Decimal(n)[..|Decimal(n)| - 1] == Decimal(n / 10);
    } else {
      assert Decimal(n)[..0] == [];
    }
  }

  /** A message can be read back: the seed, a colon, and after that last colon the digits of the nonce. */
  lemma MessageReads(seed: seq<Byte>, nonce: nat)
    ensures var text := Message(seed, nonce);
      && |text| > |seed| && text[..|seed|] == seed && text[|seed|] == 58
      && (forall i :: |seed| < i < |text| ==> 48 <= text[i] < 58)
      && DecimalValue(text[|seed| + 1..]) == nonce
  {
    hide Decimal, DecimalValue;
    DecimalReads(nonce);
    assert Message(seed, nonce)[|seed| + 1..] == Decimal(nonce);
  }

  /** The digest bytes as the hash value's words write them: the first word counts most. */
  lemma WordValue(x: Word)
    ensures BigEndian(BigEndian32(x)) == x
  {
    var s := BigEndian32(x);
    var b3: int, b2: int, b1: int, b0: int := s[0], s[1], s[2], s[3];
    assert Pow2(8) == 256;
    Pow2Add(8, 8);
    Pow2Add(16, 8);
    assert s[1..][1..] == s[2..] && s[2..][1..] == s[3..] && s[3..][1..] == [];
    assert BigEndian(s[3..]) == b0 by { assert Pow2(0) == 1; }
    assert BigEndian(s[2..]) == b1 * 256 + b0;
    assert BigEndian(s[1..]) == b2 * 0x1_0000 + b1 * 256 + b0;
    assert BigEndian(s) == b3 * 0x100_0000 + b2 * 0x1_0000 + b1 * 256 + b0;
    ByteSteps(x);
  }

  lemma ByteSteps(x: nat)
    ensures x / 256 / 256 / 256 * 0x100_0000 + x / 256 / 256 % 256 * 0x1_0000 + x / 256 % 256 * 256 + x % 256 == x
  {
  }

  /** The message is within the length the worker's 32-bit padding arithmetic handles. */
  predicate Hashable(seed: seq<Byte>, nonce: nat) {
    |Message(seed, nonce)| + 72 < 0x8000_0000
  }

  function Digest(seed: seq<Byte>, nonce: nat): seq<Byte>
    requires Hashable(seed, nonce)
  {
    Fips.Sha256(Message(seed, nonce))
  }

  /** The worker accepts the nonce. */
  predicate Solves(seed: seq<Byte>, difficulty: nat, nonce: nat) {
    Hashable(seed, nonce) && ZeroBits(Digest(seed, nonce)) >= difficulty
  }

  /** What acceptance means: the SHA-256 digest, read as a number, is below 2^(256 - difficulty). */
  lemma SolvesIff(seed: seq<Byte>, difficulty: nat, nonce: nat)
    requires difficulty <= 256 && Hashable(seed, nonce)
    ensures Solves(seed, difficulty, nonce) <==> BigEndian(Digest(seed, nonce)) < Pow2(256 - difficulty)
  {
    hide ZeroBits, BigEndian, Message, Pow2, Fips.Pad, Fips.HashBlocks, Fips.Output;
    ZeroBitsIff(Digest(seed, nonce), difficulty);
  }

  function NthNonce(start: nat, step: nat, k: nat): nat {
    start + k * step
  }

  datatype Report = Solved(nonce: nat, iterations: nat) | Progress(iterations: nat)

  class Worker {
    const seed: seq<Byte>
    const difficulty: nat
    const start: nat
    const step: nat
    var nonce: nat
    var iterations: nat

    constructor (seed: seq<Byte>, difficulty: nat, start: nat, step: nat)
      ensures Searching() && iterations == 0
      ensures this.seed == seed && this.difficulty == difficulty && this.start == start && this.step == step
    {
      this.seed, this.difficulty, this.start, this.step := seed, difficulty, start, step;
      nonce, iterations := start, 0;
    }

    /** The k-th nonce of this worker's class. */
    function Candidate(k: nat): nat {
      NthNonce(start, step, k)
    }

    predicate Accepts(k: nat) {
      Solves(seed, difficulty, Candidate(k))
    }

    /** The worker is about to try its next candidate, and every earlier one failed. */
    ghost predicate Searching()
      reads this
    {
      nonce == Candidate(iterations) && forall k: nat :: k < iterations ==> !Accepts(k)
    }

    /** One call of `loop`: up to SLICE candidates, then a progress report and a new timer. */
    method RunSlice() returns (report: Report)
      requires Searching()
      requires forall k: nat :: k < iterations + SLICE ==> Hashable(seed, Candidate(k))
      modifies this
      ensures report.Solved? ==>
                && old(iterations) < report.iterations == iterations <= old(iterations) + 3000
                && report.nonce == nonce == Candidate(iterations - 1)
                && Accepts(iterations - 1) && forall k: nat :: k < iterations - 1 ==> !Accepts(k)
      ensures report.Progress? ==> Searching() && report.iterations == iterations == old(iterations) + 3000
    {
      hide Solves, Message, Hashable, Candidate, Accepts, Digest, ZeroBits;
      for i := 0 to SLICE
        invariant Searching() && iterations == old(iterations) + i
      {
        var tried := iterations;
        assert Hashable(seed, Candidate(tried));
        var zeros := HashZeroBits(seed, nonce);
        iterations := iterations + 1;
        AcceptsIff(tried, zeros);
        if zeros >= difficulty {
          return Solved(nonce, iterations);
        }
        NextCandidate(tried);
        nonce := nonce + step;
      }
      report := Progress(iterations);
    }

    lemma NextCandidate(k: nat)
      ensures Candidate(k + 1) == Candidate(k) + step
    {
    }

    lemma AcceptsIff(k: nat, zeros: nat)
      requires Hashable(seed, Candidate(k)) && zeros == ZeroBits(Digest(seed, Candidate(k)))
      ensures Accepts(k) <==> zeros >= difficulty
    {
    }

    /** The whole life of a worker over any number of timer turns: it finds the least accepted index, and
        reports it with the number of hashes it took, or it has rejected every candidate so far. */
    method Run(slices: nat) returns (report: Report)
      requires Searching() && iterations == 0
      requires forall k: nat :: k < slices * SLICE ==> Hashable(seed, Candidate(k))
      modifies this
      ensures report.Solved? ==>
                && report.iterations > 0 && report.nonce == Candidate(report.iterations - 1)
                && Accepts(report.iterations - 1) && forall k: nat :: k < report.iterations - 1 ==> !Accepts(k)
      ensures report.Progress? ==>
                report.iterations == slices * SLICE && forall k: nat :: k < slices * SLICE ==> !Accepts(k)
    {
      report := Progress(0);
      for turn := 0 to slices
        invariant Searching() && report == Progress(iterations) && iterations == turn * SLICE
      {
        report := RunSlice();
        if report.Solved? {
          return;
        }
      }
    }
  }

  method HashZeroBits(seed: seq<Byte>, nonce: nat) returns (zeros: nat)
    requires Hashable(seed, nonce)
    ensures zeros == ZeroBits(Digest(seed, nonce))
  {
    var hash := PowSha256.Sha256(Message(seed, nonce));
    zeros := LeadingZeroBits(hash);
  }

  /** Workers 0..n-1 with step n try every nonce exactly once between them. */
  lemma WorkersPartitionNonces(n: nat, nonce: nat)
    requires n > 0
    ensures NthNonce(nonce % n, n, nonce / n) == nonce
    ensures forall i: nat, k: nat :: i < n && NthNonce(i, n, k) == nonce ==> i == nonce % n && k == nonce / n
  {
    forall i: nat, k: nat | i < n && NthNonce(i, n, k) == nonce ensures i == nonce % n && k == nonce / n {
      assert k * n == n * k;
      QuotientRemainder(nonce, n, k, i);
    }
  }
}
