/** SHA-256 as FIPS 180-4 defines it (sections 3.2, 4.1.2, 4.2.2, 5.1.1, 5.3.3 and 6.2.2). */
module Fips180 {
  import opened Words
  import opened Bits

  function Ch(x: Word, y: Word, z: Word): Word {
    Xor32(And32(x, y), And32(Not32(x), z))
  }

  function Maj(x: Word, y: Word, z: Word): Word {
    Xor32(Xor32(And32(x, y), And32(x, z)), And32(y, z))
  }

  function BigSigma0(x: Word): Word {
    Xor32(Xor32(RotateRight(x, 2), RotateRight(x, 13)), RotateRight(x, 22))
  }

  function BigSigma1(x: Word): Word {
    Xor32(Xor32(RotateRight(x, 6), RotateRight(x, 11)), RotateRight(x, 25))
  }

  function SmallSigma0(x: Word): Word {
    Xor32(Xor32(RotateRight(x, 7), RotateRight(x, 18)), ShiftRight(x, 3))
  }

  function SmallSigma1(x: Word): Word {
    Xor32(Xor32(RotateRight(x, 17), RotateRight(x, 19)), ShiftRight(x, 10))
  }

  // the round constants of section 4.2.2, in rows of eight
  const K0: seq<Word> := [
    0x428a2f98, 0x71374491, 0xb5c0fbcf, 0xe9b5dba5, 0x3956c25b, 0x59f111f1, 0x923f82a4, 0xab1c5ed5]
  const K1: seq<Word> := [
    0xd807aa98, 0x12835b01, 0x243185be, 0x550c7dc3, 0x72be5d74, 0x80deb1fe, 0x9bdc06a7, 0xc19bf174]
  const K2: seq<Word> := [
    0xe49b69c1, 0xefbe4786, 0x0fc19dc6, 0x240ca1cc, 0x2de92c6f, 0x4a7484aa, 0x5cb0a9dc, 0x76f988da]
  const K3: seq<Word> := [
    0x983e5152, 0xa831c66d, 0xb00327c8, 0xbf597fc7, 0xc6e00bf3, 0xd5a79147, 0x06ca6351, 0x14292967]
  const K4: seq<Word> := [
    0x27b70a85, 0x2e1b2138, 0x4d2c6dfc, 0x53380d13, 0x650a7354, 0x766a0abb, 0x81c2c92e, 0x92722c85]
  const K5: seq<Word> := [
    0xa2bfe8a1, 0xa81a664b, 0xc24b8b70, 0xc76c51a3, 0xd192e819, 0xd6990624, 0xf40e3585, 0x106aa070]
  const K6: seq<Word> := [
    0x19a4c116, 0x1e376c08, 0x2748774c, 0x34b0bcb5, 0x391c0cb3, 0x4ed8aa4a, 0x5b9cca4f, 0x682e6ff3]
  const K7: seq<Word> := [
    0x748f82ee, 0x78a5636f, 0x84c87814, 0x8cc70208, 0x90befffa, 0xa4506ceb, 0xbef9a3f7, 0xc67178f2]

  /** The first 32 bits of the fractional parts of the cube roots of the first 64 primes. */
  function K(t: nat): Word
    requires t < 64
  {
    var row := if t < 8 then K0 else if t < 16 then K1 else if t < 24 then K2 else if t < 32 then K3
               else if t < 40 then K4 else if t < 48 then K5 else if t < 56 then K6 else K7;
    row[t % 8]
  }

  datatype State = State(a: Word, b: Word, c: Word, d: Word, e: Word, f: Word, g: Word, h: Word)

  /** The first 32 bits of the fractional parts of the square roots of the first 8 primes. */
  const InitialHash := State(
    0x6a09e667, 0xbb67ae85, 0x3c6ef372, 0xa54ff53a, 0x510e527f, 0x9b05688c, 0x1f83d9ab, 0x5be0cd19)

  // ---------------------------------------------------------------------------------------------
  // Padding (section 5.1.1), on whole bytes

  predicate FillsBlocks(length: nat, zeros: nat) {
    (length + 1 + zeros + 8) % 64 == 0
  }

  /** The least number of zero bytes between the 0x80 byte and the length field. */
  function ZeroBytes(length: nat): (z: nat)
    ensures FillsBlocks(length, z)
    ensures forall y: nat :: FillsBlocks(length, y) ==> z <= y
  {
    (55 - length) % 64
  }

  function Pad(message: seq<Byte>): (p: seq<Byte>)
    requires 8 * |message| < WORDS * WORDS
    ensures |p| % 64 == 0
  {
    var bits := 8 * |message|;
    message + [0x80] + seq(ZeroBytes(|message|), _ => 0) + BigEndian32(bits / WORDS) + BigEndian32(bits % WORDS)
  }

  // ---------------------------------------------------------------------------------------------
  // Hash computation (section 6.2.2)

  /** Word t of the message schedule of a 64-byte block. */
  function Schedule(block: seq<Byte>, t: nat): Word
    requires |block| == 64
  {
    if t < 16 then FromBigEndian32(block[4 * t..4 * t + 4])
    else Add32(Add32(Add32(SmallSigma1(Schedule(block, t - 2)), Schedule(block, t - 7)),
                     SmallSigma0(Schedule(block, t - 15))),
               Schedule(block, t - 16))
  }

  function Round(s: State, k: Word, w: Word): State {
    var t1 := Add32(Add32(Add32(Add32(s.h, BigSigma1(s.e)), Ch(s.e, s.f, s.g)), k), w);
    var t2 := Add32(BigSigma0(s.a), Maj(s.a, s.b, s.c));
    State(Add32(t1, t2), s.a, s.b, s.c, Add32(s.d, t1), s.e, s.f, s.g)
  }

  function Rounds(s: State, block: seq<Byte>, t: nat): State
    requires |block| == 64 && t <= 64
  {
    if t == 0 then s else Round(Rounds(s, block, t - 1), K(t - 1), Schedule(block, t - 1))
  }

  function Compress(s: State, block: seq<Byte>): State
    requires |block| == 64
  {
    var r := Rounds(s, block, 64);
    State(Add32(s.a, r.a), Add32(s.b, r.b), Add32(s.c, r.c), Add32(s.d, r.d),
          Add32(s.e, r.e), Add32(s.f, r.f), Add32(s.g, r.g), Add32(s.h, r.h))
  }

  /** The hash value after all blocks of a padded message. */
  function HashBlocks(padded: seq<Byte>): State
    requires |padded| % 64 == 0
  {
    if padded == [] then InitialHash
    else Compress(HashBlocks(padded[..|padded| - 64]), padded[|padded| - 64..])
  }

  function Output(s: State): seq<Byte> {
    BigEndian32(s.a) + BigEndian32(s.b) + BigEndian32(s.c) + BigEndian32(s.d)
    + BigEndian32(s.e) + BigEndian32(s.f) + BigEndian32(s.g) + BigEndian32(s.h)
  }

  function Sha256(message: seq<Byte>): (digest: seq<Byte>)
    requires 8 * |message| < WORDS * WORDS
    ensures |digest| == 32
  {
    Output(HashBlocks(Pad(message)))
  }

  // ---------------------------------------------------------------------------------------------
  // What the functions mean, bit by bit (section 4.1.2)

  lemma Xor3Bit(x: Word, y: Word, z: Word, k: nat)
    ensures Bit(Xor32(Xor32(x, y), z), k) == (Bit(x, k) + Bit(y, k) + Bit(z, k)) % 2
  {
    hide Bit;
    XorBit(x, y, k);
    XorBit(Xor32(x, y), z, k);
  }

  /** Bit by bit, Ch chooses between y and z by x, and Maj takes the majority. */
  lemma ChooseAndMajority(x: Word, y: Word, z: Word, k: nat)
    requires k < 32
    ensures Bit(Ch(x, y, z), k) == if Bit(x, k) == 1 then Bit(y, k) else Bit(z, k)
    ensures Bit(Maj(x, y, z), k) == if Bit(x, k) + Bit(y, k) + Bit(z, k) >= 2 then 1 else 0
  {
    hide Bit;
    BitIsBit(x, k);
    BitIsBit(y, k);
    BitIsBit(z, k);
    NotBit(x, k);
    AndBit(x, y, k);
    AndBit(Not32(x), z, k);
    XorBit(And32(x, y), And32(Not32(x), z), k);
    AndBit(x, z, k);
    AndBit(y, z, k);
    Xor3Bit(And32(x, y), And32(x, z), And32(y, z), k);
  }

  /** Bit k of each sigma is the sum, modulo 2, of the bits that its rotations and shifts bring to place k. */
  lemma SigmaBits(x: Word, k: nat)
    requires k < 32
    ensures Bit(BigSigma0(x), k) == (Bit(x, (k + 2) % 32) + Bit(x, (k + 13) % 32) + Bit(x, (k + 22) % 32)) % 2
    ensures Bit(BigSigma1(x), k) == (Bit(x, (k + 6) % 32) + Bit(x, (k + 11) % 32) + Bit(x, (k + 25) % 32)) % 2
    ensures Bit(SmallSigma0(x), k) == (Bit(x, (k + 7) % 32) + Bit(x, (k + 18) % 32) + Bit(x, k + 3)) % 2
    ensures Bit(SmallSigma1(x), k) == (Bit(x, (k + 17) % 32) + Bit(x, (k + 19) % 32) + Bit(x, k + 10)) % 2
  {
    hide Bit, Xor32, RotateRight, ShiftRight;
    RotatedBits(x, k);
    Xor3Bit(RotateRight(x, 2), RotateRight(x, 13), RotateRight(x, 22), k);
    Xor3Bit(RotateRight(x, 6), RotateRight(x, 11), RotateRight(x, 25), k);
    Xor3Bit(RotateRight(x, 7), RotateRight(x, 18), ShiftRight(x, 3), k);
    Xor3Bit(RotateRight(x, 17), RotateRight(x, 19), ShiftRight(x, 10), k);
    ShiftBit(x, 3, k);
    ShiftBit(x, 10, k);
  }

  lemma RotatedBits(x: Word, k: nat)
    requires k < 32
    ensures forall n: nat :: 0 < n < 32 ==> Bit(RotateRight(x, n), k) == Bit(x, (k + n) % 32)
  {
    forall n: nat | 0 < n < 32 ensures Bit(RotateRight(x, n), k) == Bit(x, (k + n) % 32) {
      RotateBit(x, n, k);
    }
  }

  // ---------------------------------------------------------------------------------------------
  // What padding means (section 5.1.1)

  /** The padded message can be read back: the message, a byte with only its top bit set, zeros, and the length in
      bits as a 64-bit big-endian number. */
  lemma PaddingReads(message: seq<Byte>)
    requires 8 * |message| < WORDS * WORDS
    ensures var p, n := Pad(message), |Pad(message)|;
      && n >= |message| + 9 && p[..|message|] == message && p[|message|] == 0x80
      && (forall i :: |message| < i < n - 8 ==> p[i] == 0)
      && FromBigEndian32(p[n - 8..n - 4]) * WORDS + FromBigEndian32(p[n - 4..]) == 8 * |message|
  {
    hide ZeroBytes, FillsBlocks, BigEndian32, FromBigEndian32;
    var p, bits := Pad(message), 8 * |message|;
    var n := |p|;
    assert p[n - 8..n - 4] == BigEndian32(bits / WORDS) && p[n - 4..] == BigEndian32(bits % WORDS);
    WordReads(bits / WORDS);
    WordReads(bits % WORDS);
  }

  // ---------------------------------------------------------------------------------------------
  // Where the constants come from (sections 4.2.2 and 5.3.3)

  /** whole + k / 2^32 is the square root of p, cut off after 32 fractional bits. */
  predicate SquareRoot(whole: nat, k: Word, p: nat) {
    var r := whole * WORDS + k;
    r * r <= p * WORDS * WORDS < (r + 1) * (r + 1)
  }

  /** whole + k / 2^32 is the cube root of p, cut off after 32 fractional bits. */
  predicate CubeRoot(whole: nat, k: Word, p: nat) {
    var r := whole * WORDS + k;
    r * r * r <= p * WORDS * WORDS * WORDS < (r + 1) * (r + 1) * (r + 1)
  }

  predicate CubeRootFraction(k: Word, p: nat) {
    exists whole: nat :: whole < 7 && CubeRoot(whole, k, p)
  }

  /** The initial hash value is the fractional parts of the square roots of the first eight primes. */
  lemma InitialHashIsRoots()
    ensures SquareRoot(1, InitialHash.a, 2) && SquareRoot(1, InitialHash.b, 3)
    ensures SquareRoot(2, InitialHash.c, 5) && SquareRoot(2, InitialHash.d, 7)
    ensures SquareRoot(3, InitialHash.e, 11) && SquareRoot(3, InitialHash.f, 13)
    ensures SquareRoot(4, InitialHash.g, 17) && SquareRoot(4, InitialHash.h, 19)
  {
  }

  // the first 64 primes, in rows of eight
  const P0: seq<nat> := [2, 3, 5, 7, 11, 13, 17, 19]
  const P1: seq<nat> := [23, 29, 31, 37, 41, 43, 47, 53]
  const P2: seq<nat> := [59, 61, 67, 71, 73, 79, 83, 89]
  const P3: seq<nat> := [97, 101, 103, 107, 109, 113, 127, 131]
  const P4: seq<nat> := [137, 139, 149, 151, 157, 163, 167, 173]
  const P5: seq<nat> := [179, 181, 191, 193, 197, 199, 211, 223]
  const P6: seq<nat> := [227, 229, 233, 239, 241, 251, 257, 263]
  const P7: seq<nat> := [269, 271, 277, 281, 283, 293, 307, 311]

  function Prime(t: nat): nat
    requires t < 64
  {
    var row := if t < 8 then P0 else if t < 16 then P1 else if t < 24 then P2 else if t < 32 then P3
               else if t < 40 then P4 else if t < 48 then P5 else if t < 56 then P6 else P7;
    row[t % 8]
  }

  ghost predicate RootRow(ks: seq<Word>, ps: seq<nat>, whole: seq<nat>) {
    |ks| == |ps| == |whole| == 8 && forall j :: 0 <= j < 8 ==> whole[j] < 7 && CubeRoot(whole[j], ks[j], ps[j])
  }

  lemma RootRow0()
    ensures RootRow(K0, P0, [1, 1, 1, 1, 2, 2, 2, 2])
  {
    assert CubeRoot(1, 0x428a2f98, 2) && CubeRoot(1, 0x71374491, 3);
    assert CubeRoot(1, 0xb5c0fbcf, 5) && CubeRoot(1, 0xe9b5dba5, 7);
    assert CubeRoot(2, 0x3956c25b, 11) && CubeRoot(2, 0x59f111f1, 13);
    assert CubeRoot(2, 0x923f82a4, 17) && CubeRoot(2, 0xab1c5ed5, 19);
  }

  lemma RootRow1()
    ensures RootRow(K1, P1, [2, 3, 3, 3, 3, 3, 3, 3])
  {
    assert CubeRoot(2, 0xd807aa98, 23) && CubeRoot(3, 0x12835b01, 29);
    assert CubeRoot(3, 0x243185be, 31) && CubeRoot(3, 0x550c7dc3, 37);
    assert CubeRoot(3, 0x72be5d74, 41) && CubeRoot(3, 0x80deb1fe, 43);
    assert CubeRoot(3, 0x9bdc06a7, 47) && CubeRoot(3, 0xc19bf174, 53);
  }

  lemma RootRow2()
    ensures RootRow(K2, P2, [3, 3, 4, 4, 4, 4, 4, 4])
  {
    assert CubeRoot(3, 0xe49b69c1, 59) && CubeRoot(3, 0xefbe4786, 61);
    assert CubeRoot(4, 0x0fc19dc6, 67) && CubeRoot(4, 0x240ca1cc, 71);
    assert CubeRoot(4, 0x2de92c6f, 73) && CubeRoot(4, 0x4a7484aa, 79);
    assert CubeRoot(4, 0x5cb0a9dc, 83) && CubeRoot(4, 0x76f988da, 89);
  }

  lemma RootRow3()
    ensures RootRow(K3, P3, [4, 4, 4, 4, 4, 4, 5, 5])
  {
    assert CubeRoot(4, 0x983e5152, 97) && CubeRoot(4, 0xa831c66d, 101);
    assert CubeRoot(4, 0xb00327c8, 103) && CubeRoot(4, 0xbf597fc7, 107);
    assert CubeRoot(4, 0xc6e00bf3, 109) && CubeRoot(4, 0xd5a79147, 113);
    assert CubeRoot(5, 0x06ca6351, 127) && CubeRoot(5, 0x14292967, 131);
  }

  lemma RootRow4()
    ensures RootRow(K4, P4, [5, 5, 5, 5, 5, 5, 5, 5])
  {
    assert CubeRoot(5, 0x27b70a85, 137) && CubeRoot(5, 0x2e1b2138, 139);
    assert CubeRoot(5, 0x4d2c6dfc, 149) && CubeRoot(5, 0x53380d13, 151);
    assert CubeRoot(5, 0x650a7354, 157) && CubeRoot(5, 0x766a0abb, 163);
    assert CubeRoot(5, 0x81c2c92e, 167) && CubeRoot(5, 0x92722c85, 173);
  }

  lemma RootRow5()
    ensures RootRow(K5, P5, [5, 5, 5, 5, 5, 5, 5, 6])
  {
    assert CubeRoot(5, 0xa2bfe8a1, 179) && CubeRoot(5, 0xa81a664b, 181);
    assert CubeRoot(5, 0xc24b8b70, 191) && CubeRoot(5, 0xc76c51a3, 193);
    assert CubeRoot(5, 0xd192e819, 197) && CubeRoot(5, 0xd6990624, 199);
    assert CubeRoot(5, 0xf40e3585, 211) && CubeRoot(6, 0x106aa070, 223);
  }

  lemma RootRow6()
    ensures RootRow(K6, P6, [6, 6, 6, 6, 6, 6, 6, 6])
  {
    assert CubeRoot(6, 0x19a4c116, 227) && CubeRoot(6, 0x1e376c08, 229);
    assert CubeRoot(6, 0x2748774c, 233) && CubeRoot(6, 0x34b0bcb5, 239);
    assert CubeRoot(6, 0x391c0cb3, 241) && CubeRoot(6, 0x4ed8aa4a, 251);
    assert CubeRoot(6, 0x5b9cca4f, 257) && CubeRoot(6, 0x682e6ff3, 263);
  }

  lemma RootRow7()
    ensures RootRow(K7, P7, [6, 6, 6, 6, 6, 6, 6, 6])
  {
    assert CubeRoot(6, 0x748f82ee, 269) && CubeRoot(6, 0x78a5636f, 271);
    assert CubeRoot(6, 0x84c87814, 277) && CubeRoot(6, 0x8cc70208, 281);
    assert CubeRoot(6, 0x90befffa, 283) && CubeRoot(6, 0xa4506ceb, 293);
    assert CubeRoot(6, 0xbef9a3f7, 307) && CubeRoot(6, 0xc67178f2, 311);
  }

  /** The round constants are the fractional parts of the cube roots of the first 64 primes. */
  lemma RoundConstantsAreRoots(t: nat)
    requires t < 64
    ensures CubeRootFraction(K(t), Prime(t))
  {
    hide CubeRoot, K0, K1, K2, K3, K4, K5, K6, K7;
    RootRow0();
    RootRow1();
    RootRow2();
    RootRow3();
    RootRow4();
    RootRow5();
    RootRow6();
    RootRow7();
  }
}
