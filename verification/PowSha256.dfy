/** The hand-written SHA-256 of the proof-of-work worker (public/pow-worker.js), on JavaScript numbers
    and typed arrays, proved equal to FIPS 180-4. */
module PowSha256 {
  import opened Words
  import opened JsNumbers
  import Fips = Fips180

  /** `DataView.setUint32(offset, value, false)`. */
  method SetUint32(data: array<Byte>, offset: nat, value: int)
    requires offset + 4 <= data.Length
    modifies data
    ensures data[..] == old(data[..offset]) + BigEndian32(ToUint32(value)) + old(data[offset + 4..])
  {
    var b := BigEndian32(ToUint32(value));
    data[offset] := b[0];
    data[offset + 1] := b[1];
    data[offset + 2] := b[2];
    data[offset + 3] := b[3];
  }

  // ---------------------------------------------------------------------------------------------
  // Expressions of the two inner loops stand for the FIPS functions

  lemma Xor3(x: int, y: int, z: int)
    ensures ToUint32(BitXor(BitXor(x, y), z)) == Xor32(Xor32(ToUint32(x), ToUint32(y)), ToUint32(z))
  {
    BitwiseIsWordwise(x, y);
    BitwiseIsWordwise(BitXor(x, y), z);
  }

  function JsSmallSigma0(x: int): Int32 {
    BitXor(BitXor(Rotr(x, 7), Rotr(x, 18)), UnsignedShiftRight(x, 3))
  }

  function JsSmallSigma1(x: int): Int32 {
    BitXor(BitXor(Rotr(x, 17), Rotr(x, 19)), UnsignedShiftRight(x, 10))
  }

  function JsBigSigma0(x: int): Int32 {
    BitXor(BitXor(Rotr(x, 2), Rotr(x, 13)), Rotr(x, 22))
  }

  function JsBigSigma1(x: int): Int32 {
    BitXor(BitXor(Rotr(x, 6), Rotr(x, 11)), Rotr(x, 25))
  }

  function JsCh(e: int, f: int, g: int): Int32 {
    BitXor(BitAnd(e, f), BitAnd(BitNot(e), g))
  }

  function JsMaj(a: int, b: int, c: int): Int32 {
    BitXor(BitXor(BitAnd(a, b), BitAnd(a, c)), BitAnd(b, c))
  }

  lemma ShiftIsWordwise(x: int, n: nat)
    requires n < 32
    ensures ToUint32(UnsignedShiftRight(x, n)) == ShiftRight(ToUint32(x), n)
  {
    ShiftBound(ToUint32(x), n);
  }

  lemma SmallSigmas(x: int)
    ensures ToUint32(JsSmallSigma0(x)) == Fips.SmallSigma0(ToUint32(x))
    ensures ToUint32(JsSmallSigma1(x)) == Fips.SmallSigma1(ToUint32(x))
  {
    Xor3(Rotr(x, 7), Rotr(x, 18), UnsignedShiftRight(x, 3));
    RotrIsRotation(x, 7);
    RotrIsRotation(x, 18);
    ShiftIsWordwise(x, 3);
    Xor3(Rotr(x, 17), Rotr(x, 19), UnsignedShiftRight(x, 10));
    RotrIsRotation(x, 17);
    RotrIsRotation(x, 19);
    ShiftIsWordwise(x, 10);
  }

  lemma BigSigmas(x: int)
    ensures ToUint32(JsBigSigma0(x)) == Fips.BigSigma0(ToUint32(x))
    ensures ToUint32(JsBigSigma1(x)) == Fips.BigSigma1(ToUint32(x))
  {
    Xor3(Rotr(x, 2), Rotr(x, 13), Rotr(x, 22));
    RotrIsRotation(x, 2);
    RotrIsRotation(x, 13);
    RotrIsRotation(x, 22);
    Xor3(Rotr(x, 6), Rotr(x, 11), Rotr(x, 25));
    RotrIsRotation(x, 6);
    RotrIsRotation(x, 11);
    RotrIsRotation(x, 25);
  }

  lemma ChMaj(x: int, y: int, z: int)
    ensures ToUint32(JsCh(x, y, z)) == Fips.Ch(ToUint32(x), ToUint32(y), ToUint32(z))
    ensures ToUint32(JsMaj(x, y, z)) == Fips.Maj(ToUint32(x), ToUint32(y), ToUint32(z))
  {
    BitwiseIsWordwise(x, y);
    BitwiseIsWordwise(BitNot(x), z);
    BitwiseIsWordwise(BitAnd(x, y), BitAnd(BitNot(x), z));
    BitwiseIsWordwise(x, z);
    BitwiseIsWordwise(y, z);
    Xor3(BitAnd(x, y), BitAnd(x, z), BitAnd(y, z));
  }

  /** A sum of signed and unsigned terms, reduced once at the end, is the chained modular sum. */
  lemma Sum5(a: int, b: int, c: int, d: int, e: int)
    ensures ToUint32(a + b + c + d + e)
         == Add32(Add32(Add32(Add32(ToUint32(a), ToUint32(b)), ToUint32(c)), ToUint32(d)), ToUint32(e))
  {
    SumIsAdd32(a, b);
    SumIsAdd32(a + b, c);
    SumIsAdd32(a + b + c, d);
    SumIsAdd32(a + b + c + d, e);
  }

  lemma Sum4(a: int, b: int, c: int, d: int)
    ensures ToUint32(a + b + c + d) == Add32(Add32(Add32(ToUint32(d), ToUint32(c)), ToUint32(b)), ToUint32(a))
  {
    SumIsAdd32(d, c);
    SumIsAdd32(d + c, b);
    SumIsAdd32(d + c + b, a);
  }

  // ---------------------------------------------------------------------------------------------
  // Padding

  /** The padded length the worker computes with 32-bit shifts. */
  function PaddedLength(length: nat): int
    requires length + 72 < 0x8000_0000
  {
    ShiftLeft(SignedShiftRight(length + 9 + 63, 6), 6)
  }

  lemma PaddedLengthIs(length: nat)
    requires length + 72 < 0x8000_0000
    ensures PaddedLength(length) == length + 9 + Fips.ZeroBytes(length)
  {
    assert Pow2(6) == 64;
    var q := (length + 72) / 64;
    assert SignedShiftRight(length + 72, 6) == q;
    assert ShiftLeft(q, 6) == 64 * q;
  }

  /** Fills a fresh buffer with the message, the 0x80 byte and the bit length. */
  method PadMessage(bytes: seq<Byte>) returns (data: array<Byte>)
    requires |bytes| + 72 < 0x8000_0000
    ensures fresh(data)
    ensures data[..] == Fips.Pad(bytes)
  {
    hide PaddedLength, Fips.ZeroBytes, Fips.FillsBlocks, Fips.Pad, BigEndian32, ToUint32, UnsignedShiftRight;
    var bitLength := |bytes| * 8;
    PaddedLengthIs(|bytes|);
    var paddedLength := PaddedLength(|bytes|);
    data := NewBuffer(bytes, paddedLength);
    ghost var filled := data[..];
    SetUint32(data, paddedLength - 4, UnsignedShiftRight(bitLength, 0));
    SetUint32(data, paddedLength - 8, bitLength / WORDS);
    LengthField(filled, data[..], bitLength);
    PaddedIs(bytes, filled, data[..]);
  }

  lemma PaddedIs(bytes: seq<Byte>, filled: seq<Byte>, written: seq<Byte>)
    requires |bytes| + 72 < 0x8000_0000 && |filled| == |bytes| + 9 + Fips.ZeroBytes(|bytes|)
    requires filled == bytes + [0x80] + seq(|filled| - |bytes| - 1, _ => 0)
    requires var bits := |bytes| * 8;
      written == filled[..|filled| - 8] + BigEndian32(bits / WORDS) + BigEndian32(bits % WORDS)
    ensures written == Fips.Pad(bytes)
  {
    hide Fips.ZeroBytes, Fips.FillsBlocks, BigEndian32;
    assert filled[..|filled| - 8] == bytes + [0x80] + seq(Fips.ZeroBytes(|bytes|), _ => 0);
  }

  lemma LengthField(filled: seq<Byte>, written: seq<Byte>, bitLength: nat)
    requires |filled| == |written| >= 8 && bitLength / WORDS < WORDS
    requires var n := |filled|;
      var low := filled[..n - 4] + BigEndian32(ToUint32(UnsignedShiftRight(bitLength, 0))) + filled[n..];
      written == low[..n - 8] + BigEndian32(ToUint32(bitLength / WORDS)) + low[n - 4..]
    ensures written == filled[..|filled| - 8] + BigEndian32(bitLength / WORDS) + BigEndian32(bitLength % WORDS)
  {
    TruncationIsWord(bitLength);
    WordIsItself(bitLength / WORDS);
  }

  method NewBuffer(bytes: seq<Byte>, size: nat) returns (data: array<Byte>)
    requires |bytes| < size
    ensures fresh(data)
    ensures data[..] == bytes + [0x80] + seq(size - |bytes| - 1, _ => 0)
  {
    data := new Byte[size](_ => 0);
    forall i | 0 <= i < |bytes| {
      data[i] := bytes[i];
    }
    data[|bytes|] := 0x80;
  }

  // ---------------------------------------------------------------------------------------------
  // The compression loop

  function StateOf(h: seq<int>): Fips.State
    requires |h| == 8
  {
    Fips.State(ToUint32(h[0]), ToUint32(h[1]), ToUint32(h[2]), ToUint32(h[3]),
               ToUint32(h[4]), ToUint32(h[5]), ToUint32(h[6]), ToUint32(h[7]))
  }

  /** Fills the 64-word schedule of the block at offset; w is a Uint32Array. */
  method ExpandBlock(data: array<Byte>, offset: nat, w: array<Word>)
    requires offset + 64 <= data.Length && w.Length == 64 && data as object != w
    modifies w
    ensures forall t :: 0 <= t < 64 ==> w[t] == Fips.Schedule(data[offset..offset + 64], t)
  {
    hide Fips.Schedule;
    ghost var block := data[offset..offset + 64];
    LoadBlock(data, offset, w);
    ExtendSchedule(w, block);
    assert data[offset..offset + 64] == block;
  }

  method LoadBlock(data: array<Byte>, offset: nat, w: array<Word>)
    requires offset + 64 <= data.Length && w.Length == 64 && data as object != w
    modifies w
    ensures forall t :: 0 <= t < 16 ==> w[t] == Fips.Schedule(data[offset..offset + 64], t)
  {
    hide FromBigEndian32;
    ghost var block := data[offset..offset + 64];
    for i := 0 to 16
      invariant data[offset..offset + 64] == block
      invariant forall t :: 0 <= t < i ==> w[t] == Fips.Schedule(block, t)
    {
      w[i] := FromBigEndian32(data[offset + i * 4..offset + i * 4 + 4]);
      assert data[offset..offset + 64] == block;
      assert block[4 * i..4 * i + 4] == data[offset + i * 4..offset + i * 4 + 4];
    }
  }

  method ExtendSchedule(w: array<Word>, ghost block: seq<Byte>)
    requires w.Length == 64 && |block| == 64
    requires forall t :: 0 <= t < 16 ==> w[t] == Fips.Schedule(block, t)
    modifies w
    ensures forall t :: 0 <= t < 64 ==> w[t] == Fips.Schedule(block, t)
  {
    hide JsSmallSigma0, JsSmallSigma1, Fips.Schedule, UnsignedShiftRight;
    for i := 16 to 64
      invariant forall t :: 0 <= t < i ==> w[t] == Fips.Schedule(block, t)
    {
      NextScheduleWord(block, i, w[i - 16], w[i - 15], w[i - 7], w[i - 2]);
      var s0 := JsSmallSigma0(w[i - 15]);
      var s1 := JsSmallSigma1(w[i - 2]);
      w[i] := UnsignedShiftRight(Plus(Plus(Plus(w[i - 16], s0), w[i - 7]), s1), 0);
    }
  }

  lemma NextScheduleWord(block: seq<Byte>, t: nat, w16: Word, w15: Word, w7: Word, w2: Word)
    requires |block| == 64 && 16 <= t
    requires w16 == Fips.Schedule(block, t - 16) && w15 == Fips.Schedule(block, t - 15)
    requires w7 == Fips.Schedule(block, t - 7) && w2 == Fips.Schedule(block, t - 2)
    ensures UnsignedShiftRight(w16 + JsSmallSigma0(w15) + w7 + JsSmallSigma1(w2), 0) == Fips.Schedule(block, t)
  {
    hide JsSmallSigma0, JsSmallSigma1, ToUint32, Add32, UnsignedShiftRight, Fips.SmallSigma0, Fips.SmallSigma1;
    SmallSigmas(w15);
    SmallSigmas(w2);
    WordIsItself(w16);
    WordIsItself(w15);
    WordIsItself(w7);
    WordIsItself(w2);
    Sum4(w16, JsSmallSigma0(w15), w7, JsSmallSigma1(w2));
    TruncationIsWord(w16 + JsSmallSigma0(w15) + w7 + JsSmallSigma1(w2));
  }

  /** The 64 rounds, updating the eight working variables in place. */
  method Run64Rounds(h: array<Word>, w: array<Word>, ghost block: seq<Byte>)
      returns (a: Word, b: Word, c: Word, d: Word, e: Word, f: Word, g: Word, hh: Word)
    requires h.Length == 8 && w.Length == 64 && |block| == 64
    requires forall t :: 0 <= t < 64 ==> w[t] == Fips.Schedule(block, t)
    ensures StateOf([a, b, c, d, e, f, g, hh]) == Fips.Rounds(StateOf(h[..]), block, 64)
  {
    a, b, c, d, e, f, g, hh := h[0], h[1], h[2], h[3], h[4], h[5], h[6], h[7];
    for i := 0 to 64
      invariant StateOf([a, b, c, d, e, f, g, hh]) == Fips.Rounds(StateOf(h[..]), block, i)
    {
      a, b, c, d, e, f, g, hh := OneRound(a, b, c, d, e, f, g, hh, Fips.K(i), w[i]);
    }
  }

  lemma FirstTemporary(e: int, f: int, g: int, hh: int, k: Word, w: Word)
    ensures ToUint32(hh + JsBigSigma1(e) + JsCh(e, f, g) + k + w)
         == Add32(Add32(Add32(Add32(ToUint32(hh), Fips.BigSigma1(ToUint32(e))),
                              Fips.Ch(ToUint32(e), ToUint32(f), ToUint32(g))), k), w)
  {
    hide *;
    BigSigmas(e);
    ChMaj(e, f, g);
    WordIsItself(k);
    WordIsItself(w);
    Sum5(hh, JsBigSigma1(e), JsCh(e, f, g), k, w);
  }

  lemma SecondTemporary(a: int, b: int, c: int)
    ensures ToUint32(JsBigSigma0(a) + JsMaj(a, b, c))
         == Add32(Fips.BigSigma0(ToUint32(a)), Fips.Maj(ToUint32(a), ToUint32(b), ToUint32(c)))
  {
    hide *;
    BigSigmas(a);
    ChMaj(a, b, c);
    SumIsAdd32(JsBigSigma0(a), JsMaj(a, b, c));
  }

  /** `x >>> 0` is the word x stands for. */
  lemma TruncationIsWord(x: int)
    ensures UnsignedShiftRight(x, 0) == ToUint32(x) == ToUint32(UnsignedShiftRight(x, 0))
  {
  }

  /** The body of the round loop. */
  method OneRound(a0: Word, b0: Word, c0: Word, d0: Word, e0: Word, f0: Word, g0: Word, hh0: Word, k: Word, w: Word)
      returns (a: Word, b: Word, c: Word, d: Word, e: Word, f: Word, g: Word, hh: Word)
    ensures StateOf([a, b, c, d, e, f, g, hh]) == Fips.Round(StateOf([a0, b0, c0, d0, e0, f0, g0, hh0]), k, w)
  {
    hide JsBigSigma0, JsBigSigma1, JsCh, JsMaj, ToUint32, Add32, UnsignedShiftRight, Fips.BigSigma0, Fips.BigSigma1,
         Fips.Ch, Fips.Maj;
    a, b, c, d, e, f, g, hh := a0, b0, c0, d0, e0, f0, g0, hh0;
    var S1, ch := JsBigSigma1(e), JsCh(e, f, g);
    FirstTemporary(e, f, g, hh, k, w);
    TruncationIsWord(hh + S1 + ch + k + w);
    var t1: Word := UnsignedShiftRight(Plus(Plus(Plus(Plus(hh, S1), ch), k), w), 0);
    var S0, maj := JsBigSigma0(a), JsMaj(a, b, c);
    SecondTemporary(a, b, c);
    TruncationIsWord(Plus(S0, maj));
    var t2: Word := UnsignedShiftRight(Plus(S0, maj), 0);
    hh := g;
    g := f;
    f := e;
    SumIsAdd32(d, t1);
    TruncationIsWord(Plus(d, t1));
    e := UnsignedShiftRight(Plus(d, t1), 0);
    d := c;
    c := b;
    b := a;
    SumIsAdd32(t1, t2);
    TruncationIsWord(Plus(t1, t2));
    a := UnsignedShiftRight(Plus(t1, t2), 0);
  }

  /** Adds the working variables into the hash value. */
  method AddIntoHash(h: array<Word>, v: seq<Word>)
    requires h.Length == 8 && |v| == 8
    modifies h
    ensures forall i :: 0 <= i < 8 ==> ToUint32(h[i]) == Add32(ToUint32(old(h[i])), ToUint32(v[i]))
  {
    for i := 0 to 8
      invariant forall j :: 0 <= j < i ==> ToUint32(h[j]) == Add32(ToUint32(old(h[j])), ToUint32(v[j]))
      invariant forall j :: i <= j < 8 ==> h[j] == old(h[j])
    {
      SumIsAdd32(h[i], v[i]);
      TruncationIsWord(Plus(h[i], v[i]));
      h[i] := UnsignedShiftRight(Plus(h[i], v[i]), 0);
    }
  }

  /** One iteration of the block loop. */
  method ProcessBlock(data: array<Byte>, offset: nat, h: array<Word>, w: array<Word>)
    requires offset + 64 <= data.Length && h.Length == 8 && w.Length == 64
    requires data as object != w && data as object != h && h as object != w
    modifies h, w
    ensures StateOf(h[..]) == Fips.Compress(old(StateOf(h[..])), data[offset..offset + 64])
  {
    hide Fips.Rounds, Fips.Schedule, ToUint32, Add32;
    ghost var block := data[offset..offset + 64];
    ExpandBlock(data, offset, w);
    assert data[offset..offset + 64] == block;
    var a, b, c, d, e, f, g, hh := Run64Rounds(h, w, block);
    AddIntoHash(h, [a, b, c, d, e, f, g, hh]);
  }

  /** The digest bytes, word by word. */
  method EmitDigest(h: array<Word>) returns (digest: seq<Byte>)
    requires h.Length == 8
    ensures digest == Fips.Output(StateOf(h[..]))
  {
    hide BigEndian32;
    digest := [];
    for i := 0 to 8
      invariant digest == Fips.Output(StateOf(h[..]))[..4 * i]
    {
      digest := digest + BigEndian32(ToUint32(h[i]));
    }
  }

  /** `sha256` on the encoded message. */
  method Sha256(bytes: seq<Byte>) returns (digest: seq<Byte>)
    requires |bytes| + 72 < 0x8000_0000
    ensures digest == Fips.Sha256(bytes)
  {
    hide Fips.Compress, Fips.Output, Fips.Pad, Fips.HashBlocks, StateOf, ToUint32;
    var data := PadMessage(bytes);
    ghost var padded := data[..];
    var h := InitialHashCopy();
    var w := new Word[64];
    var offset := 0;
    NoBlocks(padded);
    while offset < data.Length
      invariant 0 <= offset <= data.Length && offset % 64 == 0
      invariant data[..] == padded
      invariant StateOf(h[..]) == Fips.HashBlocks(padded[..offset])
    {
      assert data[offset..offset + 64] == padded[offset..offset + 64];
      ProcessBlock(data, offset, h, w);
      LastBlock(padded, offset);
      offset := offset + 64;
    }
    assert padded[..offset] == padded;
    digest := EmitDigest(h);
  }

  /** `H0.slice()`. */
  method InitialHashCopy() returns (h: array<Word>)
    ensures fresh(h) && h.Length == 8 && StateOf(h[..]) == Fips.InitialHash
  {
    h := new Word[8] [0x6a09e667, 0xbb67ae85, 0x3c6ef372, 0xa54ff53a, 0x510e527f, 0x9b05688c, 0x1f83d9ab, 0x5be0cd19];
  }

  lemma NoBlocks(padded: seq<Byte>)
    ensures Fips.HashBlocks(padded[..0]) == Fips.InitialHash
  {
    assert padded[..0] == [];
  }

  lemma LastBlock(padded: seq<Byte>, offset: nat)
    requires offset + 64 <= |padded| && offset % 64 == 0
    ensures Fips.HashBlocks(padded[..offset + 64])
              == Fips.Compress(Fips.HashBlocks(padded[..offset]), padded[offset..offset + 64])
  {
    assert padded[..offset + 64][..offset] == padded[..offset];
    assert padded[..offset + 64][offset..] == padded[offset..offset + 64];
  }
}
