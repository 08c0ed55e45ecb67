/** Unpadded base64url of the WebAuthn client (public/webauthn-client.js) on top of the browser's `btoa`
    and `atob` (sections 4 and 5 of RFC 4648). */
module Base64Url {
  import opened Options
  import opened Words

  type Digit = d: nat | d < 64

  // ---------------------------------------------------------------------------------------------
  // The two alphabets (tables 1 and 2 of RFC 4648)

  function Letter(d: Digit, plus: char, slash: char): char {
    if d < 26 then 'A' + d as char
    else if d < 52 then 'a' + (d - 26) as char
    else if d < 62 then '0' + (d - 52) as char
    else if d == 62 then plus else slash
  }

  function Value(c: char): Option<Digit> {
    if 'A' <= c <= 'Z' then Some((c - 'A') as int)
    else if 'a' <= c <= 'z' then Some((c - 'a') as int + 26)
    else if '0' <= c <= '9' then Some((c - '0') as int + 52)
    else if c == '+' then Some(62)
    else if c == '/' then Some(63)
    else None
  }

  /** The corners of the tables, and that neighbours in between have neighbouring codes. */
  lemma Alphabets(d: Digit, plus: char, slash: char)
    ensures Letter(0, plus, slash) == 'A' && Letter(25, plus, slash) == 'Z' && Letter(26, plus, slash) == 'a'
    ensures Letter(51, plus, slash) == 'z' && Letter(52, plus, slash) == '0' && Letter(61, plus, slash) == '9'
    ensures Letter(62, plus, slash) == plus && Letter(63, plus, slash) == slash
    ensures d < 61 && d != 25 && d != 51 ==> Letter(d + 1, plus, slash) as int == Letter(d, plus, slash) as int + 1
  {
  }

  /** Exactly the letters of the first table have a value, and it is their place in the table. */
  lemma ValueIff(c: char, d: Digit)
    ensures Value(c) == Some(d) <==> c == Letter(d, '+', '/')
  {
  }

  function Letters(ds: seq<Digit>, plus: char, slash: char): (s: string)
    ensures |s| == |ds|
    ensures forall i :: 0 <= i < |s| ==> s[i] == Letter(ds[i], plus, slash)
  {
    if ds == [] then "" else [Letter(ds[0], plus, slash)] + Letters(ds[1..], plus, slash)
  }

  function Values(s: string): Option<seq<Digit>> {
    if s == "" then Some([])
    else match (Value(s[0]), Values(s[1..]))
      case (Some(d), Some(ds)) => Some([d] + ds)
      case _ => None
  }

  lemma ValueOfLetter(d: Digit)
    ensures Value(Letter(d, '+', '/')) == Some(d)
  {
  }

  lemma {:induction false} ValuesOfLetters(ds: seq<Digit>)
    ensures Values(Letters(ds, '+', '/')) == Some(ds)
  {
    if ds != [] {
      ValuesOfLetters(ds[1..]);
      OneMoreValue(ds);
    }
  }

  lemma OneMoreValue(ds: seq<Digit>)
    requires ds != [] && Values(Letters(ds[1..], '+', '/')) == Some(ds[1..])
    ensures Values(Letters(ds, '+', '/')) == Some(ds)
  {
    hide Letter, Value;
    var text := Letters(ds, '+', '/');
    assert text[1..] == Letters(ds[1..], '+', '/');
    ValueOfLetter(ds[0]);
    assert [ds[0]] + ds[1..] == ds;
  }

  // ---------------------------------------------------------------------------------------------
  // Bytes and 6-bit digits

  function FirstDigit(a: int): Digit
    requires 0 <= a < 256
  {
    a / 4
  }

  function SecondDigit(a: int, b: int): Digit
    requires 0 <= a < 256 && 0 <= b < 256
  {
    a % 4 * 16 + b / 16
  }

  function ThirdDigit(b: int, c: int): Digit
    requires 0 <= b < 256 && 0 <= c < 256
  {
    b % 16 * 4 + c / 64
  }

  function FourthDigit(c: int): Digit
    requires 0 <= c < 256
  {
    c % 64
  }

  /** Three bytes become four digits; missing bytes of the last group count as zero bits. */
  function ToDigits(b: seq<Byte>): seq<Digit> {
    if |b| == 0 then []
    else if |b| == 1 then [FirstDigit(b[0]), SecondDigit(b[0], 0)]
    else if |b| == 2 then [FirstDigit(b[0]), SecondDigit(b[0], b[1]), ThirdDigit(b[1], 0)]
    else [FirstDigit(b[0]), SecondDigit(b[0], b[1]), ThirdDigit(b[1], b[2]), FourthDigit(b[2])] + ToDigits(b[3..])
  }

  function FirstByte(d0: int, d1: int): Byte
    requires 0 <= d0 < 64 && 0 <= d1 < 64
  {
    d0 * 4 + d1 / 16
  }

  function SecondByte(d1: int, d2: int): Byte
    requires 0 <= d1 < 64 && 0 <= d2 < 64
  {
    d1 % 16 * 16 + d2 / 4
  }

  function ThirdByte(d2: int, d3: int): Byte
    requires 0 <= d2 < 64 && 0 <= d3 < 64
  {
    d2 % 4 * 64 + d3
  }

  /** Leftover bits of the last digit are discarded; a single leftover digit is an error. */
  function FromDigits(d: seq<Digit>): Option<seq<Byte>> {
    if |d| == 0 then Some([])
    else if |d| == 1 then None
    else if |d| == 2 then Some([FirstByte(d[0], d[1])])
    else if |d| == 3 then Some([FirstByte(d[0], d[1]), SecondByte(d[1], d[2])])
    else match FromDigits(d[4..])
      case Some(rest) => Some([FirstByte(d[0], d[1]), SecondByte(d[1], d[2]), ThirdByte(d[2], d[3])] + rest)
      case None => None
  }

  lemma GroupOfBytes(a: int, b: int, c: int)
    requires 0 <= a < 256 && 0 <= b < 256 && 0 <= c < 256
    ensures FirstByte(FirstDigit(a), SecondDigit(a, b)) == a
    ensures SecondByte(SecondDigit(a, b), ThirdDigit(b, c)) == b
    ensures ThirdByte(ThirdDigit(b, c), FourthDigit(c)) == c
  {
  }

  lemma GroupOfDigits(d0: int, d1: int, d2: int, d3: int)
    requires 0 <= d0 < 64 && 0 <= d1 < 64 && 0 <= d2 < 64 && 0 <= d3 < 64
    ensures var a, b, c := FirstByte(d0, d1), SecondByte(d1, d2), ThirdByte(d2, d3);
      && FirstDigit(a) == d0 && SecondDigit(a, b) == d1 && ThirdDigit(b, c) == d2 && FourthDigit(c) == d3
      && (SecondDigit(a, 0) == d1 <==> d1 % 16 == 0) && (ThirdDigit(b, 0) == d2 <==> d2 % 4 == 0)
  {
  }

  lemma {:induction false} DigitsRoundTrip(b: seq<Byte>)
    ensures FromDigits(ToDigits(b)) == Some(b)
  {
    hide FirstDigit, SecondDigit, ThirdDigit, FourthDigit, FirstByte, SecondByte, ThirdByte;
    if |b| >= 3 {
      GroupOfBytes(b[0], b[1], b[2]);
      DigitsRoundTrip(b[3..]);
      assert ToDigits(b)[4..] == ToDigits(b[3..]);
      assert b == [b[0], b[1], b[2]] + b[3..];
    } else if |b| == 2 {
      GroupOfBytes(b[0], b[1], 0);
      assert b == [b[0], b[1]];
    } else if |b| == 1 {
      GroupOfBytes(b[0], 0, 0);
      assert b == [b[0]];
    }
  }

  function Number(s: seq<int>, base: nat): int {
    if s == [] then 0 else Number(s[..|s| - 1], base) * base + s[|s| - 1]
  }

  lemma {:induction false} Number4(a: int, b: int, c: int, d: int, base: nat)
    ensures Number([a], base) == a
    ensures Number([a, b], base) == a * base + b
    ensures Number([a, b, c], base) == (a * base + b) * base + c
    ensures Number([a, b, c, d], base) == ((a * base + b) * base + c) * base + d
  {
    assert [a][..0] == [] && [a, b][..1] == [a] && [a, b, c][..2] == [a, b] && [a, b, c, d][..3] == [a, b, c];
  }

  /** Group by group, the digits stand for the same number as the bytes, most significant first; a last group of one
      or two bytes is filled up with zero bits. */
  lemma {:induction false} GroupsAre(b: seq<Byte>, i: nat)
    requires 3 * i < |b|
    ensures var d, rest := ToDigits(b), |b| - 3 * i;
      if rest >= 3 then
        |d| >= 4 * i + 4 && Number(d[4 * i..4 * i + 4], 64) == Number(b[3 * i..3 * i + 3], 256)
      else
        |d| == 4 * i + rest + 1 && Number(d[4 * i..], 64) == Number(b[3 * i..], 256) * (if rest == 2 then 4 else 16)
  {
    hide FirstDigit, SecondDigit, ThirdDigit, FourthDigit, Number;
    var d := ToDigits(b);
    if i > 0 {
      GroupsAre(b[3..], i - 1);
      var e := ToDigits(b[3..]);
      assert b[3..][3 * (i - 1)..] == b[3 * i..] && d[4..] == e && d[4..][4 * (i - 1)..] == d[4 * i..];
      if |b| - 3 * i >= 3 {
        assert b[3..][3 * (i - 1)..3 * (i - 1) + 3] == b[3 * i..3 * i + 3];
        assert d[4..][4 * (i - 1)..4 * (i - 1) + 4] == d[4 * i..4 * i + 4];
      }
    } else {
      FirstGroup(b);
    }
  }

  lemma FirstGroup(b: seq<Byte>)
    requires b != []
    ensures var d := ToDigits(b);
      if |b| >= 3 then |d| >= 4 && Number(d[..4], 64) == Number(b[..3], 256)
      else |d| == |b| + 1 && Number(d, 64) == Number(b, 256) * (if |b| == 2 then 4 else 16)
  {
    hide Number, FirstDigit, SecondDigit, ThirdDigit, FourthDigit;
    var d := ToDigits(b);
    if |b| >= 3 {
      assert b[..3] == [b[0], b[1], b[2]] && d[..4] == [d[0], d[1], d[2], d[3]];
      Number4(b[0], b[1], b[2], 0, 256);
      Number4(d[0], d[1], d[2], d[3], 64);
      GroupNumber(b[0], b[1], b[2]);
    } else if |b| == 2 {
      assert b == [b[0], b[1]];
      Number4(b[0], b[1], 0, 0, 256);
      Number4(d[0], d[1], d[2], 0, 64);
      GroupNumber(b[0], b[1], 0);
    } else {
      assert b == [b[0]];
      Number4(b[0], 0, 0, 0, 256);
      Number4(d[0], d[1], 0, 0, 64);
      GroupNumber(b[0], 0, 0);
    }
  }

  lemma GroupNumber(a: int, b: int, c: int)
    requires 0 <= a < 256 && 0 <= b < 256 && 0 <= c < 256
    ensures var d0: int, d1: int := FirstDigit(a), SecondDigit(a, b);
      var d2: int, d3: int := ThirdDigit(b, c), FourthDigit(c);
      && ((d0 * 64 + d1) * 64 + d2) * 64 + d3 == (a * 256 + b) * 256 + c
      && (c == 0 ==> (d0 * 64 + d1) * 64 + d2 == (a * 256 + b) * 4)
      && (b == 0 ==> d0 * 64 + d1 == a * 16)
  {
  }

  /** The number of `=` signs that fill the last group of four. */
  function PaddingOf(length: nat): nat {
    (4 - length % 4) % 4
  }

  function Repeat(c: char, n: nat): (s: string)
    ensures |s| == n && forall i :: 0 <= i < n ==> s[i] == c
  {
    if n == 0 then "" else [c] + Repeat(c, n - 1)
  }

  lemma {:induction false} DigitCount(b: seq<Byte>)
    ensures |ToDigits(b)| % 4 != 1 && PaddingOf(|ToDigits(b)|) <= 2
  {
    hide FirstDigit, SecondDigit, ThirdDigit, FourthDigit;
    if |b| >= 3 {
      DigitCount(b[3..]);
      SameModulo(|ToDigits(b[3..])|);
    }
  }

  // ---------------------------------------------------------------------------------------------
  // The browser's functions

  predicate IsBinary(s: string) {
    forall i :: 0 <= i < |s| ==> s[i] as int < 256
  }

  function CharCodes(binary: string): (codes: seq<Byte>)
    requires IsBinary(binary)
    ensures |codes| == |binary| && forall i :: 0 <= i < |codes| ==> codes[i] == binary[i] as int
  {
    if binary == "" then [] else [binary[0] as int] + CharCodes(binary[1..])
  }

  function Btoa(binary: string): string
    requires IsBinary(binary)
  {
    var ds := ToDigits(CharCodes(binary));
    Letters(ds, '+', '/') + Repeat('=', PaddingOf(|ds|))
  }

  /** `atob`: white space is skipped first, and padding is removed from complete groups only. */
  function Atob(s: string): Option<seq<Byte>> {
    match Values(Unpadded(WithoutSpaces(s)))
    case Some(ds) => FromDigits(ds)
    case None => None
  }

  predicate AsciiSpace(c: char) {
    c == ' ' || c == '\t' || c == '\n' || c == '\U{0C}' || c == '\r'
  }

  function WithoutSpaces(s: string): string {
    if s == "" then "" else if AsciiSpace(s[0]) then WithoutSpaces(s[1..]) else [s[0]] + WithoutSpaces(s[1..])
  }

  lemma {:induction false} NoSpaces(s: string)
    requires forall i :: 0 <= i < |s| ==> !AsciiSpace(s[i])
    ensures WithoutSpaces(s) == s
  {
    if s != "" {
      NoSpaces(s[1..]);
    }
  }

  lemma LettersWithoutSpaces(ds: seq<Digit>, padding: nat)
    ensures WithoutSpaces(Letters(ds, '+', '/') + Repeat('=', padding)) == Letters(ds, '+', '/') + Repeat('=', padding)
  {
    NoSpaces(Letters(ds, '+', '/') + Repeat('=', padding));
  }

  function Unpadded(s: string): string {
    if |s| % 4 == 0 && |s| >= 1 && s[|s| - 1] == '=' then
      if |s| >= 2 && s[|s| - 2] == '=' then s[..|s| - 2] else s[..|s| - 1]
    else s
  }

  // ---------------------------------------------------------------------------------------------
  // The client's functions

  /** `replaceAll` of one character by another. */
  function ReplaceAll(s: string, from: char, to: char): (r: string)
    ensures |r| == |s| && forall i :: 0 <= i < |s| ==> r[i] == if s[i] == from then to else s[i]
  {
    if s == "" then "" else [if s[0] == from then to else s[0]] + ReplaceAll(s[1..], from, to)
  }

  /** `replace(/=+$/u, "")`. */
  function StripPadding(s: string): string {
    if s != "" && s[|s| - 1] == '=' then StripPadding(s[..|s| - 1]) else s
  }

  /** The URL-safe letters of the digits, and nothing else. */
  function Encoded(b: seq<Byte>): string {
    Letters(ToDigits(b), '-', '_')
  }

  predicate UrlSafe(c: char) {
    'A' <= c <= 'Z' || 'a' <= c <= 'z' || '0' <= c <= '9' || c == '-' || c == '_'
  }

  method BufferToBase64Url(bytes: seq<Byte>) returns (s: string)
    ensures s == Encoded(bytes)
    ensures forall i :: 0 <= i < |s| ==> UrlSafe(s[i])
  {
    hide ToDigits, StripPadding, Letters, ReplaceAll, Btoa, UrlSafe;
    var binary := "";
    for i := 0 to |bytes|
      invariant |binary| == i && forall j :: 0 <= j < i ==> binary[j] as int == bytes[j]
    {
      binary := binary + [bytes[i] as char];
    }
    s := StripPadding(ReplaceAll(ReplaceAll(Btoa(binary), '+', '-'), '/', '_'));
    StripsToEncoded(bytes, binary);
    EncodedIsUrlSafe(bytes);
  }

  lemma EncodedIsUrlSafe(b: seq<Byte>)
    ensures forall i :: 0 <= i < |Encoded(b)| ==> UrlSafe(Encoded(b)[i])
  {
  }

  lemma StripsToEncoded(bytes: seq<Byte>, binary: string)
    requires |binary| == |bytes| && forall j :: 0 <= j < |bytes| ==> binary[j] as int == bytes[j]
    ensures StripPadding(ReplaceAll(ReplaceAll(Btoa(binary), '+', '-'), '/', '_')) == Encoded(bytes)
  {
    hide ToDigits, StripPadding, Letters, ReplaceAll, Repeat, CharCodes;
    assert CharCodes(binary) == bytes;
    var ds := ToDigits(bytes);
    var text, tail := Letters(ds, '+', '/'), Repeat('=', PaddingOf(|ds|));
    ReplaceInParts(text, tail);
    SwapAlphabet(ds);
    LastUrlLetter(ds);
    StripRestores(Letters(ds, '-', '_'), PaddingOf(|ds|));
  }

  lemma ReplaceInParts(text: string, tail: string)
    requires forall i :: 0 <= i < |tail| ==> tail[i] == '='
    ensures ReplaceAll(ReplaceAll(text + tail, '+', '-'), '/', '_')
              == ReplaceAll(ReplaceAll(text, '+', '-'), '/', '_') + tail
  {
    hide ReplaceAll;
  }

  lemma LastUrlLetter(ds: seq<Digit>)
    ensures var s := Letters(ds, '-', '_'); s == "" || s[|s| - 1] != '='
  {
    hide Letters;
  }

  lemma {:induction false} StripRestores(s: string, n: nat)
    requires s == "" || s[|s| - 1] != '='
    ensures StripPadding(s + Repeat('=', n)) == s
  {
    if n > 0 {
      StripRestores(s, n - 1);
      assert (s + Repeat('=', n))[..|s| + n - 1] == s + Repeat('=', n - 1);
    } else {
      assert s + Repeat('=', 0) == s;
    }
  }

  /** `padEnd` to a multiple of four. */
  function Repadded(value: string): string {
    var normalized := ReplaceAll(ReplaceAll(value, '-', '+'), '_', '/');
    normalized + Repeat('=', PaddingOf(|normalized|))
  }

  method Base64UrlToBuffer(value: string) returns (buffer: Option<seq<Byte>>)
    ensures buffer == Atob(Repadded(value))
  {
    hide Atob, ReplaceAll, Repeat;
    var normalized := ReplaceAll(ReplaceAll(value, '-', '+'), '_', '/');
    var length := (|normalized| + 3) / 4 * 4;
    PaddingTo(|normalized|);
    var padded := normalized + Repeat('=', length - |normalized|);
    var binary := Atob(padded);
    if binary.None? {
      return None;
    }
    var bytes := new Byte[|binary.value|](_ => 0);
    for index := 0 to |binary.value|
      invariant forall j :: 0 <= j < index ==> bytes[j] == binary.value[j]
    {
      bytes[index] := binary.value[index];
    }
    assert bytes[..] == binary.value;
    return Some(bytes[..]);
  }

  lemma PaddingTo(length: nat)
    ensures (length + 3) / 4 * 4 - length == PaddingOf(length)
  {
  }

  /** Replacing the two special letters of one alphabet gives the other. */
  lemma SwapAlphabet(ds: seq<Digit>)
    ensures ReplaceAll(ReplaceAll(Letters(ds, '-', '_'), '-', '+'), '_', '/') == Letters(ds, '+', '/')
    ensures ReplaceAll(ReplaceAll(Letters(ds, '+', '/'), '+', '-'), '/', '_') == Letters(ds, '-', '_')
  {
    hide Letter, Letters, ReplaceAll;
    forall i | 0 <= i < |ds|
      ensures ReplaceAll(ReplaceAll(Letters(ds, '-', '_'), '-', '+'), '_', '/')[i] == Letters(ds, '+', '/')[i]
      ensures ReplaceAll(ReplaceAll(Letters(ds, '+', '/'), '+', '-'), '/', '_')[i] == Letters(ds, '-', '_')[i]
    {
      SpecialLetters(ds[i]);
    }
  }

  lemma SpecialLetters(d: Digit)
    ensures d == 62 ==> Letter(d, '-', '_') == '-' && Letter(d, '+', '/') == '+'
    ensures d == 63 ==> Letter(d, '-', '_') == '_' && Letter(d, '+', '/') == '/'
    ensures d < 62 ==> Letter(d, '-', '_') == Letter(d, '+', '/') && Letter(d, '+', '/') !in "+/-_="
  {
  }

  lemma RepadDigits(ds: seq<Digit>)
    ensures Repadded(Letters(ds, '-', '_')) == Letters(ds, '+', '/') + Repeat('=', PaddingOf(|ds|))
  {
    hide Letters, ReplaceAll, Repeat;
    SwapAlphabet(ds);
  }

  /** Padding an encoding again gives back exactly the text `btoa` had produced. */
  lemma RepaddingRestores(b: seq<Byte>)
    ensures Repadded(Encoded(b)) == Letters(ToDigits(b), '+', '/') + Repeat('=', PaddingOf(|ToDigits(b)|))
  {
    RepadDigits(ToDigits(b));
  }

  /** Decoding undoes encoding on every byte sequence. */
  lemma RoundTrip(b: seq<Byte>)
    ensures Atob(Repadded(Encoded(b))) == Some(b)
  {
    hide ToDigits, FromDigits, Values, Letters, Repadded, Unpadded, WithoutSpaces;
    var ds := ToDigits(b);
    LettersWithoutSpaces(ds, PaddingOf(|ds|));
    DigitCount(b);
    RepaddingRestores(b);
    LastLetter(ds);
    UnpaddedRestores(Letters(ds, '+', '/'), PaddingOf(|ds|));
    ValuesOfLetters(ds);
    DigitsRoundTrip(b);
  }

  lemma LastLetter(ds: seq<Digit>)
    ensures var s := Letters(ds, '+', '/'); s == "" || s[|s| - 1] != '='
  {
  }

  lemma UnpaddedRestores(s: string, n: nat)
    requires n <= 2 && (|s| + n) % 4 == 0 && (s == "" ==> n == 0)
    requires s == "" || s[|s| - 1] != '='
    ensures Unpadded(s + Repeat('=', n)) == s
  {
    var p := s + Repeat('=', n);
    assert p[..|s|] == s;
  }

  // ---------------------------------------------------------------------------------------------
  // Texts that are encodings

  /** The text of digits decodes to their bytes; a lone last digit makes it an error. */
  lemma DecodeDigitText(ds: seq<Digit>)
    ensures Atob(Repadded(Letters(ds, '-', '_'))) == FromDigits(ds)
  {
    hide FromDigits, Values, Letters, Unpadded, Repadded, Repeat, WithoutSpaces;
    LettersWithoutSpaces(ds, PaddingOf(|ds|));
    var text := Letters(ds, '+', '/');
    RepadDigits(ds);
    LastLetter(ds);
    if |ds| % 4 == 1 {
      TriplePadding(text);
      BadLetter(text);
      LoneDigit(ds);
    } else {
      UnpaddedRestores(text, PaddingOf(|ds|));
      ValuesOfLetters(ds);
    }
  }

  lemma TriplePadding(text: string)
    requires |text| % 4 == 1
    ensures Unpadded(text + Repeat('=', 3)) == text + "="
  {
    var padded := text + Repeat('=', 3);
    assert padded[..|padded| - 2] == text + "=";
  }

  lemma {:induction false} BadLetter(s: string)
    ensures Values(s + "=") == None
  {
    if s != "" {
      BadLetter(s[1..]);
      assert (s + "=")[1..] == s[1..] + "=";
    }
  }

  lemma {:induction false} LoneDigit(ds: seq<Digit>)
    requires |ds| % 4 == 1
    ensures FromDigits(ds) == None
  {
    if |ds| > 1 {
      LoneDigit(ds[4..]);
    }
  }

  /** The bits of the last digit that carry no data are zero. */
  predicate CleanTail(ds: seq<Digit>) {
    match |ds| % 4
    case 0 => true
    case 1 => false
    case 2 => ds[|ds| - 1] % 16 == 0
    case _ => ds[|ds| - 1] % 4 == 0
  }

  /** A text of URL-safe letters survives decoding and encoding exactly when its length is not one more than
      a multiple of four and its unused bits are zero. */
  lemma TextRoundTripIff(ds: seq<Digit>)
    ensures var text := Letters(ds, '-', '_');
      (exists b :: Atob(Repadded(text)) == Some(b) && Encoded(b) == text) <==> CleanTail(ds)
  {
    hide FromDigits, ToDigits, Letters, Repadded, Atob, CleanTail;
    var text := Letters(ds, '-', '_');
    DecodeDigitText(ds);
    DigitsBackIff(ds);
    if FromDigits(ds).Some? {
      LettersInjective(ToDigits(FromDigits(ds).value), ds);
    }
  }

  lemma {:induction false} DigitsBackIff(ds: seq<Digit>)
    ensures CleanTail(ds) <==> FromDigits(ds).Some? && ToDigits(FromDigits(ds).value) == ds
  {
    hide ToDigits, FromDigits, CleanTail;
    if |ds| >= 4 {
      DigitsBackIff(ds[4..]);
      CleanTailSkips(ds);
      NothingSkips(ds);
      if FromDigits(ds[4..]).Some? {
        FourMoreDigits(ds);
      }
    } else {
      ShortDigitsBackIff(ds);
    }
  }

  lemma CleanTailSkips(ds: seq<Digit>)
    requires |ds| >= 4
    ensures CleanTail(ds) <==> CleanTail(ds[4..])
  {
    var rest := ds[4..];
    SameModulo(|rest|);
    assert |ds| > 4 ==> rest[|rest| - 1] == ds[|ds| - 1];
  }

  lemma SameModulo(n: nat)
    ensures (n + 4) % 4 == n % 4
  {
  }

  lemma NothingSkips(ds: seq<Digit>)
    requires |ds| >= 4
    ensures FromDigits(ds[4..]).None? ==> FromDigits(ds).None?
  {
    hide FirstByte, SecondByte, ThirdByte;
  }

  lemma ShortDigitsBackIff(ds: seq<Digit>)
    requires |ds| < 4
    ensures CleanTail(ds) <==> FromDigits(ds).Some? && ToDigits(FromDigits(ds).value) == ds
  {
    hide ToDigits, FromDigits;
    if |ds| == 3 {
      assert ds == [ds[0], ds[1], ds[2]];
      ThreeDigitsBack(ds[0], ds[1], ds[2]);
    } else if |ds| == 2 {
      assert ds == [ds[0], ds[1]];
      TwoDigitsBack(ds[0], ds[1]);
    } else {
      FewDigitsBack(ds);
    }
  }

  lemma FewDigitsBack(ds: seq<Digit>)
    requires |ds| < 2
    ensures |ds| == 0 <==> FromDigits(ds).Some? && ToDigits(FromDigits(ds).value) == ds
  {
  }

  lemma ThreeDigitsBack(d0: Digit, d1: Digit, d2: Digit)
    ensures FromDigits([d0, d1, d2]).Some?
    ensures ToDigits(FromDigits([d0, d1, d2]).value) == [d0, d1, d2] <==> d2 % 4 == 0
  {
    hide FirstDigit, SecondDigit, ThirdDigit, FourthDigit, FirstByte, SecondByte, ThirdByte;
    GroupOfDigits(d0, d1, d2, 0);
    var b := FromDigits([d0, d1, d2]).value;
    assert ToDigits(b)[2] == ThirdDigit(b[1], 0);
  }

  lemma TwoDigitsBack(d0: Digit, d1: Digit)
    ensures FromDigits([d0, d1]).Some?
    ensures ToDigits(FromDigits([d0, d1]).value) == [d0, d1] <==> d1 % 16 == 0
  {
    hide FirstDigit, SecondDigit, ThirdDigit, FourthDigit, FirstByte, SecondByte, ThirdByte;
    GroupOfDigits(d0, d1, 0, 0);
    var b := FromDigits([d0, d1]).value;
    assert ToDigits(b)[1] == SecondDigit(b[0], 0);
  }

  lemma FourMoreDigits(ds: seq<Digit>)
    requires |ds| >= 4 && FromDigits(ds[4..]).Some?
    ensures FromDigits(ds).Some?
    ensures ToDigits(FromDigits(ds).value) == ds <==> ToDigits(FromDigits(ds[4..]).value) == ds[4..]
  {
    hide ToDigits, FromDigits;
    FourDigitsRead(ds);
    FourDigitsWritten(ds, FromDigits(ds[4..]).value);
    assert ds == ds[..4] + ds[4..];
    assert (ds[..4] + ToDigits(FromDigits(ds[4..]).value))[4..] == ToDigits(FromDigits(ds[4..]).value);
  }

  function ThreeBytes(ds: seq<Digit>): (b: seq<Byte>)
    requires |ds| >= 4
  {
    [FirstByte(ds[0], ds[1]), SecondByte(ds[1], ds[2]), ThirdByte(ds[2], ds[3])]
  }

  lemma FourDigitsRead(ds: seq<Digit>)
    requires |ds| >= 4 && FromDigits(ds[4..]).Some?
    ensures FromDigits(ds) == Some(ThreeBytes(ds) + FromDigits(ds[4..]).value)
  {
    hide FirstByte, SecondByte, ThirdByte;
  }

  lemma FourDigitsWritten(ds: seq<Digit>, rest: seq<Byte>)
    requires |ds| >= 4
    ensures ToDigits(ThreeBytes(ds) + rest) == ds[..4] + ToDigits(rest)
  {
    hide FirstDigit, SecondDigit, ThirdDigit, FourthDigit, FirstByte, SecondByte, ThirdByte;
    GroupOfDigits(ds[0], ds[1], ds[2], ds[3]);
    assert (ThreeBytes(ds) + rest)[3..] == rest;
  }

  lemma LettersInjective(a: seq<Digit>, b: seq<Digit>)
    ensures Letters(a, '-', '_') == Letters(b, '-', '_') <==> a == b
  {
    hide Letters;
    if Letters(a, '-', '_') == Letters(b, '-', '_') {
      forall i | 0 <= i < |a| ensures a[i] == b[i] {
        assert Letters(a, '-', '_')[i] == Letters(b, '-', '_')[i];
      }
    }
  }
}
