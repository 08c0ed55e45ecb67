/** White space and trimming as JavaScript strings define them, and what a browser's textarea does to line breaks. */
module Text {

  /** The characters of `\s`, which `String.prototype.trim` removes. */
  predicate IsSpace(c: char) {
    || c == ' ' || '\t' <= c <= '\r' || c == '\U{A0}' || c == '\U{1680}' || '\U{2000}' <= c <= '\U{200A}'
    || c == '\U{2028}' || c == '\U{2029}' || c == '\U{202F}' || c == '\U{205F}' || c == '\U{3000}' || c == '\U{FEFF}'
  }

  function TrimStart(s: string): string {
    if s != "" && IsSpace(s[0]) then TrimStart(s[1..]) else s
  }

  function TrimEnd(s: string): string {
    if s != "" && IsSpace(s[|s| - 1]) then TrimEnd(s[..|s| - 1]) else s
  }

  function Trim(s: string): string {
    TrimEnd(TrimStart(s))
  }

  /** Neither end is white space. */
  predicate Trimmed(s: string) {
    s == "" || (!IsSpace(s[0]) && !IsSpace(s[|s| - 1]))
  }

  lemma {:induction false} TrimIsTrimmed(s: string)
    ensures Trimmed(Trim(s))
    ensures Trim(s) == s <==> Trimmed(s)
  {
    TrimStartLaws(s);
    TrimEndLaws(TrimStart(s));
  }

  lemma {:induction false} TrimStartLaws(s: string)
    ensures var t := TrimStart(s); |t| <= |s| && (t == "" || !IsSpace(t[0]))
    ensures TrimStart(s) == s <==> s == "" || !IsSpace(s[0])
  {
    if s != "" && IsSpace(s[0]) {
      TrimStartLaws(s[1..]);
    }
  }

  lemma {:induction false} TrimEndLaws(s: string)
    ensures var t := TrimEnd(s); t <= s && (t == "" || !IsSpace(t[|t| - 1]))
    ensures TrimEnd(s) == s <==> s == "" || !IsSpace(s[|s| - 1])
  {
    if s != "" && IsSpace(s[|s| - 1]) {
      TrimEndLaws(s[..|s| - 1]);
    }
  }

  lemma {:induction false} TrimEndKeepsFirst(s: string)
    requires s != "" && !IsSpace(s[0])
    ensures TrimEnd(s) != ""
  {
    if IsSpace(s[|s| - 1]) {
      TrimEndKeepsFirst(s[..|s| - 1]);
    }
  }

  predicate AllSpaces(s: string) {
    forall i :: 0 <= i < |s| ==> IsSpace(s[i])
  }

  lemma {:induction false} TrimStartDrops(pre: string, s: string)
    requires AllSpaces(pre) && (s == "" || !IsSpace(s[0]))
    ensures TrimStart(pre + s) == s
  {
    if pre != "" {
      TrimStartDrops(pre[1..], s);
      assert (pre + s)[1..] == pre[1..] + s;
    } else {
      assert pre + s == s;
    }
  }

  lemma {:induction false} TrimStartSplits(s: string) returns (pre: string)
    ensures AllSpaces(pre) && s == pre + TrimStart(s) && (TrimStart(s) == "" || !IsSpace(TrimStart(s)[0]))
  {
    if s != "" && IsSpace(s[0]) {
      var rest := TrimStartSplits(s[1..]);
      pre := [s[0]] + rest;
    } else {
      pre := "";
    }
  }

  lemma {:induction false} TrimEndSplits(s: string) returns (post: string)
    ensures AllSpaces(post) && s == TrimEnd(s) + post
  {
    if s != "" && IsSpace(s[|s| - 1]) {
      var rest := TrimEndSplits(s[..|s| - 1]);
      post := rest + [s[|s| - 1]];
    } else {
      post := "";
    }
  }

  /** Trimming takes away white space at both ends and nothing else. */
  lemma TrimSplits(s: string) returns (pre: string, post: string)
    ensures AllSpaces(pre) && AllSpaces(post) && s == pre + Trim(s) + post && Trimmed(Trim(s))
  {
    pre := TrimStartSplits(s);
    post := TrimEndSplits(TrimStart(s));
    TrimIsTrimmed(s);
  }

  /** The code points of white space and line terminators in ECMAScript. */
  lemma SpaceCodes(c: char)
    ensures IsSpace(c) <==> c as int in {9, 10, 11, 12, 13, 32, 160, 5760, 8192, 8193, 8194, 8195, 8196, 8197, 8198,
                                         8199, 8200, 8201, 8202, 8232, 8233, 8239, 8287, 12288, 65279}
  {
  }

  /** The value of a textarea that was given the text s: CR LF and lone CR read back as LF. */
  function Normalized(s: string): string {
    if s == "" then ""
    else if s[0] != '\r' then [s[0]] + Normalized(s[1..])
    else "\n" + Normalized(if |s| > 1 && s[1] == '\n' then s[2..] else s[1..])
  }

  lemma {:induction false} NormalizedIff(s: string)
    ensures '\r' !in Normalized(s)
    ensures Normalized(s) == s <==> '\r' !in s
  {
    if s != "" {
      NormalizedIff(s[1..]);
      if s[0] != '\r' {
        assert ([s[0]] + Normalized(s[1..]))[1..] == Normalized(s[1..]);
      } else if |s| > 1 && s[1] == '\n' {
        NormalizedIff(s[2..]);
      }
    }
  }

  lemma NormalizedTwice(s: string)
    ensures Normalized(Normalized(s)) == Normalized(s)
  {
    NormalizedIff(s);
    NormalizedIff(Normalized(s));
  }

  /** The lines of a text whose lines end in CR LF, CR or LF. */
  function AllLines(s: string): (lines: seq<string>)
    ensures lines != []
  {
    if s == "" then [""]
    else if s[0] == '\n' then [""] + AllLines(s[1..])
    else if s[0] == '\r' then [""] + AllLines(if |s| > 1 && s[1] == '\n' then s[2..] else s[1..])
    else
      var rest := AllLines(s[1..]);
      [[s[0]] + rest[0]] + rest[1..]
  }

  /** A textarea keeps the lines of its text. */
  lemma {:induction false} NormalizedKeepsLines(s: string)
    ensures AllLines(Normalized(s)) == AllLines(s)
    decreases |s|
  {
    if s != "" {
      var rest := if s[0] == '\r' && |s| > 1 && s[1] == '\n' then s[2..] else s[1..];
      NormalizedKeepsLines(rest);
      assert Normalized(s)[1..] == Normalized(rest);
    }
  }
}
