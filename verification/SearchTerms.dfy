/** Adding a clause to a dashboard search box (public/admin-shared.js): terms are split at white space that
    is followed by an even number of double quotes. */
module SearchTerms {
  import opened Text

  predicate EvenQuotes(s: string) {
    s == "" || (EvenQuotes(s[1..]) != (s[0] == '"'))
  }

  /** `split(/\s+(?=(?:[^"]*"[^"]*")*[^"]*$)/u)`. A run of white space has one parity, so it separates as a
      whole or not at all. */
  function Split(s: string): (terms: seq<string>)
    ensures terms != []
    decreases |s|
  {
    if s == "" then [""]
    else if IsSpace(s[0]) && EvenQuotes(s[1..]) then
      TrimStartLaws(s[1..]);
      [""] + Split(TrimStart(s[1..]))
    else
      var rest := Split(s[1..]);
      [[s[0]] + rest[0]] + rest[1..]
  }

  function Join(terms: seq<string>): string {
    if |terms| == 0 then "" else if |terms| == 1 then terms[0] else terms[0] + " " + Join(terms[1..])
  }

  /** White space in the term is followed by an odd number of the term's quotes. */
  predicate Unbroken(t: string) {
    t == "" || (Unbroken(t[1..]) && (IsSpace(t[0]) ==> !EvenQuotes(t[1..])))
  }

  /** A term: not empty, quotes in pairs, white space only between quotes. */
  predicate Term(t: string) {
    t != "" && EvenQuotes(t) && Unbroken(t)
  }

  predicate Terms(terms: seq<string>) {
    forall i :: 0 <= i < |terms| ==> Term(terms[i])
  }

  // ---------------------------------------------------------------------------------------------
  // Parity of quotes, and the first term

  lemma {:induction false} EvenQuotesConcat(a: string, b: string)
    ensures EvenQuotes(a + b) <==> (EvenQuotes(a) <==> EvenQuotes(b))
  {
    if a == "" {
      assert a + b == b;
    } else {
      EvenQuotesConcat(a[1..], b);
      assert (a + b)[1..] == a[1..] + b;
    }
  }

  lemma {:induction false} TermEnds(t: string)
    requires t != "" && Unbroken(t)
    ensures !IsSpace(t[|t| - 1])
    ensures EvenQuotes(t) && t[0] != '"' ==> !IsSpace(t[0])
  {
    if |t| > 1 {
      TermEnds(t[1..]);
    }
  }

  lemma TermTrimmed(t: string)
    requires Term(t)
    ensures Trimmed(t)
  {
    TermEnds(t);
  }

  lemma {:induction false} SplitOne(t: string)
    requires Unbroken(t)
    ensures Split(t) == [t]
  {
    if t != "" {
      SplitOne(t[1..]);
      assert t == [t[0]] + t[1..];
    }
  }

  lemma {:induction false} SpacesHaveNoQuotes(gap: string, rest: string)
    requires AllSpaces(gap)
    ensures EvenQuotes(gap + rest) <==> EvenQuotes(rest)
  {
    if gap == "" {
      assert gap + rest == rest;
    } else {
      SpacesHaveNoQuotes(gap[1..], rest);
      assert (gap + rest)[1..] == gap[1..] + rest;
    }
  }

  /** White space of any length and kind separates a whole piece from what follows. */
  lemma {:induction false} SplitFirst(t: string, gap: string, rest: string)
    requires Unbroken(t) && gap != "" && AllSpaces(gap) && rest != "" && EvenQuotes(rest) && !IsSpace(rest[0])
    ensures Split(t + gap + rest) == [t] + Split(rest)
  {
    if t == "" {
      assert t + gap + rest == gap + rest;
      SplitGap(gap, rest);
    } else {
      SplitFirst(t[1..], gap, rest);
      TailParity(t[1..], gap, rest);
      SplitFirstCons(t, gap, rest);
    }
  }

  lemma TailParity(tail: string, gap: string, rest: string)
    requires AllSpaces(gap) && EvenQuotes(rest)
    ensures EvenQuotes(tail + gap + rest) <==> EvenQuotes(tail)
  {
    hide EvenQuotes;
    SpacesHaveNoQuotes(gap, rest);
    EvenQuotesConcat(tail, gap + rest);
    assert tail + gap + rest == tail + (gap + rest);
  }

  lemma SplitFirstCons(t: string, gap: string, rest: string)
    requires t != "" && !(IsSpace(t[0]) && EvenQuotes(t[1..] + gap + rest))
    requires Split(t[1..] + gap + rest) == [t[1..]] + Split(rest)
    ensures Split(t + gap + rest) == [t] + Split(rest)
  {
    hide Split, EvenQuotes, IsSpace;
    var tail := t[1..] + gap + rest;
    assert t + gap + rest == [t[0]] + tail;
    SplitCons(t[0], tail);
    assert ([t[1..]] + Split(rest))[1..] == Split(rest);
    assert [t[0]] + t[1..] == t;
  }

  lemma SplitCons(c: char, tail: string)
    requires !(IsSpace(c) && EvenQuotes(tail))
    ensures Split([c] + tail) == [[c] + Split(tail)[0]] + Split(tail)[1..]
  {
    hide EvenQuotes, IsSpace;
    assert ([c] + tail)[1..] == tail;
  }

  lemma SplitGap(gap: string, rest: string)
    requires gap != "" && AllSpaces(gap) && rest != "" && EvenQuotes(rest) && !IsSpace(rest[0])
    ensures Split(gap + rest) == [""] + Split(rest)
  {
    assert (gap + rest)[1..] == gap[1..] + rest;
    SpacesHaveNoQuotes(gap[1..], rest);
    TrimStartDrops(gap[1..], rest);
  }

  // ---------------------------------------------------------------------------------------------
  // Exactly when splitting undoes joining

  /** Not empty, no leading white space, and whole when it stands alone. */
  predicate Piece(t: string) {
    t != "" && !IsSpace(t[0]) && Unbroken(t)
  }

  /** Before text with an unpaired quote, the separator is missed or a quoted space becomes one. */
  lemma {:induction false} UnpairedQuoteAfter(t: string, rest: string)
    requires Unbroken(t) && !EvenQuotes(rest)
    ensures Split(t + " " + rest)[0] != t
  {
    var s := t + " " + rest;
    if t == "" {
      assert s[1..] == rest;
    } else {
      UnpairedQuoteAfter(t[1..], rest);
      assert s[1..] == t[1..] + " " + rest;
      EvenQuotesConcat(t[1..] + " ", rest);
      EvenQuotesConcat(t[1..], " ");
      var tail := Split(s[1..])[0];
      assert ([t[0]] + tail)[1..] == tail;
    }
  }

  predicate AllEven(terms: seq<string>) {
    forall i :: 0 <= i < |terms| ==> EvenQuotes(terms[i])
  }

  lemma {:induction false} JoinOfEven(terms: seq<string>)
    requires terms != [] && AllEven(terms[1..])
    ensures EvenQuotes(Join(terms)) <==> EvenQuotes(terms[0])
  {
    if |terms| > 1 {
      JoinOfEven(terms[1..]);
      EvenQuotesConcat(terms[0] + " ", Join(terms[1..]));
      EvenQuotesConcat(terms[0], " ");
      assert terms[1..][0] == terms[1];
    }
  }

  /** Pieces joined by spaces are recovered exactly when every one after the first has its quotes in pairs. */
  lemma {:induction false} SplitUndoesJoinIff(terms: seq<string>)
    requires terms != [] && forall i :: 0 <= i < |terms| ==> Piece(terms[i])
    ensures Split(Join(terms)) == terms <==> AllEven(terms[1..])
  {
    if |terms| == 1 {
      SplitOne(terms[0]);
      assert terms == [terms[0]];
    } else {
      var rest := terms[1..];
      var joined := Join(rest);
      SplitUndoesJoinIff(rest);
      assert joined != "" && joined[0] == rest[0][0];
      assert AllEven(rest) <==> EvenQuotes(rest[0]) && AllEven(rest[1..]) by {
        assert forall i :: 1 <= i < |rest| ==> rest[i] == rest[1..][i - 1];
        assert forall i :: 0 <= i < |rest[1..]| ==> rest[1..][i] == rest[i + 1];
      }
      if AllEven(rest[1..]) {
        JoinOfEven(rest);
      }
      assert terms == [terms[0]] + rest;
      if EvenQuotes(joined) {
        SplitFirst(terms[0], " ", joined);
        assert ([terms[0]] + Split(joined))[1..] == Split(joined);
      } else {
        UnpairedQuoteAfter(terms[0], joined);
      }
    }
  }

  /** In particular, terms are. */
  lemma SplitUndoesJoin(terms: seq<string>)
    requires terms != [] && Terms(terms)
    ensures Split(Join(terms)) == terms
  {
    forall i | 0 <= i < |terms| ensures Piece(terms[i]) {
      TermTrimmed(terms[i]);
    }
    SplitUndoesJoinIff(terms);
  }

  // ---------------------------------------------------------------------------------------------
  // Clauses

  function Escaped(value: string): string {
    if value == "" then ""
    else (if value[0] == '\\' then "\\\\" else if value[0] == '"' then "\\\"" else [value[0]]) + Escaped(value[1..])
  }

  /** What a reader of quoted values makes of the escapes. */
  function Unescaped(text: string): string {
    if text == "" then ""
    else if text[0] == '\\' && |text| > 1 then [text[1]] + Unescaped(text[2..])
    else [text[0]] + Unescaped(text[1..])
  }

  /** Escaping loses nothing, and no quote of the value is left to close the quoted text. */
  lemma {:induction false} EscapedReads(value: string)
    ensures Unescaped(Escaped(value)) == value
  {
    if value != "" {
      EscapedReads(value[1..]);
      var rest := Escaped(value[1..]);
      if value[0] == '\\' || value[0] == '"' {
        assert Escaped(value)[2..] == rest;
      } else {
        assert Escaped(value)[1..] == rest;
      }
    }
  }

  function QuoteSearchValue(value: string): string {
    "\"" + (Escaped(value) + "\"")
  }

  /** `searchClause`; the empty value asks for the field's absence or presence. */
  function SearchClause(field: string, value: string, exclude: bool): string {
    if value == "" then (if exclude then "" else "-") + (field + ":*")
    else (if exclude then "-" else "") + (field + (":" + QuoteSearchValue(value)))
  }

  predicate Plain(s: string) {
    forall i :: 0 <= i < |s| ==> s[i] != '"' && !IsSpace(s[i])
  }

  predicate QuoteFree(s: string) {
    forall i :: 0 <= i < |s| ==> s[i] != '"'
  }

  lemma {:induction false} PlainPrefix(a: string, b: string)
    requires Plain(a)
    ensures Unbroken(a + b) <==> Unbroken(b)
    ensures EvenQuotes(a + b) <==> EvenQuotes(b)
  {
    if a == "" {
      assert a + b == b;
    } else {
      PlainPrefix(a[1..], b);
      assert (a + b)[1..] == a[1..] + b;
    }
  }

  /** Every white space of the value is followed by an even number of its quotes. */
  predicate SpacesOutsideQuotes(value: string) {
    value == "" || (SpacesOutsideQuotes(value[1..]) && (IsSpace(value[0]) ==> EvenQuotes(value[1..])))
  }

  /** Escaping adds no quote and no white space, so with the closing quote every parity is turned round. */
  lemma {:induction false} EscapedText(value: string)
    ensures EvenQuotes(Escaped(value) + "\"") <==> !EvenQuotes(value)
    ensures Unbroken(Escaped(value) + "\"") <==> SpacesOutsideQuotes(value)
  {
    if value == "" {
      assert "\""[1..] == "" && Escaped(value) + "\"" == "\"";
    } else {
      var rest := Escaped(value[1..]) + "\"";
      EscapedText(value[1..]);
      if value[0] == '\\' {
        PlainPrefix("\\\\", rest);
        assert Escaped(value) + "\"" == "\\\\" + rest;
      } else if value[0] == '"' {
        PlainPrefix("\\", "\"" + rest);
        assert ("\"" + rest)[1..] == rest;
        assert Escaped(value) + "\"" == "\\" + ("\"" + rest);
      } else {
        assert ([value[0]] + rest)[1..] == rest;
        assert Escaped(value) + "\"" == [value[0]] + rest;
      }
    }
  }

  /** What a clause built from a plain field name and any value is: a whole piece exactly if the value's white space
      is outside its quotes, and a term exactly if the value's quotes are in pairs as well. */
  lemma SearchClauseIff(field: string, value: string, exclude: bool)
    requires Plain(field)
    ensures Piece(SearchClause(field, value, exclude)) <==> SpacesOutsideQuotes(value)
    ensures EvenQuotes(SearchClause(field, value, exclude)) <==> EvenQuotes(value)
  {
    hide Escaped, Piece, EvenQuotes, Unbroken, SpacesOutsideQuotes;
    if value == "" {
      QuoteFreeValue(value);
      PlainClause((if exclude then "" else "-") + (field + ":*"));
    } else {
      var head, text := (if exclude then "-" else "") + (field + ":"), Escaped(value) + "\"";
      EscapedText(value);
      QuotedClause(head, text);
      assert SearchClause(field, value, exclude) == head + ("\"" + text);
    }
  }

  /** In particular, a clause from a value without quotes is a term. */
  lemma SearchClauseIsTerm(field: string, value: string, exclude: bool)
    requires Plain(field) && QuoteFree(value)
    ensures Term(SearchClause(field, value, exclude))
  {
    hide SearchClause;
    QuoteFreeValue(value);
    SearchClauseIff(field, value, exclude);
  }

  lemma {:induction false} QuoteFreeValue(value: string)
    requires QuoteFree(value)
    ensures EvenQuotes(value) && SpacesOutsideQuotes(value)
  {
    if value != "" {
      QuoteFreeValue(value[1..]);
    }
  }

  lemma PlainClause(s: string)
    requires Plain(s) && s != ""
    ensures Piece(s) && EvenQuotes(s)
  {
    PlainPrefix(s, "");
    assert s + "" == s;
  }

  lemma QuotedClause(head: string, text: string)
    requires Plain(head) && head != ""
    ensures Piece(head + ("\"" + text)) <==> Unbroken(text)
    ensures EvenQuotes(head + ("\"" + text)) <==> !EvenQuotes(text)
  {
    assert ("\"" + text)[1..] == text;
    PlainPrefix(head, "\"" + text);
  }

  // ---------------------------------------------------------------------------------------------
  // Adding a clause

  function Opposite(clause: string): string {
    if clause != "" && clause[0] == '-' then clause[1..] else "-" + clause
  }

  /** Including and excluding one value of one field are each other's opposite. */
  lemma OppositeClause(field: string, value: string, exclude: bool)
    requires field == "" || field[0] != '-'
    ensures Opposite(SearchClause(field, value, exclude)) == SearchClause(field, value, !exclude)
  {
    hide QuoteSearchValue, Opposite;
    var body := if value == "" then field + ":*" else field + (":" + QuoteSearchValue(value));
    assert "" + body == body;
    Dashed(body);
  }

  lemma Dashed(body: string)
    requires body != "" && body[0] != '-'
    ensures Opposite(body) == "-" + body && Opposite("-" + body) == body
  {
  }

  function TermsOf(value: string): seq<string> {
    if Trim(value) == "" then [] else Split(Trim(value))
  }

  /** The terms other than the clause and its opposite, in order. */
  function Kept(terms: seq<string>, clause: string): (kept: seq<string>)
    ensures forall t :: t in kept <==> t in terms && t != clause && t != Opposite(clause)
  {
    if terms == [] then []
    else (if terms[0] != clause && terms[0] != Opposite(clause) then [terms[0]] else []) + Kept(terms[1..], clause)
  }

  /** A term is dropped if it is the clause, or differs from it by a leading dash alone; the others keep their order. */
  lemma KeptOne(t: string, clause: string)
    ensures Kept([t], clause) ==
            if t == clause || clause == "-" + t || (t == "-" + clause && (clause == "" || clause[0] != '-'))
            then [] else [t]
  {
    hide Opposite;
    IsOpposite(t, clause);
  }

  lemma IsOpposite(t: string, clause: string)
    ensures t == Opposite(clause) <==> clause == "-" + t || (t == "-" + clause && (clause == "" || clause[0] != '-'))
  {
    if clause != "" && clause[0] == '-' {
      assert clause == "-" + clause[1..];
      if clause == "-" + t {
        assert clause[1..] == t;
      }
    }
  }

  lemma {:induction false} KeptConcat(a: seq<string>, b: seq<string>, clause: string)
    ensures Kept(a + b, clause) == Kept(a, clause) + Kept(b, clause)
  {
    if a == [] {
      assert a + b == b;
    } else {
      KeptConcat(a[1..], b, clause);
      KeptConcatCons(a, b, clause);
    }
  }

  lemma KeptConcatCons(a: seq<string>, b: seq<string>, clause: string)
    requires a != [] && Kept(a[1..] + b, clause) == Kept(a[1..], clause) + Kept(b, clause)
    ensures Kept(a + b, clause) == Kept(a, clause) + Kept(b, clause)
  {
    hide Kept, Opposite;
    KeptCons(a, clause);
    KeptCons(a + b, clause);
    assert (a + b)[1..] == a[1..] + b;
  }

  lemma KeptCons(terms: seq<string>, clause: string)
    requires terms != []
    ensures Kept(terms, clause) ==
            (if terms[0] != clause && terms[0] != Opposite(clause) then [terms[0]] else []) + Kept(terms[1..], clause)
  {
    hide Opposite;
  }

  class SearchInput {
    var value: string

    constructor (value: string)
      ensures this.value == value
    {
      this.value := value;
    }

    method AddSearchClause(clause: string)
      modifies this
      ensures value == Join(Kept(TermsOf(old(value)), clause) + [clause])
    {
      hide TermsOf, Join, Opposite, Kept;
      KeptNone(clause);
      var terms := TermsOf(value);
      var kept := [];
      for i := 0 to |terms|
        invariant Kept(terms, clause) == kept + Kept(terms[i..], clause)
      {
        KeptNext(terms, i, kept, clause);
        if terms[i] != clause && terms[i] != Opposite(clause) {
          kept := kept + [terms[i]];
        }
      }
      assert terms[|terms|..] == [] && kept + [] == kept;
      value := Join(kept + [clause]);
    }
  }

  lemma KeptNone(clause: string)
    ensures Kept([], clause) == []
  {
  }

  lemma KeptNext(terms: seq<string>, i: nat, kept: seq<string>, clause: string)
    requires i < |terms| && Kept(terms, clause) == kept + Kept(terms[i..], clause)
    ensures var keep := terms[i] != clause && terms[i] != Opposite(clause);
      Kept(terms, clause) == (if keep then kept + [terms[i]] else kept) + Kept(terms[i + 1..], clause)
  {
    hide Opposite;
    assert terms[i..][1..] == terms[i + 1..];
  }

  /** What splitting any box text gives: whole pieces, all but the first with their quotes in pairs. */
  predicate Pieces(terms: seq<string>) {
    (forall i :: 0 <= i < |terms| ==> Piece(terms[i])) && forall i :: 1 <= i < |terms| ==> EvenQuotes(terms[i])
  }

  lemma {:induction false} TrimStartParity(s: string)
    ensures EvenQuotes(TrimStart(s)) <==> EvenQuotes(s)
    ensures s != "" && !IsSpace(s[|s| - 1]) ==> TrimStart(s) != "" && TrimStart(s)[|TrimStart(s)| - 1] == s[|s| - 1]
  {
    if s != "" && IsSpace(s[0]) {
      TrimStartParity(s[1..]);
    }
  }

  lemma {:induction false} SplitPieces(s: string)
    requires s == "" || !IsSpace(s[|s| - 1])
    ensures var terms := Split(s);
      && Unbroken(terms[0]) && (EvenQuotes(terms[0]) <==> EvenQuotes(s))
      && (s != "" && !IsSpace(s[0]) ==> terms[0] != "" && terms[0][0] == s[0])
      && forall i :: 1 <= i < |terms| ==> Piece(terms[i]) && EvenQuotes(terms[i])
    decreases |s|
  {
    if s != "" {
      var tail := s[1..];
      if IsSpace(s[0]) && EvenQuotes(tail) {
        TrimStartLaws(tail);
        TrimStartParity(tail);
        SplitPieces(TrimStart(tail));
      } else {
        SplitPieces(tail);
        assert ([s[0]] + Split(tail)[0])[1..] == Split(tail)[0];
      }
    }
  }

  lemma TermsOfPieces(value: string)
    ensures Pieces(TermsOf(value))
  {
    TrimIsTrimmed(value);
    if Trim(value) != "" {
      SplitPieces(Trim(value));
    }
  }

  lemma {:induction false} JoinEnds(terms: seq<string>)
    requires terms != [] && forall i :: 0 <= i < |terms| ==> Piece(terms[i])
    ensures Join(terms) != "" && Trimmed(Join(terms)) && Join(terms)[0] == terms[0][0]
  {
    TermEnds(terms[0]);
    if |terms| > 1 {
      JoinEnds(terms[1..]);
    }
  }

  lemma TermsOfJoinIff(terms: seq<string>)
    requires terms != [] && forall i :: 0 <= i < |terms| ==> Piece(terms[i])
    ensures TermsOf(Join(terms)) == terms <==> AllEven(terms[1..])
  {
    TrimIsTrimmed(Join(terms));
    JoinEnds(terms);
    SplitUndoesJoinIff(terms);
  }

  lemma {:induction false} KeptEven(terms: seq<string>, clause: string)
    requires AllEven(terms)
    ensures AllEven(Kept(terms, clause))
  {
    forall i | 0 <= i < |Kept(terms, clause)| ensures EvenQuotes(Kept(terms, clause)[i]) {
      assert Kept(terms, clause)[i] in Kept(terms, clause);
    }
  }

  lemma KeptPieces(terms: seq<string>, clause: string)
    requires Pieces(terms) && Piece(clause)
    ensures forall i :: 0 <= i < |Kept(terms, clause)| ==> Piece(Kept(terms, clause)[i])
    ensures AllEven((Kept(terms, clause) + [clause])[1..]) <==> Kept(terms, clause) == [] || EvenQuotes(clause)
  {
    var kept := Kept(terms, clause);
    forall i | 0 <= i < |kept| ensures Piece(kept[i]) {
      assert kept[i] in kept;
    }
    if terms != [] {
      KeptEven(terms[1..], clause);
      assert forall i :: 1 <= i < |kept| ==> EvenQuotes(kept[i]);
    }
    if kept != [] {
      assert (kept + [clause])[|kept|] == clause && (kept + [clause])[1..][|kept| - 1] == clause;
    }
  }

  /** Adding a clause to a search box, whatever it held, keeps the other terms and the clause apart exactly if the
      clause is a whole piece and, unless it is alone, has its quotes in pairs. */
  lemma AddClauseIff(value: string, clause: string)
    ensures var kept := Kept(TermsOf(value), clause);
      TermsOf(Join(kept + [clause])) == kept + [clause] <==> Piece(clause) && (kept == [] || EvenQuotes(clause))
  {
    hide TermsOf;
    var kept := Kept(TermsOf(value), clause);
    TermsOfPieces(value);
    TermsOfPieces(Join(kept + [clause]));
    if Piece(clause) {
      KeptPieces(TermsOf(value), clause);
      TermsOfJoinIff(kept + [clause]);
    } else {
      assert (kept + [clause])[|kept|] == clause;
    }
  }

  /** Then the clause is there once and last, after the other terms in order, its opposite is not, and adding the
      clause again changes nothing. */
  lemma AddClauseLaws(value: string, clause: string)
    requires Piece(clause) && (Kept(TermsOf(value), clause) == [] || EvenQuotes(clause))
    ensures var terms := TermsOf(value);
      var value' := Join(Kept(terms, clause) + [clause]);
      && TermsOf(value') == Kept(terms, clause) + [clause]
      && clause !in Kept(terms, clause) && Opposite(clause) !in TermsOf(value')
      && (if clause[0] == '-' then clause[1..] !in TermsOf(value') else "-" + clause !in TermsOf(value'))
      && Join(Kept(TermsOf(value'), clause) + [clause]) == value'
  {
    hide TermsOf, Join, EvenQuotes, Unbroken;
    var kept := Kept(TermsOf(value), clause);
    AddClauseIff(value, clause);
    KeptLast(kept, clause);
  }

  /** So adding one of the two clauses of a field and a value leaves that one, once and last, and not the other. */
  lemma OneOfThePair(box: string, field: string, value: string, exclude: bool)
    requires Plain(field) && (field == "" || field[0] != '-') && SpacesOutsideQuotes(value) && EvenQuotes(value)
    ensures var clause := SearchClause(field, value, exclude);
      var terms := TermsOf(Join(Kept(TermsOf(box), clause) + [clause]));
      && |terms| > 0 && terms[|terms| - 1] == clause && clause !in terms[..|terms| - 1]
      && SearchClause(field, value, !exclude) !in terms
  {
    hide SearchClause, TermsOf, Join, Opposite, Piece, EvenQuotes, SpacesOutsideQuotes;
    var clause := SearchClause(field, value, exclude);
    SearchClauseIff(field, value, exclude);
    OppositeClause(field, value, exclude);
    AddClauseLaws(box, clause);
    var kept := Kept(TermsOf(box), clause);
    assert (kept + [clause])[..|kept|] == kept;
  }

  lemma {:induction false} KeptLast(kept: seq<string>, clause: string)
    requires clause !in kept && Opposite(clause) !in kept
    ensures Kept(kept + [clause], clause) == kept
  {
    if kept != [] {
      KeptLast(kept[1..], clause);
      assert (kept + [clause])[1..] == kept[1..] + [clause];
    }
  }
}
