/** Header assignments in the dashboard's policy editor (public/admin.js): one `Name: value` per line. */
module HeaderAssignments {
  import opened Text

  datatype Assignment = Assignment(name: string, value: string)
  datatype Result<T> = Ok(value: T) | LineError(line: nat)

  /** `split(/\r?\n/u)`. */
  function Lines(s: string): (lines: seq<string>)
    ensures lines != []
  {
    if s == "" then [""]
    else if s[0] == '\n' then [""] + Lines(s[1..])
    else if |s| >= 2 && s[0] == '\r' && s[1] == '\n' then [""] + Lines(s[2..])
    else
      var rest := Lines(s[1..]);
      [[s[0]] + rest[0]] + rest[1..]
  }

  /** `map(trim).filter(Boolean)`. */
  function Meaningful(lines: seq<string>): seq<string> {
    if lines == [] then []
    else (if Trim(lines[0]) != "" then [Trim(lines[0])] else []) + Meaningful(lines[1..])
  }

  /** `indexOf(":")`, or the length when there is none. */
  function ColonAt(s: string): (k: nat)
    ensures k <= |s| && (k < |s| ==> s[k] == ':') && forall i :: 0 <= i < k ==> s[i] != ':'
  {
    if s == "" || s[0] == ':' then 0 else 1 + ColonAt(s[1..])
  }

  /** The lines as assignments; number is the line number of the first one in messages. */
  function Assignments(lines: seq<string>, number: nat): Result<seq<Assignment>> {
    if lines == [] then Ok([])
    else
      var line, k := lines[0], ColonAt(lines[0]);
      if k == |line| || k < 1 then LineError(number)
      else match Assignments(lines[1..], number + 1)
        case Ok(rest) => Ok([Assignment(Trim(line[..k]), Trim(line[k + 1..]))] + rest)
        case LineError(n) => LineError(n)
  }

  /** The line's first colon is at k, after a name. */
  predicate NamedAt(line: string, k: nat) {
    0 < k < |line| && line[k] == ':' && NoColon(line[..k])
  }

  predicate HasName(line: string) {
    exists k: nat :: k < |line| && NamedAt(line, k)
  }

  /** a is what stands before and after the first colon, trimmed. */
  predicate Reads(line: string, a: Assignment) {
    exists k: nat :: k < |line| && NamedAt(line, k) && a == Assignment(Trim(line[..k]), Trim(line[k + 1..]))
  }

  lemma ColonDecides(line: string)
    ensures HasName(line) <==> 1 <= ColonAt(line) < |line|
    ensures HasName(line) ==>
              var k := ColonAt(line); Reads(line, Assignment(Trim(line[..k]), Trim(line[k + 1..])))
  {
    hide Trim, ColonAt;
    var k := ColonAt(line);
    if 1 <= k < |line| {
      assert NamedAt(line, k);
    }
    forall j: nat | NamedAt(line, j) ensures j == k {
      assert forall i :: 0 <= i < j ==> line[i] == line[..j][i];
    }
  }

  /** Otherwise every line is read, in order. */
  lemma {:induction false} AssignmentsRead(lines: seq<string>, number: nat)
    requires Assignments(lines, number).Ok?
    ensures var l := Assignments(lines, number).value;
      |l| == |lines| && forall i :: 0 <= i < |l| ==> Reads(lines[i], l[i])
  {
    hide HasName, Reads, Trim, ColonAt;
    if lines != [] {
      ColonDecides(lines[0]);
      AssignmentsRead(lines[1..], number + 1);
      assert forall i :: 1 <= i < |lines| ==> lines[i] == lines[1..][i - 1];
    }
  }

  /** The first line without a colon, or with one at its start, is reported with its number. */
  lemma {:induction false} FirstBadLine(lines: seq<string>, number: nat)
    ensures Assignments(lines, number).Ok? <==> forall i :: 0 <= i < |lines| ==> HasName(lines[i])
    ensures Assignments(lines, number).LineError? ==>
              var n := Assignments(lines, number).line - number;
              0 <= n < |lines| && !HasName(lines[n]) && forall i :: 0 <= i < n ==> HasName(lines[i])
  {
    hide HasName, Trim, ColonAt;
    if lines != [] {
      ColonDecides(lines[0]);
      FirstBadLine(lines[1..], number + 1);
      assert forall i :: 1 <= i < |lines| ==> lines[i] == lines[1..][i - 1];
      assert forall i :: 0 <= i < |lines| - 1 ==> lines[1..][i] == lines[i + 1];
    }
  }

  /** `parseHeaderAssignments` of a textarea that was given the text. */
  function Parse(text: string): Result<seq<Assignment>> {
    Assignments(Meaningful(Lines(Normalized(text))), 1)
  }

  function FormatOne(a: Assignment): string {
    a.name + ": " + a.value
  }

  function Format(assignments: seq<Assignment>): string {
    if |assignments| == 0 then ""
    else if |assignments| == 1 then FormatOne(assignments[0])
    else FormatOne(assignments[0]) + "\n" + Format(assignments[1..])
  }

  /** A clean list is written one `Name: value` a line, in order. */
  lemma {:induction false} FormatIs(l: seq<Assignment>)
    requires l != [] && AllClean(l)
    ensures |Lines(Format(l))| == |l|
    ensures forall i :: 0 <= i < |l| ==> Lines(Format(l))[i] == l[i].name + ": " + l[i].value
  {
    CleanLine(l[0]);
    if |l| == 1 {
      OnlyLine(FormatOne(l[0]));
    } else {
      FormatIs(l[1..]);
      FirstLine(FormatOne(l[0]), Format(l[1..]));
    }
  }

  predicate OneLine(s: string) {
    forall i :: 0 <= i < |s| ==> s[i] != '\n' && s[i] != '\r'
  }

  predicate NoColon(s: string) {
    forall i :: 0 <= i < |s| ==> s[i] != ':'
  }

  /** An assignment the text form can carry. */
  predicate Clean(a: Assignment) {
    a.name != "" && Trimmed(a.name) && NoColon(a.name) && OneLine(a.name) && Trimmed(a.value) && OneLine(a.value)
  }

  predicate AllClean(l: seq<Assignment>) {
    forall i :: 0 <= i < |l| ==> Clean(l[i])
  }

  // ---------------------------------------------------------------------------------------------
  // Parsing undoes formatting

  lemma {:induction false} FirstLine(line: string, rest: string)
    requires OneLine(line)
    ensures Lines(line + "\n" + rest) == [line] + Lines(rest)
  {
    var s := line + "\n" + rest;
    if line == "" {
      assert s[1..] == rest;
    } else {
      FirstLine(line[1..], rest);
      assert s[1..] == line[1..] + "\n" + rest;
      assert line == [line[0]] + line[1..];
    }
  }

  /** A carriage return before the newline belongs to the line break. */
  lemma {:induction false} FirstLineOfTwo(line: string, rest: string)
    requires OneLine(line)
    ensures Lines(line + "\r\n" + rest) == [line] + Lines(rest)
  {
    var s := line + "\r\n" + rest;
    if line == "" {
      assert s[2..] == rest;
    } else {
      FirstLineOfTwo(line[1..], rest);
      assert s[1..] == line[1..] + "\r\n" + rest;
      assert line == [line[0]] + line[1..];
    }
  }

  lemma {:induction false} OnlyLine(line: string)
    requires OneLine(line)
    ensures Lines(line) == [line]
  {
    if line != "" {
      OnlyLine(line[1..]);
      assert line == [line[0]] + line[1..];
    }
  }

  /** The formatted line is cut back into its parts, whether or not the value is empty. */
  lemma CleanLine(a: Assignment)
    requires Clean(a)
    ensures OneLine(FormatOne(a))
    ensures var line := Trim(FormatOne(a));
      && line != "" && ColonAt(line) == |a.name| < |line|
      && Trim(line[..|a.name|]) == a.name && Trim(line[|a.name| + 1..]) == a.value
  {
    hide Trim, ColonAt;
    if a.value == "" {
      EmptyValueLine(a.name);
      assert FormatOne(a) == a.name + ": ";
      TrimIsTrimmed("");
    } else {
      ValueLine(a.name, a.value);
    }
    TrimIsTrimmed(a.name);
  }

  lemma EmptyValueLine(name: string)
    requires name != "" && Trimmed(name) && NoColon(name)
    ensures var line := Trim(name + ": ");
      line == name + ":" && ColonAt(line) == |name| && line[..|name|] == name && line[|name| + 1..] == ""
  {
    var line := name + ":";
    assert name + ": " == line + " ";
    TrimDropsSpace(line);
    ColonIs(line, |name|);
  }

  lemma ValueLine(name: string, value: string)
    requires name != "" && Trimmed(name) && NoColon(name) && value != "" && Trimmed(value)
    ensures var line := name + ": " + value;
      Trim(line) == line && ColonAt(line) == |name| && line[..|name|] == name && Trim(line[|name| + 1..]) == value
  {
    var line := name + ": " + value;
    TrimIsTrimmed(line);
    ColonIs(line, |name|);
    assert line[|name| + 1..] == " " + value;
    assert (" " + value)[1..] == value;
    TrimIsTrimmed(value);
    TrimStartLaws(value);
  }

  lemma TrimDropsSpace(s: string)
    requires s != "" && Trimmed(s)
    ensures Trim(s + " ") == s
  {
    assert (s + " ")[..|s|] == s;
    TrimEndLaws(s);
  }

  lemma ColonIs(s: string, k: nat)
    requires k < |s| && s[k] == ':' && NoColon(s[..k])
    ensures ColonAt(s) == k
  {
    assert forall i :: 0 <= i < k ==> s[i] == s[..k][i];
  }

  lemma {:induction false} ParseOfFormat(l: seq<Assignment>, number: nat)
    requires AllClean(l)
    ensures Assignments(Meaningful(Lines(Format(l))), number) == Ok(l)
  {
    hide Lines, Meaningful, Trim, ColonAt;
    if |l| == 0 {
      NoLines();
    } else {
      ParseOfFormat(l[1..], number + 1);
      MeaningfulOfFormat(l);
      CleanLine(l[0]);
      var lines := Meaningful(Lines(Format(l)));
      assert lines[1..] == Meaningful(Lines(Format(l[1..])));
      assert l == [l[0]] + l[1..];
    }
  }

  lemma NoLines()
    ensures Meaningful(Lines("")) == []
  {
    TrimIsTrimmed("");
  }

  /** The formatted lines are the trimmed lines of the single assignments. */
  lemma MeaningfulOfFormat(l: seq<Assignment>)
    requires l != [] && AllClean(l)
    ensures Meaningful(Lines(Format(l))) == [Trim(FormatOne(l[0]))] + Meaningful(Lines(Format(l[1..])))
  {
    hide Trim, ColonAt;
    var line := FormatOne(l[0]);
    CleanLine(l[0]);
    if |l| == 1 {
      OnlyLine(line);
      NoLines();
      assert Meaningful([line]) == [Trim(line)];
    } else {
      FirstLine(line, Format(l[1..]));
      assert Lines(Format(l))[1..] == Lines(Format(l[1..]));
    }
  }

  // ---------------------------------------------------------------------------------------------
  // Parsing yields only what formatting can carry

  lemma {:induction false} LinesAreLines(s: string)
    requires '\r' !in s
    ensures forall i :: 0 <= i < |Lines(s)| ==> OneLine(Lines(s)[i])
  {
    if s != "" {
      LinesAreLines(s[1..]);
    }
  }

  lemma {:induction false} TrimKeepsOneLine(s: string)
    requires OneLine(s)
    ensures OneLine(Trim(s))
  {
    TrimStartSuffix(s);
    TrimEndLaws(TrimStart(s));
  }

  lemma {:induction false} TrimStartSuffix(s: string)
    ensures exists k :: 0 <= k <= |s| && TrimStart(s) == s[k..]
  {
    if s != "" && IsSpace(s[0]) {
      TrimStartSuffix(s[1..]);
      var k :| 0 <= k <= |s[1..]| && TrimStart(s[1..]) == s[1..][k..];
      assert s[1..][k..] == s[k + 1..];
    } else {
      assert s == s[0..];
    }
  }

  predicate MeaningfulLine(s: string) {
    s != "" && Trimmed(s) && OneLine(s)
  }

  lemma {:induction false} MeaningfulLines(lines: seq<string>)
    requires forall i :: 0 <= i < |lines| ==> OneLine(lines[i])
    ensures forall i :: 0 <= i < |Meaningful(lines)| ==> MeaningfulLine(Meaningful(lines)[i])
  {
    if lines != [] {
      MeaningfulLines(lines[1..]);
      TrimKeepsOneLine(lines[0]);
      TrimIsTrimmed(lines[0]);
    }
  }

  lemma {:induction false} AssignmentsAreClean(lines: seq<string>, number: nat)
    requires forall i :: 0 <= i < |lines| ==> MeaningfulLine(lines[i])
    ensures Assignments(lines, number).Ok? ==> AllClean(Assignments(lines, number).value)
  {
    if lines != [] {
      AssignmentsAreClean(lines[1..], number + 1);
      var line, k := lines[0], ColonAt(lines[0]);
      if 1 <= k < |line| {
        PartsAreClean(line, k);
      }
    }
  }

  lemma PartsAreClean(line: string, k: nat)
    requires MeaningfulLine(line) && k == ColonAt(line) && 1 <= k < |line|
    ensures Clean(Assignment(Trim(line[..k]), Trim(line[k + 1..])))
  {
    var name, value := line[..k], line[k + 1..];
    TrimIsTrimmed(name);
    TrimIsTrimmed(value);
    TrimKeepsOneLine(name);
    TrimKeepsOneLine(value);
    assert TrimStart(name) == name;
    TrimEndLaws(name);
    TrimEndKeepsFirst(name);
    assert forall i :: 0 <= i < |Trim(name)| ==> Trim(name)[i] == line[i];
  }

  lemma ParsedIsClean(text: string)
    ensures Parse(text).Ok? ==> AllClean(Parse(text).value)
  {
    NormalizedIff(text);
    LinesAreLines(Normalized(text));
    MeaningfulLines(Lines(Normalized(text)));
    AssignmentsAreClean(Meaningful(Lines(Normalized(text))), 1);
  }

  lemma {:induction false} FormatHasNoReturn(l: seq<Assignment>)
    requires AllClean(l)
    ensures '\r' !in Format(l)
  {
    if |l| > 0 {
      CleanLine(l[0]);
    }
    if |l| > 1 {
      FormatHasNoReturn(l[1..]);
    }
  }

  /** The page gives back exactly the list it was filled with if and only if names are trimmed, not empty and without
      colons, values are trimmed, and neither contains a line break. */
  lemma RoundTripIff(l: seq<Assignment>)
    ensures Parse(Format(l)) == Ok(l) <==> AllClean(l)
  {
    if AllClean(l) {
      FormatHasNoReturn(l);
      NormalizedIff(Format(l));
      ParseOfFormat(l, 1);
    }
    ParsedIsClean(Format(l));
  }
}
