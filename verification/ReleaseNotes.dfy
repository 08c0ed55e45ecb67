/** Rendering of release notes in the update dialog (public/update-check.js): HTML escaping by five
    successive replacements, and grouping of bullet lines. */
module ReleaseNotes {
  import opened Options
  import opened Text

  /** `replaceAll` of a character by a string. */
  function ReplaceAll(s: string, c: char, entity: string): string {
    if s == "" then "" else (if s[0] == c then entity else [s[0]]) + ReplaceAll(s[1..], c, entity)
  }

  /** `escapeHtml`: one pass per character, the ampersand first. */
  function EscapeHtml(s: string): string {
    ReplaceAll(ReplaceAll(ReplaceAll(ReplaceAll(ReplaceAll(
      s, '&', "&amp;"), '<', "&lt;"), '>', "&gt;"), '"', "&quot;"), '\'', "&#039;")
  }

  /** The entity of a character that needs one. */
  function Entity(c: char): string {
    match c
    case '&' => "&amp;"
    case '<' => "&lt;"
    case '>' => "&gt;"
    case '"' => "&quot;"
    case '\'' => "&#039;"
    case _ => [c]
  }

  /** Replacing every character at once. */
  function EscapeAtOnce(s: string): string {
    if s == "" then "" else Entity(s[0]) + EscapeAtOnce(s[1..])
  }

  lemma {:induction false} ReplaceConcat(a: string, b: string, c: char, entity: string)
    ensures ReplaceAll(a + b, c, entity) == ReplaceAll(a, c, entity) + ReplaceAll(b, c, entity)
  {
    if a == "" {
      assert a + b == b;
    } else {
      var head, rest := if a[0] == c then entity else [a[0]], a[1..];
      ReplaceConcat(rest, b, c, entity);
      assert (a + b)[0] == a[0] && (a + b)[1..] == rest + b;
      assert ReplaceAll(a + b, c, entity) == head + (ReplaceAll(rest, c, entity) + ReplaceAll(b, c, entity));
    }
  }

  lemma EscapeConcat(a: string, b: string)
    ensures EscapeHtml(a + b) == EscapeHtml(a) + EscapeHtml(b)
  {
    var a1, b1 := ReplaceAll(a, '&', "&amp;"), ReplaceAll(b, '&', "&amp;");
    var a2, b2 := ReplaceAll(a1, '<', "&lt;"), ReplaceAll(b1, '<', "&lt;");
    var a3, b3 := ReplaceAll(a2, '>', "&gt;"), ReplaceAll(b2, '>', "&gt;");
    var a4, b4 := ReplaceAll(a3, '"', "&quot;"), ReplaceAll(b3, '"', "&quot;");
    ReplaceConcat(a, b, '&', "&amp;");
    ReplaceConcat(a1, b1, '<', "&lt;");
    ReplaceConcat(a2, b2, '>', "&gt;");
    ReplaceConcat(a3, b3, '"', "&quot;");
    ReplaceConcat(a4, b4, '\'', "&#039;");
  }

  predicate Absent(s: string, c: char) {
    forall i :: 0 <= i < |s| ==> s[i] != c
  }

  lemma {:induction false} ReplaceAbsent(s: string, c: char, entity: string)
    requires Absent(s, c)
    ensures ReplaceAll(s, c, entity) == s
  {
    if s != "" {
      ReplaceAbsent(s[1..], c, entity);
      assert s == [s[0]] + s[1..];
    }
  }

  lemma ReplaceOne(c: char, entity: string)
    ensures ReplaceAll([c], c, entity) == entity
  {
    assert [c][1..] == "";
  }

  /** One pass over a text in which the character is absent, unless the text is that character alone. */
  lemma Pass(s: string, c: char, entity: string)
    requires s == [c] || Absent(s, c)
    ensures ReplaceAll(s, c, entity) == if s == [c] then entity else s
  {
    if s == [c] {
      ReplaceOne(c, entity);
    } else {
      ReplaceAbsent(s, c, entity);
    }
  }

  lemma EscapeOne(c: char)
    ensures EscapeHtml([c]) == Entity(c)
  {
    hide ReplaceAll;
    var s1 := if c == '&' then "&amp;" else [c];
    Pass([c], '&', "&amp;");
    var s2 := if c == '<' then "&lt;" else s1;
    Pass(s1, '<', "&lt;");
    var s3 := if c == '>' then "&gt;" else s2;
    Pass(s2, '>', "&gt;");
    var s4 := if c == '"' then "&quot;" else s3;
    Pass(s3, '"', "&quot;");
    Pass(s4, '\'', "&#039;");
  }

  /** The five passes are one simultaneous replacement: no pass touches what an earlier one wrote. */
  lemma {:induction false} SequentialIsSimultaneous(s: string)
    ensures EscapeHtml(s) == EscapeAtOnce(s)
  {
    if s != "" {
      EscapeConcat([s[0]], s[1..]);
      assert [s[0]] + s[1..] == s;
      EscapeOne(s[0]);
      SequentialIsSimultaneous(s[1..]);
    }
  }

  lemma {:induction false} NoRawMarkup(s: string)
    ensures forall i :: 0 <= i < |EscapeAtOnce(s)| ==> EscapeAtOnce(s)[i] !in "<>\"'"
  {
    if s != "" {
      NoRawMarkup(s[1..]);
    }
  }

  // ---------------------------------------------------------------------------------------------
  // Unescaping

  function DropEntity(s: string): (char, nat)
    requires s != ""
    ensures 1 <= DropEntity(s).1 <= |s|
  {
    if "&amp;" <= s then ('&', 5)
    else if "&lt;" <= s then ('<', 4)
    else if "&gt;" <= s then ('>', 4)
    else if "&quot;" <= s then ('"', 6)
    else if "&#039;" <= s then ('\'', 6)
    else (s[0], 1)
  }

  function Unescape(s: string): string
    decreases |s|
  {
    if s == "" then "" else var (c, n) := DropEntity(s); [c] + Unescape(s[n..])
  }

  lemma DropEntityOf(c: char, rest: string)
    ensures Entity(c) + rest != "" && DropEntity(Entity(c) + rest) == (c, |Entity(c)|)
  {
    var s := Entity(c) + rest;
    assert s[0] == if c in "&<>\"'" then '&' else c;
    if c in "&<>\"'" {
      assert s[1] == Entity(c)[1];
    }
  }

  /** Escaping loses nothing. */
  lemma {:induction false} UnescapeUndoesEscape(s: string)
    ensures Unescape(EscapeAtOnce(s)) == s
  {
    if s != "" {
      var rest := EscapeAtOnce(s[1..]);
      DropEntityOf(s[0], rest);
      assert EscapeAtOnce(s)[|Entity(s[0])|..] == rest;
      UnescapeUndoesEscape(s[1..]);
    }
  }

  lemma EscapeHtmlLaws(s: string)
    ensures EscapeHtml(s) == EscapeAtOnce(s)
    ensures Unescape(EscapeHtml(s)) == s
    ensures forall i :: 0 <= i < |EscapeHtml(s)| ==> EscapeHtml(s)[i] !in "<>\"'"
  {
    SequentialIsSimultaneous(s);
    UnescapeUndoesEscape(s);
    NoRawMarkup(s);
  }

  // ---------------------------------------------------------------------------------------------
  // Bullet lists

  datatype Block = Line(text: string) | Bullets(items: seq<string>)
  datatype Kind = Plain(text: string) | Item(text: string)

  /** `match(/^\s*[-*]\s+(.*)$/)`. */
  function BulletText(line: string): Option<string> {
    var s := TrimStart(line);
    if |s| >= 2 && (s[0] == '-' || s[0] == '*') && IsSpace(s[1]) then Some(TrimStart(s[1..])) else None
  }

  /** The parts of a bullet line: indentation, a dash or star, a gap, and text that does not begin with white space. */
  predicate BulletLine(line: string, indent: string, mark: char, gap: string, text: string) {
    && line == indent + ([mark] + (gap + text)) && AllSpaces(indent) && (mark == '-' || mark == '*')
    && gap != "" && AllSpaces(gap) && (text == "" || !IsSpace(text[0]))
  }

  /** A line is a bullet with the given text exactly if it has these parts. */
  lemma BulletTextIff(line: string, text: string)
    ensures BulletText(line) == Some(text) <==> exists indent, mark, gap :: BulletLine(line, indent, mark, gap, text)
  {
    if BulletText(line) == Some(text) {
      BulletParts(line, text);
    }
    forall indent, mark, gap | BulletLine(line, indent, mark, gap, text) ensures BulletText(line) == Some(text) {
      PartsAreBullet(line, indent, mark, gap, text);
    }
  }

  lemma BulletParts(line: string, text: string)
    requires BulletText(line) == Some(text)
    ensures exists indent, mark, gap :: BulletLine(line, indent, mark, gap, text)
  {
    var indent := TrimStartSplits(line);
    var s := TrimStart(line);
    var gap := TrimStartSplits(s[1..]);
    assert s[1..][0] == s[1] && IsSpace(s[1]);
    assert gap != "";
    assert s == [s[0]] + s[1..];
    assert BulletLine(line, indent, s[0], gap, text);
  }

  lemma PartsAreBullet(line: string, indent: string, mark: char, gap: string, text: string)
    requires BulletLine(line, indent, mark, gap, text)
    ensures BulletText(line) == Some(text)
  {
    var s := [mark] + (gap + text);
    assert !IsSpace('-') && !IsSpace('*');
    TrimStartDrops(indent, s);
    assert s[1..] == gap + text && s[1] == gap[0];
    TrimStartDrops(gap, text);
  }

  function KindOf(line: string): Kind {
    match BulletText(line)
    case Some(text) => Item(text)
    case None => Plain(line)
  }

  function Kinds(lines: seq<string>): seq<Kind> {
    if lines == [] then [] else Kinds(lines[..|lines| - 1]) + [KindOf(lines[|lines| - 1])]
  }

  function Items(items: seq<string>): seq<Kind> {
    if items == [] then [] else Items(items[..|items| - 1]) + [Item(items[|items| - 1])]
  }

  /** The lines of the blocks, in order. */
  function Flatten(blocks: seq<Block>): seq<Kind> {
    if blocks == [] then []
    else Flatten(blocks[..|blocks| - 1]) +
         match blocks[|blocks| - 1]
         case Line(text) => [Plain(text)]
         case Bullets(items) => Items(items)
  }

  /** Lists are not empty and never next to each other, so every run of bullets is one list. */
  predicate Maximal(blocks: seq<Block>) {
    && (forall i :: 0 <= i < |blocks| && blocks[i].Bullets? ==> blocks[i].items != [])
    && (forall i :: 0 < i < |blocks| && blocks[i - 1].Bullets? ==> blocks[i].Line?)
  }

  predicate EndsInList(blocks: seq<Block>) {
    blocks != [] && blocks[|blocks| - 1].Bullets?
  }

  /** The grouping loop of `renderReleaseNotes`. */
  method GroupBullets(lines: seq<string>) returns (blocks: seq<Block>)
    ensures Flatten(blocks) == Kinds(lines) && Maximal(blocks)
  {
    hide Flatten, Kinds, BulletText, Maximal;
    blocks := [];
    NoBlocks();
    var inList := false;
    for i := 0 to |lines|
      invariant Flatten(blocks) == Kinds(lines[..i]) && Maximal(blocks)
      invariant inList <==> EndsInList(blocks)
    {
      KindsSnoc(lines, i);
      var bullet := BulletText(lines[i]);
      if bullet.Some? {
        if !inList {
          NewList(blocks, bullet.value);
          blocks := blocks + [Bullets([])];
          inList := true;
        } else {
          AddItem(blocks, bullet.value);
        }
        blocks := WithItem(blocks, bullet.value);
      } else {
        NewLine(blocks, lines[i]);
        inList := false;
        blocks := blocks + [Line(lines[i])];
      }
    }
    assert lines[..|lines|] == lines;
  }

  lemma NoBlocks()
    ensures Flatten([]) == [] && Maximal([]) && forall lines: seq<string> :: Kinds(lines[..0]) == []
  {
  }

  lemma KindsSnoc(lines: seq<string>, i: nat)
    requires i < |lines|
    ensures Kinds(lines[..i + 1]) == Kinds(lines[..i]) + [KindOf(lines[i])]
  {
    assert lines[..i + 1][..i] == lines[..i];
  }

  lemma NewLine(blocks: seq<Block>, text: string)
    requires Maximal(blocks)
    ensures Flatten(blocks + [Line(text)]) == Flatten(blocks) + [Plain(text)] && Maximal(blocks + [Line(text)])
  {
    FlattenSnoc(blocks, Line(text));
  }

  lemma NewList(blocks: seq<Block>, item: string)
    requires Maximal(blocks) && !EndsInList(blocks)
    ensures var listed := WithItem(blocks + [Bullets([])], item);
      Flatten(listed) == Flatten(blocks) + [Item(item)] && Maximal(listed)
  {
    hide Flatten, Maximal;
    FirstItem(blocks, item);
    NewListBlock(blocks, item);
  }

  lemma FirstItem(blocks: seq<Block>, item: string)
    ensures WithItem(blocks + [Bullets([])], item) == blocks + [Bullets([item])]
  {
    var listed := blocks + [Bullets([])];
    assert listed[..|listed| - 1] == blocks;
    assert listed[|listed| - 1].items + [item] == [item];
  }

  lemma NewListBlock(blocks: seq<Block>, item: string)
    requires Maximal(blocks) && !EndsInList(blocks)
    ensures Flatten(blocks + [Bullets([item])]) == Flatten(blocks) + [Item(item)] && Maximal(blocks + [Bullets([item])])
  {
    hide Flatten;
    FlattenSnoc(blocks, Bullets([item]));
    OneItem(item);
  }

  lemma OneItem(item: string)
    ensures Items([item]) == [Item(item)]
  {
    assert [item][..0] == [];
  }

  /** `list.push(item)`, where list is the last block. */
  function WithItem(blocks: seq<Block>, item: string): seq<Block>
    requires EndsInList(blocks)
  {
    blocks[..|blocks| - 1] + [Bullets(blocks[|blocks| - 1].items + [item])]
  }

  lemma FlattenSnoc(blocks: seq<Block>, b: Block)
    ensures Flatten(blocks + [b]) ==
            Flatten(blocks) + match b case Line(text) => [Plain(text)] case Bullets(items) => Items(items)
  {
    assert (blocks + [b])[..|blocks|] == blocks;
  }

  lemma AddItem(blocks: seq<Block>, item: string)
    requires EndsInList(blocks) && Maximal(blocks)
    ensures Flatten(WithItem(blocks, item)) == Flatten(blocks) + [Item(item)] && Maximal(WithItem(blocks, item))
  {
    var front, items := blocks[..|blocks| - 1], blocks[|blocks| - 1].items;
    FlattenSnoc(front, Bullets(items + [item]));
    assert (items + [item])[..|items|] == items;
  }

  // ---------------------------------------------------------------------------------------------
  // There is only one way to group

  lemma {:induction false} ItemsAre(items: seq<string>)
    ensures |Items(items)| == |items| && forall i :: 0 <= i < |items| ==> Items(items)[i] == Item(items[i])
  {
    if items != [] {
      ItemsAre(items[..|items| - 1]);
    }
  }

  /** Before a list comes nothing or a plain line. */
  predicate EndsPlain(kinds: seq<Kind>) {
    kinds == [] || kinds[|kinds| - 1].Plain?
  }

  lemma BeforeList(blocks: seq<Block>)
    requires Maximal(blocks) && EndsInList(blocks)
    ensures EndsPlain(Flatten(blocks[..|blocks| - 1])) && Maximal(blocks[..|blocks| - 1])
  {
    var front := blocks[..|blocks| - 1];
    if front != [] {
      assert front[|front| - 1] == blocks[|front| - 1] && blocks[|front|].Bullets?;
      assert front[|front| - 1].Line?;
    }
  }

  /** A run of items after nothing or a plain line can be cut off in one way only. */
  lemma SameTail(a: seq<Kind>, x: seq<string>, b: seq<Kind>, y: seq<string>)
    requires EndsPlain(a) && EndsPlain(b) && a + Items(x) == b + Items(y)
    ensures a == b && x == y
  {
    hide Items;
    ItemsAre(x);
    ItemsAre(y);
    SameCut(a, Items(x), b, Items(y));
    forall i | 0 <= i < |x| ensures x[i] == y[i] {
      assert Items(x)[i] == Items(y)[i];
    }
  }

  predicate AllItems(kinds: seq<Kind>) {
    forall i :: 0 <= i < |kinds| ==> kinds[i].Item?
  }

  lemma SameCut(a: seq<Kind>, u: seq<Kind>, b: seq<Kind>, v: seq<Kind>)
    requires EndsPlain(a) && EndsPlain(b) && AllItems(u) && AllItems(v) && a + u == b + v
    ensures a == b && u == v
  {
    NotLonger(a, u, b, v);
    NotLonger(b, v, a, u);
    assert (a + u)[..|a|] == a && (b + v)[..|b|] == b && (a + u)[|a|..] == u && (b + v)[|b|..] == v;
  }

  lemma NotLonger(a: seq<Kind>, u: seq<Kind>, b: seq<Kind>, v: seq<Kind>)
    requires EndsPlain(b) && AllItems(u) && a + u == b + v
    ensures |b| <= |a|
  {
    assert b != [] ==> (b + v)[|b| - 1] == b[|b| - 1];
    assert forall i :: |a| <= i < |a + u| ==> (a + u)[i] == u[i - |a|];
  }

  /** Blocks that are maximal and flatten to the same lines are the same. */
  lemma {:induction false} OneGrouping(a: seq<Block>, b: seq<Block>)
    requires Maximal(a) && Maximal(b) && Flatten(a) == Flatten(b)
    ensures a == b
    decreases |a|
  {
    hide Flatten, Maximal;
    LastKind(a);
    LastKind(b);
    if a != [] {
      SameLast(a, b);
      OneGrouping(a[..|a| - 1], b[..|b| - 1]);
      assert a == a[..|a| - 1] + [a[|a| - 1]] && b == b[..|b| - 1] + [b[|b| - 1]];
    }
  }

  lemma SameLast(a: seq<Block>, b: seq<Block>)
    requires a != [] && b != [] && Maximal(a) && Maximal(b) && Flatten(a) == Flatten(b)
    ensures a[|a| - 1] == b[|b| - 1] && Flatten(a[..|a| - 1]) == Flatten(b[..|b| - 1])
    ensures Maximal(a[..|a| - 1]) && Maximal(b[..|b| - 1])
  {
    hide Flatten, Maximal;
    LastKind(a);
    LastKind(b);
    FlattenLast(a);
    FlattenLast(b);
    if EndsInList(a) {
      BeforeList(a);
      BeforeList(b);
      SameTail(Flatten(a[..|a| - 1]), a[|a| - 1].items, Flatten(b[..|b| - 1]), b[|b| - 1].items);
    } else {
      SameFront(Flatten(a[..|a| - 1]), Plain(a[|a| - 1].text), Flatten(b[..|b| - 1]), Plain(b[|b| - 1].text));
    }
  }

  lemma FlattenLast(blocks: seq<Block>)
    requires blocks != []
    ensures Flatten(blocks) == Flatten(blocks[..|blocks| - 1]) +
              match blocks[|blocks| - 1] case Line(text) => [Plain(text)] case Bullets(items) => Items(items)
    ensures Maximal(blocks) ==> Maximal(blocks[..|blocks| - 1])
  {
  }

  lemma SameFront(a: seq<Kind>, x: Kind, b: seq<Kind>, y: Kind)
    requires a + [x] == b + [y]
    ensures a == b && x == y
  {
    assert (a + [x])[..|a|] == a && (b + [y])[..|b|] == b;
    assert (a + [x])[|a|] == x && (b + [y])[|b|] == y;
  }

  lemma LastKind(blocks: seq<Block>)
    requires Maximal(blocks)
    ensures blocks == [] <==> Flatten(blocks) == []
    ensures blocks != [] ==> (Flatten(blocks)[|Flatten(blocks)| - 1].Item? <==> EndsInList(blocks))
  {
    if blocks != [] && EndsInList(blocks) {
      ItemsAre(blocks[|blocks| - 1].items);
    }
  }
}
