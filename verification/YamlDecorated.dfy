/** What the line reader of 3rdparty/yaml-cpp/yaml.hpp:303-331 does not mind: blanks and
    comments at the end of a line, lines of nothing else, carriage returns, and a byte
    order mark.  And what it refuses: tabs in front of text. */
module YamlDecorated {
  import opened Basics
  import opened YamlText
  import opened Yaml
  import opened YamlFlow
  import opened YamlRoundTrip

  // ----- Decorated lines -----

  /** What may follow the text of a line: blanks, a comment, a carriage return. */
  datatype Trail = Trail(blanks: nat, comment: Option<string>, back: bool)

  predicate TrailOk(d: Trail) {
    d.comment.Some? ==> '\n' !in d.comment.value && '\r' !in d.comment.value
  }

  function CommentText(d: Trail): string { if d.comment.Some? then "#" + d.comment.value else [] }

  function TrailText(d: Trail): string {
    Spaces(d.blanks) + CommentText(d) + if d.back then "\r" else []
  }

  /** A line of a document, or one that holds nothing. */
  datatype Row = Full(line: Line, trail: Trail) | Bare(trail: Trail)

  ghost predicate RowOk(r: Row) { TrailOk(r.trail) && (r.Full? ==> Neat(r.line.text)) }

  function RowText(r: Row): string {
    (if r.Full? then Spaces(r.line.indent) + r.line.text else []) + TrailText(r.trail)
  }

  function Held(rows: seq<Row>): seq<Line> {
    if rows == [] then [] else (if rows[0].Full? then [rows[0].line] else []) + Held(rows[1..])
  }

  function RowsText(rows: seq<Row>): string {
    if rows == [] then [] else RowText(rows[0]) + "\n" + RowsText(rows[1..])
  }

  const MARK: string := [0xEF as char, 0xBB as char, 0xBF as char]

  // ----- One line -----

  predicate NoReturn(s: string) { s != [] ==> s[|s| - 1] != '\r' }

  lemma NoReturnConcat(a: string, b: string)
    requires NoReturn(a) && NoReturn(b)
    ensures NoReturn(a + b)
  {
    if b != [] { assert (a + b)[|a + b| - 1] == b[|b| - 1]; } else { assert a + b == a; }
  }

  lemma CommentNoReturn(d: Trail)
    requires TrailOk(d)
    ensures NoReturn(CommentText(d))
  {
    if d.comment.Some? {
      var c := d.comment.value;
      assert c != [] ==> c[|c| - 1] in c;
      NoReturnConcat("#", c);
    }
  }

  lemma ReturnOff(body: string, back: bool)
    requires NoReturn(body)
    ensures WithoutReturn(body + if back then "\r" else []) == body
  {
    if back { assert (body + "\r")[..|body|] == body; } else { assert body + [] == body; }
  }

  /** The carriage return goes first. */
  lemma ReturnGoes(s: string, d: Trail)
    requires TrailOk(d) && NoReturn(s)
    ensures WithoutReturn(s + TrailText(d)) == s + Spaces(d.blanks) + CommentText(d)
  {
    var end := if d.back then "\r" else [];
    CommentNoReturn(d);
    NoReturnConcat(s, Spaces(d.blanks));
    NoReturnConcat(s + Spaces(d.blanks), CommentText(d));
    ReturnOff(s + Spaces(d.blanks) + CommentText(d), d.back);
    Reassociate(s, Spaces(d.blanks) + CommentText(d), end);
    Reassociate(s, Spaces(d.blanks), CommentText(d));
  }

  /** Then everything from the comment on. */
  lemma CommentGoes(s: string, d: Trail)
    requires Whole(s) && TrailOk(d)
    ensures StripFrom(s + CommentText(d), 0, None) == s
  {
    var all := s + CommentText(d);
    if d.comment.None? {
      assert all == s;
      StripWhole(s);
    } else {
      StripCutsAtComment(all, 0);
      OpenQuotePrefix(s, CommentText(d), |s|);
      assert all[|s|] == '#' && StartsComment(all, |s|);
      var n := |StripFrom(all, 0, None)|;
      if n < |s| {
        OpenQuotePrefix(s, CommentText(d), n);
        assert StartsComment(all, n) ==> StartsComment(s, n);
      }
      assert n == |s| && all[..|s|] == s;
    }
  }

  /** The first character is not that of a byte order mark. */
  predicate Unmarked(s: string) { s != [] ==> s[0] != MARK[0] }

  /** Both, and then the blanks. */
  lemma CleanTrail(s: string, d: Trail)
    requires Whole(s) && Unmarked(s) && (s != [] ==> s[|s| - 1] != '\r') && TrailOk(d)
    ensures Clean(s + TrailText(d)) == TrimRight(s + Spaces(d.blanks))
  {
    var body := s + Spaces(d.blanks);
    TameIsWhole(Spaces(d.blanks));
    WholeConcat(s, Spaces(d.blanks));
    ReturnGoes(s, d);
    CommentGoes(body, d);
    StillUnmarked(s, d);
  }

  lemma StillUnmarked(s: string, d: Trail)
    requires Unmarked(s)
    ensures Unmarked(s + Spaces(d.blanks) + CommentText(d))
  {
    UnmarkedConcat(s, Spaces(d.blanks));
    UnmarkedConcat(s + Spaces(d.blanks), CommentText(d));
  }

  lemma {:induction false} AllBlank(n: nat)
    ensures TrimRight(Spaces(n)) == []
  {
    if n > 0 {
      assert Spaces(n)[..n - 1] == Spaces(n - 1);
      AllBlank(n - 1);
    }
  }

  lemma CleanFull(l: Line, d: Trail)
    requires Neat(l.text) && TrailOk(d)
    ensures Clean(Spaces(l.indent) + l.text + TrailText(d)) == Spaces(l.indent) + l.text
  {
    var s := Spaces(l.indent) + l.text;
    TameIsWhole(Spaces(l.indent));
    WholeConcat(Spaces(l.indent), l.text);
    assert s[|s| - 1] == l.text[|l.text| - 1] && (s[0] == ' ' || s[0] == l.text[0]);
    CleanTrail(s, d);
    TrimSpaces(s, d.blanks);
  }

  lemma CleanBare(d: Trail)
    requires TrailOk(d)
    ensures Clean(TrailText(d)) == []
  {
    TameIsWhole([]);
    CleanTrail([], d);
    assert [] + TrailText(d) == TrailText(d) && [] + Spaces(d.blanks) == Spaces(d.blanks);
    AllBlank(d.blanks);
  }

  lemma RowOnOneLine(r: Row)
    requires RowOk(r)
    ensures '\n' !in RowText(r)
  {
  }

  lemma RowCleans(r: Row)
    requires RowOk(r)
    ensures var c := Clean(RowText(r)); !Tabbed(c) && LineOf(c) == Held([r])
  {
    assert [r][1..] == [];
    if r.Full? {
      CleanFull(r.line, r.trail);
      CleanNeat(r.line);
    } else {
      CleanBare(r.trail);
      assert RowText(r) == TrailText(r.trail);
    }
  }

  lemma RowRead(r: Row, rest: string, acc: seq<Line>)
    requires RowOk(r)
    ensures LinesFrom(RowText(r) + "\n" + rest, acc) == LinesFrom(rest, acc + Held([r]))
  {
    RowOnOneLine(r);
    AtBreak(RowText(r), rest);
    RowCleans(r);
    LinesStep(RowText(r) + "\n" + rest, acc, |RowText(r)|, Clean(RowText(r)));
  }

  // ----- Documents -----

  lemma HeldStep(rows: seq<Row>)
    requires rows != []
    ensures Held(rows) == Held([rows[0]]) + Held(rows[1..])
  {
    assert [rows[0]][1..] == [];
  }

  lemma RowsTextStep(rows: seq<Row>, rest: string)
    requires rows != []
    ensures RowsText(rows) + rest == RowText(rows[0]) + "\n" + (RowsText(rows[1..]) + rest)
  {
    Reassociate(RowText(rows[0]) + "\n", RowsText(rows[1..]), rest);
  }

  lemma {:induction false} RowsRead(rows: seq<Row>, rest: string, acc: seq<Line>)
    requires forall r :: r in rows ==> RowOk(r)
    ensures LinesFrom(RowsText(rows) + rest, acc) == LinesFrom(rest, acc + Held(rows))
    decreases |rows|
  {
    if rows == [] {
      assert RowsText(rows) + rest == rest && acc + Held(rows) == acc;
    } else {
      assert rows[0] in rows;
      RowsTextStep(rows, rest);
      RowRead(rows[0], RowsText(rows[1..]) + rest, acc);
      RowsRead(rows[1..], rest, acc + Held([rows[0]]));
      HeldStep(rows);
      Reassociate(acc, Held([rows[0]]), Held(rows[1..]));
    }
  }

  lemma RowsGiveLines(rows: seq<Row>)
    requires forall r :: r in rows ==> RowOk(r)
    ensures LinesFrom(RowsText(rows), []) == Good(Held(rows))
  {
    RowsRead(rows, [], []);
    assert RowsText(rows) + [] == RowsText(rows) && [] + Held(rows) == Held(rows);
  }

  lemma SameLinesSameParse(a: string, b: string)
    requires LinesFrom(a, []) == LinesFrom(b, [])
    ensures Parse(a) == Parse(b)
  {
  }

  /** Main result 1: however a rendered document is decorated, it is read as without. */
  lemma DecorationIsIgnored(b: Body, rows: seq<Row>)
    requires BodyOk(b) && Held(rows) == BodyLines(b, 0) && forall r :: r in rows ==> RowOk(r)
    ensures Parse(RowsText(rows)) == Ok(BodyNode(b), [])
  {
    RowsGiveLines(rows);
    BodyNeat(b, 0);
    TextGivesLines(BodyLines(b, 0));
    SameLinesSameParse(RowsText(rows), RenderText(BodyLines(b, 0)));
    ParseUndoesRender(b);
  }

  lemma UnmarkedConcat(a: string, b: string)
    requires Unmarked(a) && Unmarked(b)
    ensures Unmarked(a + b)
  {
    if a != [] { assert (a + b)[0] == a[0]; } else { assert a + b == b; }
  }

  lemma UnmarkedReturn(s: string)
    requires Unmarked(s)
    ensures Unmarked(WithoutReturn(s))
  {
  }

  lemma TrailUnmarked(d: Trail)
    ensures Unmarked(TrailText(d))
  {
    UnmarkedConcat(Spaces(d.blanks), CommentText(d));
    UnmarkedConcat(Spaces(d.blanks) + CommentText(d), if d.back then "\r" else []);
  }

  lemma RowUnmarked(r: Row)
    requires RowOk(r)
    ensures Unmarked(RowText(r)) && Unmarked(WithoutReturn(RowText(r)))
  {
    TrailUnmarked(r.trail);
    if r.Full? {
      UnmarkedConcat(Spaces(r.line.indent), r.line.text);
      UnmarkedConcat(Spaces(r.line.indent) + r.line.text, TrailText(r.trail));
    } else {
      UnmarkedConcat([], TrailText(r.trail));
    }
    UnmarkedReturn(RowText(r));
  }

  lemma MarkThenReturn(s: string)
    ensures WithoutReturn(MARK + s) == MARK + WithoutReturn(s)
  {
    if s != [] {
      assert (MARK + s)[|MARK + s| - 1] == s[|s| - 1];
      assert (MARK + s)[..|MARK + s| - 1] == MARK + s[..|s| - 1];
    }
  }

  /** All three bytes make a mark, and nothing else does. */
  lemma MarkGoes(s: string)
    ensures WithoutBom(MARK + s) == s && (!(MARK <= s) ==> WithoutBom(s) == s)
  {
    assert (MARK + s)[3..] == s;
    if WithoutBom(s) != s { assert MARK == s[..3]; }
  }

  lemma MarkedRow(r: Row)
    requires RowOk(r)
    ensures Clean(MARK + RowText(r)) == Clean(RowText(r)) && '\n' !in MARK + RowText(r)
  {
    RowOnOneLine(r);
    RowUnmarked(r);
    MarkThenReturn(RowText(r));
    MarkGoes(WithoutReturn(RowText(r)));
    assert !(MARK <= WithoutReturn(RowText(r)));
  }

  lemma LineEnds(s: string, more: string, c: string)
    requires '\n' !in s && c == Clean(s) && !Tabbed(c)
    ensures LinesFrom(s + "\n" + more, []) == LinesFrom(more, LineOf(c))
  {
    AtBreak(s, more);
    LinesStep(s + "\n" + more, [], |s|, c);
    assert [] + LineOf(c) == LineOf(c);
  }

  lemma MarkedLine(r: Row, more: string)
    requires RowOk(r)
    ensures LinesFrom(MARK + RowText(r) + "\n" + more, []) == LinesFrom(RowText(r) + "\n" + more, [])
  {
    MarkedRow(r);
    RowCleans(r);
    RowOnOneLine(r);
    LineEnds(MARK + RowText(r), more, Clean(RowText(r)));
    LineEnds(RowText(r), more, Clean(RowText(r)));
  }

  /** A byte order mark in front of the document is ignored, too. */
  lemma MarkIsIgnored(rows: seq<Row>)
    requires rows != [] && forall r :: r in rows ==> RowOk(r)
    ensures Parse(MARK + RowsText(rows)) == Parse(RowsText(rows))
  {
    var r, more := rows[0], RowsText(rows[1..]);
    assert r in rows;
    MarkedLine(r, more);
    Reassociate(MARK, RowText(r) + "\n", more);
    Reassociate(MARK, RowText(r), "\n");
    SameLinesSameParse(MARK + RowText(r) + "\n" + more, RowText(r) + "\n" + more);
  }

  // ----- Tabs -----

  lemma TabbedLine(n: nat, tail: string)
    requires Whole(tail) && RightTight(tail)
    ensures Tabbed(Clean(Spaces(n) + "\t" + tail))
  {
    var s := Spaces(n) + "\t" + tail;
    TameIsWhole(Spaces(n) + "\t");
    WholeConcat(Spaces(n) + "\t", tail);
    StripWhole(s);
    assert s[|s| - 1] == tail[|tail| - 1];
    assert s == Spaces(n) + ("\t" + tail);
    BlanksOfSpaces(n, "\t" + tail);
    assert s[n] == '\t';
  }

  /** Main result 2: a tab in front of text, on whatever line, is an error. */
  lemma TabIsRefused(rows: seq<Row>, n: nat, tail: string, more: string)
    requires (forall r :: r in rows ==> RowOk(r)) && Whole(tail) && RightTight(tail)
    ensures Parse(RowsText(rows) + (Spaces(n) + "\t" + tail + "\n" + more)) == Err("tabs not supported")
  {
    var s := Spaces(n) + "\t" + tail;
    RowsRead(rows, s + "\n" + more, []);
    TabbedLine(n, tail);
    TabEnds(s, more, [] + Held(rows));
  }

  lemma TabEnds(s: string, more: string, acc: seq<Line>)
    requires '\n' !in s && Tabbed(Clean(s))
    ensures LinesFrom(s + "\n" + more, acc) == Bad("tabs not supported")
  {
    AtBreak(s, more);
    LinesStep(s + "\n" + more, acc, |s|, Clean(s));
  }
}
