/** The block and flow parser of 3rdparty/yaml-cpp/yaml.hpp: for each of its
    functions what it computes, and the loops that compute it. */
module Yaml {
  import opened Basics
  import opened YamlText

  datatype Node = Null | Scalar(scalar: string) | Map(entries: map<string, Node>) | Seq(items: seq<Node>)

  /** std::map::emplace: an existing key keeps its value. */
  function Emplace(m: map<string, Node>, key: string, value: Node): map<string, Node> {
    if key in m then m else m[key := value]
  }

  // ----- Flow values -----

  predicate IsFlow(s: string, open: char, close: char) { |s| >= 2 && s[0] == open && s[|s| - 1] == close }

  /** What is between the two brackets, split at its commas. */
  function FlowParts(t: string): (r: seq<string>)
    requires |t| >= 2
    ensures Short(r, |t| - 2)
  {
    if |t| <= 2 then [] else SplitTopLevel(t[1..|t| - 1], ',')
  }

  predicate Short(parts: seq<string>, n: int) { forall p :: p in parts ==> |p| <= n }

  function ParseValue(v: string): Node
    decreases |v|, 1
  {
    ParseTight(Trim(v))
  }

  /** The cases of a trimmed value. */
  function ParseTight(t: string): Node
    decreases |t|, 0
  {
    if t == [] then Null
    else if IsFlow(t, '{', '}') then Map(FlowEntries(FlowParts(t), |t| - 2, map[]))
    else if IsFlow(t, '[', ']') then Seq(FlowItems(FlowParts(t), |t| - 2, []))
    else Scalar(Unquote(t))
  }

  /** The entries of a flow map; a part without a colon is skipped. */
  function FlowEntries(parts: seq<string>, n: nat, acc: map<string, Node>): map<string, Node>
    requires Short(parts, n)
    decreases n, |parts| + 2
  {
    if parts == [] then acc
    else
      assert parts[0] in parts;
      var pos := Find(parts[0], ':');
      if pos == |parts[0]| then FlowEntries(parts[1..], n, acc)
      else FlowEntries(parts[1..], n, Emplace(acc, KeyOf(parts[0], pos), ParseValue(ValueOf(parts[0], pos))))
  }

  function FlowItems(parts: seq<string>, n: nat, acc: seq<Node>): seq<Node>
    requires Short(parts, n)
    decreases n, |parts| + 2
  {
    if parts == [] then acc
    else
      assert parts[0] in parts;
      FlowItems(parts[1..], n, acc + [ParseValue(parts[0])])
  }

  /** The two sides of a colon. */
  function KeyOf(text: string, pos: nat): string
    requires pos < |text|
  {
    Unquote(Trim(text[..pos]))
  }

  function ValueOf(text: string, pos: nat): (r: string)
    requires pos < |text|
    ensures |r| < |text|
  {
    Trim(text[pos + 1..])
  }

  method FlowPartsM(t: string) returns (parts: seq<string>)
    requires |t| >= 2
    ensures parts == FlowParts(t)
  {
    if |t| <= 2 { return []; }
    parts := SplitLoop(t[1..|t| - 1], ',');
  }

  method ParseValueM(v: string) returns (n: Node)
    ensures n == ParseValue(v)
    decreases |v|, 1
  {
    var t := TrimLoop(v);
    n := ParseTightM(t);
  }

  method ParseTightM(t: string) returns (n: Node)
    ensures n == ParseTight(t)
    decreases |t|, 0
  {
    if t == [] {
      n := Null;
    } else if IsFlow(t, '{', '}') {
      var m := ParseFlowMap(t);
      n := Map(m);
    } else if IsFlow(t, '[', ']') {
      var s := ParseFlowSeq(t);
      n := Seq(s);
    } else {
      var u := UnquoteLoop(t);
      n := Scalar(u);
    }
  }

  lemma EntriesStep(parts: seq<string>, n: nat, acc: map<string, Node>)
    requires parts != [] && Short(parts, n)
    ensures Short(parts[1..], n)
    ensures var part := parts[0];
      var pos := Find(part, ':');
      FlowEntries(parts, n, acc) == FlowEntries(parts[1..], n,
        if pos == |part| then acc else Emplace(acc, KeyOf(part, pos), ParseValue(ValueOf(part, pos))))
  {
  }

  method ParseFlowMap(t: string) returns (m: map<string, Node>)
    requires |t| >= 2
    ensures m == FlowEntries(FlowParts(t), |t| - 2, map[])
    decreases |t| - 2, 3
  {
    ghost var n := |t| - 2;
    var parts := FlowPartsM(t);
    m := map[];
    for i := 0 to |parts|
      invariant Short(parts[i..], n)
      invariant FlowEntries(parts, n, map[]) == FlowEntries(parts[i..], n, m)
    {
      var part := parts[i];
      assert parts[i..][0] == part && parts[i..][1..] == parts[i + 1..];
      assert part in parts;
      EntriesStep(parts[i..], n, m);
      m := ParseFlowEntry(part, m);
    }
  }

  method ParseFlowEntry(part: string, m: map<string, Node>) returns (r: map<string, Node>)
    ensures var pos := Find(part, ':');
      r == if pos == |part| then m else Emplace(m, KeyOf(part, pos), ParseValue(ValueOf(part, pos)))
    decreases |part|, 2
  {
    var pos := Find(part, ':');
    if pos == |part| { return m; }
    var key, val := Sides(part, pos);
    var child := ParseValueM(val);
    r := Emplace(m, key, child);
  }

  /** The key before a colon and the text after it. */
  method Sides(text: string, pos: nat) returns (key: string, val: string)
    requires pos < |text|
    ensures key == KeyOf(text, pos) && val == ValueOf(text, pos)
  {
    key := TrimLoop(text[..pos]);
    key := UnquoteLoop(key);
    val := TrimLoop(text[pos + 1..]);
  }

  lemma ItemsStep(parts: seq<string>, n: nat, acc: seq<Node>)
    requires parts != [] && Short(parts, n)
    ensures Short(parts[1..], n)
    ensures FlowItems(parts, n, acc) == FlowItems(parts[1..], n, acc + [ParseValue(parts[0])])
  {
  }

  method ParseFlowSeq(t: string) returns (s: seq<Node>)
    requires |t| >= 2
    ensures s == FlowItems(FlowParts(t), |t| - 2, [])
    decreases |t| - 2, 2
  {
    ghost var n := |t| - 2;
    var parts := FlowPartsM(t);
    s := [];
    for i := 0 to |parts|
      invariant Short(parts[i..], n)
      invariant FlowItems(parts, n, []) == FlowItems(parts[i..], n, s)
    {
      var part := parts[i];
      assert parts[i..][0] == part && parts[i..][1..] == parts[i + 1..];
      assert part in parts;
      ItemsStep(parts[i..], n, s);
      var child := ParseValueM(part);
      s := s + [child];
    }
  }

  // ----- Blocks -----

  datatype Line = Line(indent: nat, text: string)

  predicate StartsWithDash(s: string) { |s| >= 2 && s[0] == '-' && IsSpace(s[1]) }

  /** What a block parser returns: the node and the lines it leaves, or an error. */
  datatype Parsed = Ok(node: Node, rest: seq<Line>) | Err(error: string)
  datatype Entries = Got(found: map<string, Node>, left: seq<Line>) | Fail(error: string)

  function ParseBlock(lines: seq<Line>, indent: nat): (r: Parsed)
    ensures r.Ok? ==> |r.rest| <= |lines|
    decreases |lines|, 1
  {
    if lines == [] || lines[0].indent < indent then Ok(Null, lines)
    else if StartsWithDash(lines[0].text) then ParseSeq(lines, indent, [])
    else ParseMap(lines, indent, map[])
  }

  /** One key with the value on its line, or with the block below it. */
  function EntryValue(lines: seq<Line>, pos: nat, below: nat): (r: Parsed)
    requires lines != [] && pos < |lines[0].text|
    ensures r.Ok? ==> |r.rest| < |lines|
    decreases |lines|, 0, 0
  {
    var val := ValueOf(lines[0].text, pos);
    if val == [] then ParseBlock(lines[1..], below) else Ok(ParseValue(val), lines[1..])
  }

  function ParseMap(lines: seq<Line>, indent: nat, acc: map<string, Node>): (r: Parsed)
    ensures r.Ok? ==> |r.rest| <= |lines|
    decreases |lines|, 0, 1
  {
    if lines == [] || lines[0].indent != indent || StartsWithDash(lines[0].text) then Ok(Map(acc), lines)
    else
      var pos := Find(lines[0].text, ':');
      if pos == |lines[0].text| then Err("expected key: value")
      else
        var child := EntryValue(lines, pos, indent + 2);
        if child.Err? then child
        else ParseMap(child.rest, indent, Emplace(acc, KeyOf(lines[0].text, pos), child.node))
  }

  lemma MapStep(lines: seq<Line>, indent: nat, acc: map<string, Node>, pos: nat)
    requires lines != [] && lines[0].indent == indent && !StartsWithDash(lines[0].text)
    requires pos == Find(lines[0].text, ':') < |lines[0].text|
    ensures var child := EntryValue(lines, pos, indent + 2);
      ParseMap(lines, indent, acc) ==
        if child.Err? then child
        else ParseMap(child.rest, indent, Emplace(acc, KeyOf(lines[0].text, pos), child.node))
  {
  }

  lemma MergeStep(lines: seq<Line>, indent: nat, acc: map<string, Node>, pos: nat)
    requires lines != [] && lines[0].indent == indent + 2 && !StartsWithDash(lines[0].text)
    requires pos == Find(lines[0].text, ':') < |lines[0].text|
    ensures var child := EntryValue(lines, pos, indent + 4);
      Merge(lines, indent, acc) ==
        if child.Err? then Fail(child.error)
        else Merge(child.rest, indent, Emplace(acc, KeyOf(lines[0].text, pos), child.node))
  {
  }

  /** The entries that follow the first one of a map inside a sequence item. */
  function Merge(lines: seq<Line>, indent: nat, acc: map<string, Node>): (r: Entries)
    ensures r.Got? ==> |r.left| <= |lines|
    decreases |lines|, 0, 1
  {
    if lines == [] || lines[0].indent != indent + 2 || StartsWithDash(lines[0].text) then Got(acc, lines)
    else
      var pos := Find(lines[0].text, ':');
      if pos == |lines[0].text| then Fail("expected key: value in map")
      else
        var child := EntryValue(lines, pos, indent + 4);
        if child.Err? then Fail(child.error)
        else Merge(child.rest, indent, Emplace(acc, KeyOf(lines[0].text, pos), child.node))
  }

  function Item(lines: seq<Line>, indent: nat): (r: Parsed)
    requires lines != [] && StartsWithDash(lines[0].text)
    ensures r.Ok? ==> |r.rest| < |lines|
    decreases |lines|, 0, 0
  {
    var text := Trim(lines[0].text[2..]);
    if text == [] then ParseBlock(lines[1..], indent + 2)
    else
      var pos := Find(text, ':');
      if pos == |text| then Ok(ParseValue(text), lines[1..]) else ItemMap(text, pos, lines[1..], indent)
  }

  /** The value of a key behind a dash: on its line, or in the block below. */
  function FirstValue(val: string, lines: seq<Line>, indent: nat): (r: Parsed)
    ensures r.Ok? ==> |r.rest| <= |lines|
    decreases |lines|, 2
  {
    if val != [] then Ok(ParseValue(val), lines) else ParseBlock(lines, indent + 2)
  }

  /** A map whose first entry stands on the line of the dash. */
  function ItemMap(text: string, pos: nat, lines: seq<Line>, indent: nat): (r: Parsed)
    requires pos < |text|
    ensures r.Ok? ==> |r.rest| <= |lines|
    decreases |lines|, 3
  {
    var first := FirstValue(ValueOf(text, pos), lines, indent);
    if first.Err? then first else Merged(KeyOf(text, pos), first.node, first.rest, indent)
  }

  /** The first entry with those that follow it. */
  function Merged(key: string, value: Node, lines: seq<Line>, indent: nat): (r: Parsed)
    ensures r.Ok? ==> |r.rest| <= |lines|
    decreases |lines|, 2
  {
    var all := Merge(lines, indent, map[key := value]);
    if all.Fail? then Err(all.error) else Ok(Map(all.found), all.left)
  }

  function ParseSeq(lines: seq<Line>, indent: nat, acc: seq<Node>): (r: Parsed)
    ensures r.Ok? ==> |r.rest| <= |lines|
    decreases |lines|, 0, 1
  {
    if lines == [] || lines[0].indent != indent || !StartsWithDash(lines[0].text) then Ok(Seq(acc), lines)
    else
      var item := Item(lines, indent);
      if item.Err? then item else ParseSeq(item.rest, indent, acc + [item.node])
  }

  // ----- The loops over lines -----

  method ParseBlockM(lines: seq<Line>, start: nat, indent: nat) returns (r: Parsed, idx: nat)
    requires start <= |lines|
    ensures r == ParseBlock(lines[start..], indent)
    ensures r.Ok? ==> start <= idx <= |lines| && lines[idx..] == r.rest
    decreases |lines| - start, 1
  {
    idx := start;
    if idx >= |lines| { return Ok(Null, lines[idx..]), idx; }
    var ln := lines[idx];
    if ln.indent < indent { return Ok(Null, lines[idx..]), idx; }
    if StartsWithDash(ln.text) {
      r, idx := ParseSeqM(lines, idx, indent);
    } else {
      r, idx := ParseMapM(lines, idx, indent);
    }
  }

  method ParseMapM(lines: seq<Line>, start: nat, indent: nat) returns (r: Parsed, idx: nat)
    requires start <= |lines|
    ensures r == ParseMap(lines[start..], indent, map[])
    ensures r.Ok? ==> start <= idx <= |lines| && lines[idx..] == r.rest
    decreases |lines| - start, 0
  {
    idx := start;
    var out: map<string, Node> := map[];
    while idx < |lines|
      invariant start <= idx <= |lines|
      invariant ParseMap(lines[start..], indent, map[]) == ParseMap(lines[idx..], indent, out)
      decreases |lines| - idx
    {
      var ln := lines[idx];
      ghost var left := lines[idx..];
      assert left[0] == ln && left[1..] == lines[idx + 1..];
      if ln.indent < indent { break; }
      if ln.indent != indent { break; }
      if StartsWithDash(ln.text) { break; }
      var pos := Find(ln.text, ':');
      if pos == |ln.text| { return Err("expected key: value"), idx; }
      MapStep(left, indent, out, pos);
      var key, child;
      key, child, idx := ParseEntry(lines, idx, pos, indent + 2);
      if child.Err? { return child, idx; }
      out := Emplace(out, key, child.node);
    }
    return Ok(Map(out), lines[idx..]), idx;
  }

  /** The key of a line, and its value on the line or in the block below. */
  method ParseEntry(lines: seq<Line>, start: nat, pos: nat, below: nat) returns (key: string, child: Parsed, idx: nat)
    requires start < |lines| && pos < |lines[start].text|
    ensures key == KeyOf(lines[start].text, pos) && child == EntryValue(lines[start..], pos, below)
    ensures child.Ok? ==> start < idx <= |lines| && lines[idx..] == child.rest
    decreases |lines| - start - 1, 2
  {
    assert lines[start..][0] == lines[start] && lines[start..][1..] == lines[start + 1..];
    var val;
    key, val := Sides(lines[start].text, pos);
    idx := start + 1;
    if val == [] {
      child, idx := ParseBlockM(lines, idx, below);
    } else {
      var n := ParseValueM(val);
      child := Ok(n, lines[idx..]);
    }
  }

  method ParseSeqM(lines: seq<Line>, start: nat, indent: nat) returns (r: Parsed, idx: nat)
    requires start <= |lines|
    ensures r == ParseSeq(lines[start..], indent, [])
    ensures r.Ok? ==> start <= idx <= |lines| && lines[idx..] == r.rest
    decreases |lines| - start, 0
  {
    idx := start;
    var out: seq<Node> := [];
    while idx < |lines|
      invariant start <= idx <= |lines|
      invariant ParseSeq(lines[start..], indent, []) == ParseSeq(lines[idx..], indent, out)
      decreases |lines| - idx
    {
      var ln := lines[idx];
      assert lines[idx..][0] == ln;
      if ln.indent < indent { break; }
      if ln.indent != indent || !StartsWithDash(ln.text) { break; }
      var item;
      item, idx := ParseItem(lines, idx, indent);
      if item.Err? { return item, idx; }
      out := out + [item.node];
    }
    return Ok(Seq(out), lines[idx..]), idx;
  }

  /** One pass of the loop over sequence items. */
  method ParseItem(lines: seq<Line>, start: nat, indent: nat) returns (r: Parsed, idx: nat)
    requires start < |lines| && StartsWithDash(lines[start].text)
    ensures r == Item(lines[start..], indent)
    ensures r.Ok? ==> start < idx <= |lines| && lines[idx..] == r.rest
    decreases |lines| - start - 1, 3
  {
    ghost var left := lines[start..];
    assert left[0] == lines[start] && left[1..] == lines[start + 1..];
    var rest := TrimLoop(lines[start].text[2..]);
    idx := start + 1;
    if rest == [] {
      r, idx := ParseBlockM(lines, idx, indent + 2);
      return;
    }
    var pos := Find(rest, ':');
    if pos == |rest| {
      var n := ParseValueM(rest);
      return Ok(n, lines[idx..]), idx;
    }
    r, idx := ParseItemMap(lines, idx, rest, pos, indent);
  }

  method ParseItemMap(lines: seq<Line>, start: nat, text: string, pos: nat, indent: nat) returns (r: Parsed, idx: nat)
    requires start <= |lines| && pos < |text|
    ensures r == ItemMap(text, pos, lines[start..], indent)
    ensures r.Ok? ==> start <= idx <= |lines| && lines[idx..] == r.rest
    decreases |lines| - start, 2
  {
    var key, val := Sides(text, pos);
    idx := start;
    var first;
    if val != [] {
      first := ParseValueM(val);
    } else {
      var child;
      child, idx := ParseBlockM(lines, idx, indent + 2);
      if child.Err? { return child, idx; }
      first := child.node;
    }
    var all;
    all, idx := MergeM(lines, idx, indent, map[key := first]);
    r := if all.Fail? then Err(all.error) else Ok(Map(all.found), all.left);
  }

  method MergeM(lines: seq<Line>, start: nat, indent: nat, first: map<string, Node>) returns (r: Entries, idx: nat)
    requires start <= |lines|
    ensures r == Merge(lines[start..], indent, first)
    ensures r.Got? ==> start <= idx <= |lines| && lines[idx..] == r.left
    decreases |lines| - start, 0
  {
    idx := start;
    var out := first;
    while idx < |lines| && lines[idx].indent == indent + 2 && !StartsWithDash(lines[idx].text)
      invariant start <= idx <= |lines|
      invariant Merge(lines[start..], indent, first) == Merge(lines[idx..], indent, out)
      decreases |lines| - idx
    {
      var ln := lines[idx];
      ghost var left := lines[idx..];
      assert left[0] == ln && left[1..] == lines[idx + 1..];
      var pos := Find(ln.text, ':');
      if pos == |ln.text| { return Fail("expected key: value in map"), idx; }
      MergeStep(left, indent, out, pos);
      var key, child;
      key, child, idx := ParseEntry(lines, idx, pos, indent + 4);
      if child.Err? { return Fail(child.error), idx; }
      out := Emplace(out, key, child.node);
    }
    return Got(out, lines[idx..]), idx;
  }

  // ----- Lines of a text -----

  datatype Lines = Good(lines: seq<Line>) | Bad(error: string)

  function WithoutBom(s: string): string {
    if |s| >= 3 && s[0] as int == 0xEF && s[1] as int == 0xBB && s[2] as int == 0xBF then s[3..] else s
  }

  function WithoutReturn(s: string): string {
    if s != [] && s[|s| - 1] == '\r' then s[..|s| - 1] else s
  }

  function Clean(s: string): string { TrimRight(StripFrom(WithoutBom(WithoutReturn(s)), 0, None)) }

  function Blanks(s: string): (r: nat)
    ensures r <= |s|
  {
    if s != [] && s[0] == ' ' then 1 + Blanks(s[1..]) else 0
  }

  predicate Tabbed(line: string) { Blanks(line) < |line| && line[Blanks(line)] == '\t' }

  /** What a cleaned line adds: nothing if it is blank. */
  function LineOf(line: string): seq<Line> {
    if Blanks(line) < |line| then [Line(Blanks(line), line[Blanks(line)..])] else []
  }

  /** A line break ends a line; text after the last one is a line too. */
  function AfterBreak(text: string, end: nat): (r: string)
    requires end <= |text|
    ensures text != [] ==> |r| < |text|
  {
    if end < |text| then text[end + 1..] else []
  }

  function LinesFrom(text: string, acc: seq<Line>): Lines
    decreases |text|
  {
    if text == [] then Good(acc)
    else
      var end := Find(text, '\n');
      var line := Clean(text[..end]);
      if Tabbed(line) then Bad("tabs not supported")
      else LinesFrom(AfterBreak(text, end), acc + LineOf(line))
  }

  lemma LinesStep(text: string, acc: seq<Line>, end: nat, line: string)
    requires text != [] && end == Find(text, '\n') && line == Clean(text[..end])
    ensures LinesFrom(text, acc) ==
      if Tabbed(line) then Bad("tabs not supported") else LinesFrom(AfterBreak(text, end), acc + LineOf(line))
  {
  }

  function Parse(text: string): Parsed {
    var lines := LinesFrom(text, []);
    if lines.Bad? then Err(lines.error) else ParseBlock(lines.lines, 0)
  }

  method CleanM(s: string) returns (line: string)
    ensures line == Clean(s)
  {
    line := s;
    if line != [] && line[|line| - 1] == '\r' { line := line[..|line| - 1]; }
    if |line| >= 3 && line[0] as int == 0xEF && line[1] as int == 0xBB && line[2] as int == 0xBF {
      line := line[3..];
    }
    line := StripComment(line);
    ghost var stripped := line;
    while line != [] && IsSpace(line[|line| - 1])
      invariant TrimRight(line) == TrimRight(stripped)
    {
      line := line[..|line| - 1];
    }
  }

  method CountBlanks(line: string) returns (indent: nat)
    ensures indent == Blanks(line)
  {
    indent := 0;
    while indent < |line| && line[indent] == ' '
      invariant indent <= |line| && Blanks(line) == indent + Blanks(line[indent..])
    {
      assert line[indent..][1..] == line[indent + 1..];
      indent := indent + 1;
    }
  }

  method AddLine(lines: seq<Line>, line: string) returns (r: Lines)
    ensures r == if Tabbed(line) then Bad("tabs not supported") else Good(lines + LineOf(line))
  {
    var indent := CountBlanks(line);
    if indent < |line| && line[indent] == '\t' { return Bad("tabs not supported"); }
    r := Good(if indent < |line| then lines + [Line(indent, line[indent..])] else lines);
  }

  method ReadLines(text: string) returns (r: Lines)
    ensures r == LinesFrom(text, [])
  {
    var lines: seq<Line> := [];
    var rest := text;
    while rest != []
      invariant LinesFrom(text, []) == LinesFrom(rest, lines)
      decreases |rest|
    {
      var end := Find(rest, '\n');
      var line := CleanM(rest[..end]);
      LinesStep(rest, lines, end, line);
      var more := AddLine(lines, line);
      if more.Bad? { return more; }
      rest, lines := AfterBreak(rest, end), more.lines;
    }
    return Good(lines);
  }

  /** The whole parser: the lines of the text, then the block. */
  method ParseText(text: string) returns (r: Parsed)
    ensures r == Parse(text)
  {
    var lines := ReadLines(text);
    if lines.Bad? { return Err(lines.error); }
    var idx;
    assert lines.lines[0..] == lines.lines;
    r, idx := ParseBlockM(lines.lines, 0, 0);
  }

  // ----- What lines look like -----

  /** The last character is not white; nothing is empty. */
  predicate RightTight(s: string) { s != [] && !IsSpace(s[|s| - 1]) }

  lemma {:induction false} LinesAreTight(text: string, acc: seq<Line>)
    requires forall l :: l in acc ==> RightTight(l.text)
    ensures var r := LinesFrom(text, acc); r.Good? ==> forall l :: l in r.lines ==> RightTight(l.text)
    decreases |text|
  {
    if text != [] {
      var end := Find(text, '\n');
      var line := Clean(text[..end]);
      LinesStep(text, acc, end, line);
      if !Tabbed(line) {
        CleanIsTight(text[..end]);
        LinesAreTight(AfterBreak(text, end), acc + LineOf(line));
      }
    }
  }

  lemma CleanIsTight(s: string)
    ensures forall l :: l in LineOf(Clean(s)) ==> RightTight(l.text)
  {
    var _ := TrimRightSplits(StripFrom(WithoutBom(WithoutReturn(s)), 0, None));
  }

  /** A dash that starts an item is always followed by something on its line, so
      that a bare dash never is an item. */
  lemma DashHasContent(text: string)
    requires RightTight(text) && StartsWithDash(text)
    ensures Trim(text[2..]) != []
  {
    var rest := text[2..];
    assert |text| > 2 && rest[|rest| - 1] == text[|text| - 1];
    var a, b := TrimSplits(rest);
    assert AllSpace(a + b);
    assert Trim(rest) == [] ==> rest == a + b;
  }
}
