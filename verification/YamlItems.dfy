/** What the block parser of 3rdparty/yaml-cpp/yaml.hpp makes of any text at all: it
    reads lines from the front, and it never returns a null item of a block sequence,
    because a dash with nothing behind it is not taken for an item. */
module YamlItems {
  import opened YamlText
  import opened Yaml
  import opened YamlFlow
  import opened YamlRoundTrip

  // ----- Whatever is parsed, what is left is the end of what there was -----

  predicate Tail(rest: seq<Line>, lines: seq<Line>) {
    |rest| <= |lines| && rest == lines[|lines| - |rest|..]
  }

  lemma TailOfRest(rest: seq<Line>, lines: seq<Line>)
    requires lines != [] && Tail(rest, lines[1..])
    ensures Tail(rest, lines)
  {
  }

  lemma TailOfTail(a: seq<Line>, b: seq<Line>, c: seq<Line>)
    requires Tail(a, b) && Tail(b, c)
    ensures Tail(a, c)
  {
  }

  lemma {:induction false} BlockTail(lines: seq<Line>, indent: nat)
    ensures var r := ParseBlock(lines, indent); r.Ok? ==> Tail(r.rest, lines)
    decreases |lines|, 1
  {
    if lines != [] && lines[0].indent >= indent {
      if StartsWithDash(lines[0].text) { SeqTail(lines, indent, []); } else { MapTail(lines, indent, map[]); }
    }
  }

  lemma {:induction false} EntryTail(lines: seq<Line>, pos: nat, below: nat)
    requires lines != [] && pos < |lines[0].text|
    ensures var r := EntryValue(lines, pos, below); r.Ok? ==> Tail(r.rest, lines)
    decreases |lines|, 0, 0
  {
    BlockTail(lines[1..], below);
    var r := EntryValue(lines, pos, below);
    if r.Ok? { TailOfRest(r.rest, lines); }
  }

  lemma {:induction false} MapTail(lines: seq<Line>, indent: nat, acc: map<string, Node>)
    ensures var r := ParseMap(lines, indent, acc); r.Ok? ==> Tail(r.rest, lines)
    decreases |lines|, 0, 1
  {
    if lines != [] && lines[0].indent == indent && !StartsWithDash(lines[0].text) {
      var pos := Find(lines[0].text, ':');
      if pos < |lines[0].text| {
        MapStep(lines, indent, acc, pos);
        EntryTail(lines, pos, indent + 2);
        var child := EntryValue(lines, pos, indent + 2);
        if child.Ok? {
          MapTail(child.rest, indent, Emplace(acc, KeyOf(lines[0].text, pos), child.node));
          var r := ParseMap(lines, indent, acc);
          if r.Ok? { TailOfTail(r.rest, child.rest, lines); }
        }
      }
    }
  }

  lemma {:induction false} MergeTail(lines: seq<Line>, indent: nat, acc: map<string, Node>)
    ensures var r := Merge(lines, indent, acc); r.Got? ==> Tail(r.left, lines)
    decreases |lines|, 0, 1
  {
    if lines != [] && lines[0].indent == indent + 2 && !StartsWithDash(lines[0].text) {
      var pos := Find(lines[0].text, ':');
      if pos < |lines[0].text| {
        MergeStep(lines, indent, acc, pos);
        EntryTail(lines, pos, indent + 4);
        var child := EntryValue(lines, pos, indent + 4);
        if child.Ok? {
          MergeTail(child.rest, indent, Emplace(acc, KeyOf(lines[0].text, pos), child.node));
          var r := Merge(lines, indent, acc);
          if r.Got? { TailOfTail(r.left, child.rest, lines); }
        }
      }
    }
  }

  lemma {:induction false} MergedTail(key: string, value: Node, lines: seq<Line>, indent: nat)
    ensures var r := Merged(key, value, lines, indent); r.Ok? ==> Tail(r.rest, lines)
    decreases |lines|, 1
  {
    MergeTail(lines, indent, map[key := value]);
  }

  lemma {:induction false} ItemMapTail(text: string, pos: nat, lines: seq<Line>, indent: nat)
    requires pos < |text|
    ensures var r := ItemMap(text, pos, lines, indent); r.Ok? ==> Tail(r.rest, lines)
    decreases |lines|, 2
  {
    BlockTail(lines, indent + 2);
    var first := FirstValue(ValueOf(text, pos), lines, indent);
    if first.Ok? {
      var r := Merged(KeyOf(text, pos), first.node, first.rest, indent);
      MergedTail(KeyOf(text, pos), first.node, first.rest, indent);
      if r.Ok? { TailOfTail(r.rest, first.rest, lines); }
    }
  }

  lemma {:induction false} ItemTail(lines: seq<Line>, indent: nat)
    requires lines != [] && StartsWithDash(lines[0].text)
    ensures var r := Item(lines, indent); r.Ok? ==> Tail(r.rest, lines)
    decreases |lines|, 0, 0
  {
    var text := Trim(lines[0].text[2..]);
    var pos := Find(text, ':');
    BlockTail(lines[1..], indent + 2);
    if pos < |text| { ItemMapTail(text, pos, lines[1..], indent); }
    var r := Item(lines, indent);
    if r.Ok? { TailOfRest(r.rest, lines); }
  }

  lemma {:induction false} SeqTail(lines: seq<Line>, indent: nat, acc: seq<Node>)
    ensures var r := ParseSeq(lines, indent, acc); r.Ok? ==> Tail(r.rest, lines)
    decreases |lines|, 0, 1
  {
    if lines != [] && lines[0].indent == indent && StartsWithDash(lines[0].text) {
      SeqStep(lines, indent, acc);
      ItemTail(lines, indent);
      var item := Item(lines, indent);
      if item.Ok? {
        SeqTail(item.rest, indent, acc + [item.node]);
        var r := ParseSeq(lines, indent, acc);
        if r.Ok? { TailOfTail(r.rest, item.rest, lines); }
      }
    }
  }

  // ----- No null items -----

  predicate AllRightTight(lines: seq<Line>) { forall l :: l in lines ==> RightTight(l.text) }

  lemma TailIsTight(rest: seq<Line>, lines: seq<Line>)
    requires Tail(rest, lines) && AllRightTight(lines)
    ensures AllRightTight(rest)
  {
    forall l | l in rest ensures RightTight(l.text) {
      assert l in lines;
    }
  }

  lemma ItemIsNotNull(lines: seq<Line>, indent: nat)
    requires lines != [] && StartsWithDash(lines[0].text) && RightTight(lines[0].text)
    ensures var r := Item(lines, indent); r.Ok? ==> r.node != Null
  {
    DashHasContent(lines[0].text);
    var text := Trim(lines[0].text[2..]);
    var a, b := TrimSplits(lines[0].text[2..]);
    TrimTight(text);
    ValueIsNotNull(text);
    if Find(text, ':') < |text| { ItemMapHasKey(text, Find(text, ':'), lines[1..], indent); }
  }

  lemma ValueIsNotNull(t: string)
    requires t != [] && Trim(t) == t
    ensures ParseValue(t) != Null
  {
  }

  predicate NoneNull(items: seq<Node>) { Null !in items }

  lemma {:induction false} SeqHasNoNull(lines: seq<Line>, indent: nat, acc: seq<Node>)
    requires AllRightTight(lines) && NoneNull(acc)
    ensures var r := ParseSeq(lines, indent, acc); r.Ok? ==> r.node.Seq? && NoneNull(r.node.items)
    decreases |lines|
  {
    if lines != [] && lines[0].indent == indent && StartsWithDash(lines[0].text) {
      assert lines[0] in lines;
      SeqStep(lines, indent, acc);
      ItemIsNotNull(lines, indent);
      ItemTail(lines, indent);
      var item := Item(lines, indent);
      if item.Ok? {
        TailIsTight(item.rest, lines);
        SeqHasNoNull(item.rest, indent, acc + [item.node]);
      }
    }
  }

  /** For every text: a document that is a block sequence has no null item, so that a
      sequence with one has no rendering. */
  lemma NoNullItem(text: string)
    ensures var r := Parse(text); r.Ok? && r.node.Seq? ==> NoneNull(r.node.items)
  {
    LinesAreTight(text, []);
    var lines := LinesFrom(text, []);
    if lines.Good? {
      SeqHasNoNull(lines.lines, 0, []);
      MapIsNotSeq(lines.lines, 0, map[]);
    }
  }

  lemma {:induction false} MapIsNotSeq(lines: seq<Line>, indent: nat, acc: map<string, Node>)
    ensures var r := ParseMap(lines, indent, acc); r.Ok? ==> r.node.Map?
    decreases |lines|
  {
    if lines != [] && lines[0].indent == indent && !StartsWithDash(lines[0].text) {
      var pos := Find(lines[0].text, ':');
      if pos < |lines[0].text| {
        MapStep(lines, indent, acc, pos);
        var child := EntryValue(lines, pos, indent + 2);
        if child.Ok? { MapIsNotSeq(child.rest, indent, Emplace(acc, KeyOf(lines[0].text, pos), child.node)); }
      }
    }
  }

  /** A block whose first line starts with a dash and white space is a sequence, and every
      other block a map, whatever its first line looks like. */
  lemma KindOfBlock(lines: seq<Line>, indent: nat)
    requires lines != [] && lines[0].indent >= indent && lines[0].text != []
    ensures var t, r := lines[0].text, ParseBlock(lines, indent);
      r.Ok? ==> if |t| >= 2 && t[0] == '-' && IsSpace(t[1]) then r.node.Seq? else r.node.Map?
  {
    MapIsNotSeq(lines, indent, map[]);
    SeqIsSeq(lines, indent, []);
  }

  lemma {:induction false} SeqIsSeq(lines: seq<Line>, indent: nat, acc: seq<Node>)
    ensures var r := ParseSeq(lines, indent, acc); r.Ok? ==> r.node.Seq?
    decreases |lines|
  {
    if lines != [] && lines[0].indent == indent && StartsWithDash(lines[0].text) {
      SeqStep(lines, indent, acc);
      var item := Item(lines, indent);
      if item.Ok? { SeqIsSeq(item.rest, indent, acc + [item.node]); }
    }
  }

  // ----- What becomes of a bare dash -----

  /** A dash with nothing but blanks behind it is cut to a bare dash. */
  lemma {:induction false} BareDashLine(n: nat, m: nat)
    ensures LineOf(Clean(Spaces(n) + "-" + Spaces(m))) == [Line(n, "-")]
  {
    var s := Spaces(n) + "-" + Spaces(m);
    TameIsWhole(s);
    StripWhole(s);
    TrimSpaces(Spaces(n) + "-", m);
    BlanksOfSpaces(n, "-");
    assert (Spaces(n) + "-")[n..] == "-";
  }

  /** Where a block begins, a bare dash is an error ... */
  lemma BareDashFails(more: seq<Line>, indent: nat)
    ensures ParseBlock([Line(indent, "-")] + more, indent) == Err("expected key: value")
  {
    var lines := [Line(indent, "-")] + more;
    assert lines[0] == Line(indent, "-");
    FindNone("-", ':');
  }

  /** ... also after entries of a map ... */
  lemma BareDashFailsInMap(es: seq<Entry>, more: seq<Line>, indent: nat)
    requires es != [] && forall e :: e in es ==> EntryOk(e)
    ensures ParseBlock(RenderLines(es, indent) + ([Line(indent, "-")] + more), indent) == Err("expected key: value")
  {
    var rest := [Line(indent, "-")] + more;
    assert rest[0] == Line(indent, "-") && es[0] in es;
    FirstLine(es, indent);
    EntriesRoundTrip(es, indent, rest, map[]);
    FindNone("-", ':');
  }

  /** ... and after items it ends their sequence: it and all that follows is left unread. */
  lemma BareDashEndsSequence(xs: seq<Element>, more: seq<Line>, indent: nat)
    requires xs != [] && forall x :: x in xs ==> ElementOk(x)
    ensures ParseBlock(RenderElements(xs, indent) + ([Line(indent, "-")] + more), indent) ==
            Ok(Seq(ElementNodes(xs)), [Line(indent, "-")] + more)
  {
    var rest := [Line(indent, "-")] + more;
    assert rest[0] == Line(indent, "-");
    BodyRoundTrip(Listing(xs), indent, rest);
  }
}
