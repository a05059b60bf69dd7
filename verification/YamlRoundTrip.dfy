/** The canonical subset of the YAML parser (3rdparty/yaml-cpp/yaml.hpp), and its round
    trip: block maps and block sequences at a two-space indent, nested at will, whose
    leaves are empty, plain tokens, quoted text, flow maps or flow sequences.  Parsing the rendering
    of a tree gives back its meaning, with every line consumed. */
module YamlRoundTrip {
  import opened Basics
  import opened YamlText
  import opened Yaml
  import opened YamlFlow

  // ----- Trees -----

  /** A block: a map or a sequence. */
  datatype Body = Mapping(entries: seq<Entry>) | Listing(elements: seq<Element>)
  datatype Entry = Leaf(key: string, value: Flow) | Nested(key: string, body: Body)

  /** An item of a block sequence: a value behind a dash, or a map whose first entry
      stands behind the dash. */
  datatype Element = Single(value: Flow) | Grouped(entries: seq<Entry>)

  predicate BodyOk(b: Body) {
    match b
    case Mapping(es) => es != [] && forall e :: e in es ==> EntryOk(e)
    case Listing(xs) => xs != [] && forall x :: x in xs ==> ElementOk(x)
  }

  predicate EntryOk(e: Entry) {
    PlainToken(e.key) &&
    match e
    case Leaf(_, v) => FlowOk(v)
    case Nested(_, b) => BodyOk(b)
  }

  /** A value behind a dash is not empty and has no colon; below the first entry of a
      map behind a dash there is no map, nor nothing, if there is a second entry. */
  predicate ElementOk(x: Element) {
    match x
    case Single(f) => FlowOk(f) && SingleOk(f)
    case Grouped(es) => es != [] && (forall e :: e in es ==> EntryOk(e)) && (|es| == 1 || Closed(es[0]))
  }

  predicate SingleOk(f: Flow) { f != Empty && ':' !in Text(f) }

  predicate Closed(e: Entry) { if e.Leaf? then e.value != Empty else e.body.Listing? }

  // ----- Their meaning -----

  function BodyNode(b: Body): Node {
    match b
    case Mapping(es) => Map(Meaning(es, map[]))
    case Listing(xs) => Seq(ElementNodes(xs))
  }

  function EntryNode(e: Entry): Node {
    match e
    case Leaf(_, v) => NodeOf(v)
    case Nested(_, b) => BodyNode(b)
  }

  function ElementNode(x: Element): Node {
    match x
    case Single(f) => NodeOf(f)
    case Grouped(es) => Map(Meaning(es, map[]))
  }

  function ElementNodes(xs: seq<Element>): seq<Node> {
    if xs == [] then [] else [ElementNode(xs[0])] + ElementNodes(xs[1..])
  }

  function Meaning(es: seq<Entry>, acc: map<string, Node>): map<string, Node> {
    if es == [] then acc else Meaning(es[1..], Emplace(acc, es[0].key, EntryNode(es[0])))
  }

  /** With distinct keys the meaning holds every entry, and nothing else. */
  lemma {:induction false} MeaningHoldsEveryEntry(es: seq<Entry>, acc: map<string, Node>)
    requires forall i, j :: 0 <= i < j < |es| ==> es[i].key != es[j].key
    requires forall i :: 0 <= i < |es| ==> es[i].key !in acc
    ensures forall i :: 0 <= i < |es| ==> es[i].key in Meaning(es, acc) && Meaning(es, acc)[es[i].key] == EntryNode(es[i])
    ensures forall k :: k in acc ==> k in Meaning(es, acc) && Meaning(es, acc)[k] == acc[k]
    ensures forall k :: k in Meaning(es, acc) ==> k in acc || exists i :: 0 <= i < |es| && es[i].key == k
    decreases |es|
  {
    if es != [] {
      var rest, more := es[1..], acc[es[0].key := EntryNode(es[0])];
      MeaningHoldsEveryEntry(rest, more);
      forall i | 0 <= i < |es|
        ensures es[i].key in Meaning(es, acc) && Meaning(es, acc)[es[i].key] == EntryNode(es[i])
      {
        if i > 0 { assert rest[i - 1] == es[i]; } else { assert es[0].key in more; }
      }
    }
  }

  /** The meaning of a sequence holds the items, in order. */
  lemma {:induction false} ElementNodesHoldEveryElement(xs: seq<Element>)
    ensures |ElementNodes(xs)| == |xs| && forall i :: 0 <= i < |xs| ==> ElementNodes(xs)[i] == ElementNode(xs[i])
  {
    if xs != [] { ElementNodesHoldEveryElement(xs[1..]); }
  }

  // ----- Their rendering -----

  function HeadText(e: Entry): string { EntryText(e.key, if e.Leaf? then Text(e.value) else []) }

  function BodyLines(b: Body, indent: nat): seq<Line>
    decreases b
  {
    match b
    case Mapping(es) => RenderLines(es, indent)
    case Listing(xs) => RenderElements(xs, indent)
  }

  /** The lines below the first line of an entry. */
  function Below(e: Entry, indent: nat): seq<Line>
    decreases e, 0
  {
    match e
    case Leaf(_, _) => []
    case Nested(_, b) => BodyLines(b, indent)
  }

  function EntryLines(e: Entry, indent: nat): seq<Line>
    decreases e, 1
  {
    [Line(indent, HeadText(e))] + Below(e, indent + 2)
  }

  function RenderLines(es: seq<Entry>, indent: nat): seq<Line>
    decreases es
  {
    if es == [] then [] else EntryLines(es[0], indent) + RenderLines(es[1..], indent)
  }

  function Dashed(text: string): string { "- " + text }

  function ElementLines(x: Element, indent: nat): seq<Line>
    decreases x
  {
    match x
    case Single(f) => [Line(indent, Dashed(Text(f)))]
    case Grouped(es) =>
      if es == [] then []
      else [Line(indent, Dashed(HeadText(es[0])))] + (Below(es[0], indent + 2) + RenderLines(es[1..], indent + 2))
  }

  function RenderElements(xs: seq<Element>, indent: nat): seq<Line>
    decreases xs
  {
    if xs == [] then [] else ElementLines(xs[0], indent) + RenderElements(xs[1..], indent)
  }

  function Spaces(n: nat): (r: string)
    ensures |r| == n && forall i :: 0 <= i < n ==> r[i] == ' '
  {
    seq(n, i => ' ')
  }

  function RenderText(lines: seq<Line>): string {
    if lines == [] then [] else Spaces(lines[0].indent) + lines[0].text + "\n" + RenderText(lines[1..])
  }

  // ----- First lines -----

  lemma HeadFacts(e: Entry)
    requires EntryOk(e)
    ensures var t := HeadText(e);
      && Find(t, ':') == |e.key| < |t| && KeyOf(t, |e.key|) == e.key
      && ValueOf(t, |e.key|) == (if e.Leaf? then Text(e.value) else [])
      && Tight(t) && t != [] && !StartsWithDash(t)
  {
    if e.Leaf? { TextTight(e.value); }
    EntryTextFacts(e.key, if e.Leaf? then Text(e.value) else []);
  }

  lemma DashFacts(text: string)
    requires Tight(text) && text != []
    ensures StartsWithDash(Dashed(text)) && Trim(Dashed(text)[2..]) == text && Tight(Dashed(text))
  {
    assert Dashed(text)[2..] == text;
    TrimTight(text);
  }

  lemma FirstLine(es: seq<Entry>, indent: nat)
    requires es != [] && EntryOk(es[0])
    ensures var r := RenderLines(es, indent); r != [] && r[0].indent == indent && !StartsWithDash(r[0].text)
  {
    HeadFacts(es[0]);
  }

  lemma FirstElement(xs: seq<Element>, indent: nat)
    requires xs != [] && ElementOk(xs[0])
    ensures var r := RenderElements(xs, indent); r != [] && r[0].indent == indent && StartsWithDash(r[0].text)
  {
    match xs[0]
    case Single(f) =>
      TextTight(f);
      DashFacts(Text(f));
    case Grouped(es) =>
      assert es[0] in es;
      HeadFacts(es[0]);
      DashFacts(HeadText(es[0]));
  }

  lemma Reassociate<T>(a: seq<T>, b: seq<T>, c: seq<T>)
    ensures a + b + c == a + (b + c)
  {
  }

  // ----- Blocks come back -----

  /** The next line is not part of a block at this indent. */
  predicate EndsBlock(rest: seq<Line>, indent: nat) { rest == [] || rest[0].indent < indent }

  /** The next line is not an item of a sequence at this indent, nor deeper. */
  predicate EndsSeq(rest: seq<Line>, indent: nat) {
    EndsBlock(rest, indent) || (rest[0].indent == indent && !StartsWithDash(rest[0].text))
  }

  predicate EndsBody(b: Body, rest: seq<Line>, indent: nat) {
    if b.Listing? then EndsSeq(rest, indent) else EndsBlock(rest, indent)
  }

  lemma {:induction false} BodyRoundTrip(b: Body, indent: nat, rest: seq<Line>)
    requires BodyOk(b) && EndsBody(b, rest, indent)
    ensures ParseBlock(BodyLines(b, indent) + rest, indent) == Ok(BodyNode(b), rest)
    decreases b, 1
  {
    match b
    case Mapping(es) =>
      assert es[0] in es;
      FirstLine(es, indent);
      BlockRoundTrip(es, indent, rest, map[]);
    case Listing(xs) =>
      assert xs[0] in xs;
      FirstElement(xs, indent);
      SeqRoundTrip(xs, indent, rest, []);
      assert [] + ElementNodes(xs) == ElementNodes(xs);
  }

  /** One entry, with whatever follows. */
  lemma {:induction false} EntryRoundTrip(e: Entry, indent: nat, rest: seq<Line>)
    requires EntryOk(e) && EndsBlock(rest, indent + 2)
    ensures var lines := EntryLines(e, indent) + rest;
      && lines[0] == Line(indent, HeadText(e)) && |e.key| < |HeadText(e)|
      && EntryValue(lines, |e.key|, indent + 2) == Ok(EntryNode(e), rest)
    decreases e, 0
  {
    var lines := EntryLines(e, indent) + rest;
    HeadFacts(e);
    Reassociate([lines[0]], Below(e, indent + 2), rest);
    assert lines[1..] == Below(e, indent + 2) + rest;
    match e
    case Leaf(k, v) =>
      assert lines[1..] == rest;
      TextTight(v);
      FlowRoundTrip(v);
      ValueRoundTrip(v);
    case Nested(k, b) => BodyRoundTrip(b, indent + 2, rest);
  }

  /** The entries of a map, with whatever follows at the same indent. */
  lemma {:induction false} EntriesRoundTrip(es: seq<Entry>, indent: nat, rest: seq<Line>, acc: map<string, Node>)
    requires (forall e :: e in es ==> EntryOk(e)) && EndsBlock(rest, indent + 1)
    ensures ParseMap(RenderLines(es, indent) + rest, indent, acc) == ParseMap(rest, indent, Meaning(es, acc))
    decreases es, 0
  {
    if es == [] {
      assert RenderLines(es, indent) + rest == rest;
    } else {
      var e, more := es[0], RenderLines(es[1..], indent) + rest;
      assert e in es;
      if es[1..] != [] { FirstLine(es[1..], indent); }
      assert es[1..] == [] ==> more == rest;
      EntryRoundTrip(e, indent, more);
      HeadFacts(e);
      var lines := EntryLines(e, indent) + more;
      Reassociate(EntryLines(e, indent), RenderLines(es[1..], indent), rest);
      MapStep(lines, indent, acc, |e.key|);
      EntriesRoundTrip(es[1..], indent, rest, Emplace(acc, e.key, EntryNode(e)));
    }
  }

  lemma {:induction false} BlockRoundTrip(es: seq<Entry>, indent: nat, rest: seq<Line>, acc: map<string, Node>)
    requires (forall e :: e in es ==> EntryOk(e)) && EndsBlock(rest, indent)
    ensures ParseMap(RenderLines(es, indent) + rest, indent, acc) == Ok(Map(Meaning(es, acc)), rest)
    decreases es, 1
  {
    EntriesRoundTrip(es, indent, rest, acc);
  }

  /** The entries that follow the first one behind a dash. */
  lemma {:induction false} MergeRoundTrip(es: seq<Entry>, indent: nat, rest: seq<Line>, acc: map<string, Node>)
    requires (forall e :: e in es ==> EntryOk(e)) && EndsBlock(rest, indent + 2)
    ensures Merge(RenderLines(es, indent + 2) + rest, indent, acc) == Got(Meaning(es, acc), rest)
    decreases es
  {
    if es == [] {
      assert RenderLines(es, indent + 2) + rest == rest;
    } else {
      var e, more := es[0], RenderLines(es[1..], indent + 2) + rest;
      assert e in es;
      if es[1..] != [] { FirstLine(es[1..], indent + 2); }
      assert es[1..] == [] ==> more == rest;
      EntryRoundTrip(e, indent + 2, more);
      HeadFacts(e);
      var lines := EntryLines(e, indent + 2) + more;
      Reassociate(EntryLines(e, indent + 2), RenderLines(es[1..], indent + 2), rest);
      MergeStep(lines, indent, acc, |e.key|);
      MergeRoundTrip(es[1..], indent, rest, Emplace(acc, e.key, EntryNode(e)));
    }
  }

  /** What may follow the first entry behind a dash. */
  predicate EndsFirst(e: Entry, more: seq<Line>, indent: nat) {
    match e
    case Leaf(_, v) => v == Empty ==> EndsBlock(more, indent)
    case Nested(_, b) => EndsBody(b, more, indent)
  }

  /** The value of that first entry. */
  lemma {:induction false} FirstRoundTrip(e: Entry, indent: nat, more: seq<Line>)
    requires EntryOk(e) && EndsFirst(e, more, indent + 2)
    ensures FirstValue(ValueOf(HeadText(e), |e.key|), Below(e, indent + 2) + more, indent) == Ok(EntryNode(e), more)
    decreases e, 0
  {
    HeadFacts(e);
    match e
    case Leaf(_, v) =>
      assert Below(e, indent + 2) + more == more;
      TextTight(v);
      FlowRoundTrip(v);
      ValueRoundTrip(v);
    case Nested(_, b) => BodyRoundTrip(b, indent + 2, more);
  }

  /** What follows the first entry of an item ends it. */
  lemma AfterFirst(es: seq<Entry>, indent: nat, rest: seq<Line>)
    requires ElementOk(Grouped(es)) && EndsBlock(rest, indent + 1)
    ensures EndsFirst(es[0], RenderLines(es[1..], indent + 2) + rest, indent + 2)
  {
    if |es| == 1 {
      assert RenderLines(es[1..], indent + 2) + rest == rest;
    } else {
      assert es[1] in es && es[1..][0] == es[1];
      FirstLine(es[1..], indent + 2);
    }
  }

  lemma {:induction false} MergedRoundTrip(es: seq<Entry>, indent: nat, rest: seq<Line>)
    requires es != [] && (forall e :: e in es ==> EntryOk(e)) && EndsBlock(rest, indent + 2)
    ensures Merged(es[0].key, EntryNode(es[0]), RenderLines(es[1..], indent + 2) + rest, indent)
            == Ok(Map(Meaning(es, map[])), rest)
    decreases es, 0
  {
    var first: map<string, Node> := map[es[0].key := EntryNode(es[0])];
    assert first == Emplace(map[], es[0].key, EntryNode(es[0]));
    MergeRoundTrip(es[1..], indent, rest, first);
  }

  lemma {:induction false} GroupRoundTrip(es: seq<Entry>, indent: nat, rest: seq<Line>)
    requires ElementOk(Grouped(es)) && EndsBlock(rest, indent + 1)
    ensures |es[0].key| < |HeadText(es[0])|
    ensures ItemMap(HeadText(es[0]), |es[0].key|, Below(es[0], indent + 2) + (RenderLines(es[1..], indent + 2) + rest), indent)
            == Ok(Map(Meaning(es, map[])), rest)
    decreases es, 1
  {
    assert es[0] in es;
    HeadFacts(es[0]);
    AfterFirst(es, indent, rest);
    FirstRoundTrip(es[0], indent, RenderLines(es[1..], indent + 2) + rest);
    MergedRoundTrip(es, indent, rest);
  }

  lemma SingleRoundTrip(f: Flow, indent: nat, rest: seq<Line>)
    requires FlowOk(f) && SingleOk(f)
    ensures var lines := [Line(indent, Dashed(Text(f)))] + rest;
      StartsWithDash(lines[0].text) && Item(lines, indent) == Ok(NodeOf(f), rest)
  {
    TextTight(f);
    DashFacts(Text(f));
    FlowRoundTrip(f);
    ValueRoundTrip(f);
    FindNone(Text(f), ':');
    assert ([Line(indent, Dashed(Text(f)))] + rest)[1..] == rest;
  }

  /** The line of a dash and a key goes to the parser of maps behind dashes. */
  lemma ItemOfGroup(e: Entry, below: seq<Line>, indent: nat)
    requires EntryOk(e)
    ensures |e.key| < |HeadText(e)|
    ensures var lines := [Line(indent, Dashed(HeadText(e)))] + below;
      StartsWithDash(lines[0].text) && Item(lines, indent) == ItemMap(HeadText(e), |e.key|, below, indent)
  {
    HeadFacts(e);
    ColonItem(HeadText(e), |e.key|, below, indent);
  }

  /** One item, with whatever follows. */
  lemma {:induction false} ElementRoundTrip(x: Element, indent: nat, rest: seq<Line>)
    requires ElementOk(x) && EndsBlock(rest, indent + 1)
    ensures var lines := ElementLines(x, indent) + rest;
      && lines[0].indent == indent && StartsWithDash(lines[0].text)
      && Item(lines, indent) == Ok(ElementNode(x), rest)
    decreases x
  {
    match x
    case Single(f) => SingleRoundTrip(f, indent, rest);
    case Grouped(es) =>
      var e := es[0];
      assert e in es;
      var head, below, more := [Line(indent, Dashed(HeadText(e)))], Below(e, indent + 2), RenderLines(es[1..], indent + 2);
      assert ElementLines(x, indent) + rest == head + (below + (more + rest));
      ItemOfGroup(e, below + (more + rest), indent);
      GroupRoundTrip(es, indent, rest);
  }

  lemma FindNone(s: string, c: char)
    requires c !in s
    ensures Find(s, c) == |s|
  {
  }

  lemma SeqStep(lines: seq<Line>, indent: nat, acc: seq<Node>)
    requires lines != [] && lines[0].indent == indent && StartsWithDash(lines[0].text)
    ensures var item := Item(lines, indent);
      ParseSeq(lines, indent, acc) == if item.Err? then item else ParseSeq(item.rest, indent, acc + [item.node])
  {
  }

  lemma {:induction false} SeqRoundTrip(xs: seq<Element>, indent: nat, rest: seq<Line>, acc: seq<Node>)
    requires (forall x :: x in xs ==> ElementOk(x)) && EndsSeq(rest, indent)
    ensures ParseSeq(RenderElements(xs, indent) + rest, indent, acc) == Ok(Seq(acc + ElementNodes(xs)), rest)
    decreases xs
  {
    if xs == [] {
      assert RenderElements(xs, indent) + rest == rest && acc + [] == acc;
    } else {
      var x, more := xs[0], RenderElements(xs[1..], indent) + rest;
      assert x in xs;
      if xs[1..] != [] {
        assert xs[1] in xs && xs[1..][0] == xs[1];
        FirstElement(xs[1..], indent);
      }
      assert xs[1..] == [] ==> more == rest;
      ElementRoundTrip(x, indent, more);
      var lines := ElementLines(x, indent) + more;
      Reassociate(ElementLines(x, indent), RenderElements(xs[1..], indent), rest);
      SeqStep(lines, indent, acc);
      SeqRoundTrip(xs[1..], indent, rest, acc + [ElementNode(x)]);
      Regroup(acc, ElementNode(x), ElementNodes(xs[1..]), ElementNodes(xs));
    }
  }

  // ----- What the conditions on items are for -----

  /** Merging only ever adds keys. */
  lemma {:induction false} MergeKeeps(lines: seq<Line>, indent: nat, acc: map<string, Node>)
    ensures var r := Merge(lines, indent, acc); r.Got? ==> forall k :: k in acc ==> k in r.found
    decreases |lines|
  {
    if lines != [] && lines[0].indent == indent + 2 && !StartsWithDash(lines[0].text) {
      var pos := Find(lines[0].text, ':');
      if pos < |lines[0].text| {
        MergeStep(lines, indent, acc, pos);
        var child := EntryValue(lines, pos, indent + 4);
        if child.Ok? {
          MergeKeeps(child.rest, indent, Emplace(acc, KeyOf(lines[0].text, pos), child.node));
        }
      }
    }
  }

  lemma {:induction false} FlowKeys(es: seq<FlowEntry>, acc: map<string, Node>)
    requires (forall e :: e in es ==> PlainToken(e.key)) && forall k :: k in acc ==> PlainToken(k)
    ensures forall k :: k in FlowMeaning(es, acc) ==> PlainToken(k)
    decreases |es|
  {
    if es != [] {
      assert es[0] in es;
      FlowKeys(es[1..], Emplace(acc, es[0].key, NodeOf(es[0].value)));
    }
  }

  /** What stands before a colon in a flow value is no plain token. */
  lemma KeyOfFlow(f: Flow, pos: nat)
    requires FlowOk(f) && f.FlowMap? && 0 < pos < |Text(f)|
    ensures !PlainToken(KeyOf(Text(f), pos))
  {
    TextTight(f);
    var t := Text(f)[..pos];
    var a, b := TrimSplits(t);
    assert t[0] == Text(f)[0] && !IsSpace(t[0]);
    assert Trim(t)[0] == t[0];
  }

  /** A value behind a dash is read back exactly when it has no colon, since the parser
      takes any colon there for that of a key. */
  lemma SingleReadBackIff(f: Flow, indent: nat, rest: seq<Line>)
    requires FlowOk(f) && f != Empty && EndsBlock(rest, indent + 1)
    ensures var lines := [Line(indent, Dashed(Text(f)))] + rest;
      StartsWithDash(lines[0].text) && (Item(lines, indent) == Ok(NodeOf(f), rest) <==> ':' !in Text(f))
  {
    TextTight(f);
    DashFacts(Text(f));
    if ':' !in Text(f) {
      ElementRoundTrip(Single(f), indent, rest);
    } else {
      ColonIsAKey(f, indent, rest);
    }
  }

  lemma ColonIsAKey(f: Flow, indent: nat, rest: seq<Line>)
    requires FlowOk(f) && f != Empty && ':' in Text(f)
    ensures var lines := [Line(indent, Dashed(Text(f)))] + rest;
      StartsWithDash(lines[0].text) && Item(lines, indent) != Ok(NodeOf(f), rest)
  {
    TextTight(f);
    DashFacts(Text(f));
    if f.Token? { TokenFacts(f.text); }
    var pos := ColonAt(Text(f));
    ColonItem(Text(f), pos, rest, indent);
    ItemMapHasKey(Text(f), pos, rest, indent);
    if f.FlowMap? {
      KeyOfFlow(f, pos);
      FlowKeys(f.entries, map[]);
    }
  }

  lemma ColonAt(t: string) returns (pos: nat)
    requires ':' in t && t[0] != ':'
    ensures 0 < pos == Find(t, ':') < |t|
  {
    pos := Find(t, ':');
    assert t[..|t|] == t;
  }

  lemma ColonItem(t: string, pos: nat, rest: seq<Line>, indent: nat)
    requires Tight(t) && pos == Find(t, ':') < |t|
    ensures var lines := [Line(indent, Dashed(t))] + rest;
      StartsWithDash(lines[0].text) && Item(lines, indent) == ItemMap(t, pos, rest, indent)
  {
    DashFacts(t);
    assert ([Line(indent, Dashed(t))] + rest)[1..] == rest;
  }

  lemma MergedHasKey(key: string, value: Node, lines: seq<Line>, indent: nat)
    ensures var r := Merged(key, value, lines, indent); r.Ok? ==> r.node.Map? && key in r.node.entries
  {
    var acc := map[key := value];
    MergeKeeps(lines, indent, acc);
    assert key in acc;
  }

  lemma ItemMapHasKey(text: string, pos: nat, lines: seq<Line>, indent: nat)
    requires pos < |text|
    ensures var r := ItemMap(text, pos, lines, indent); r.Ok? ==> r.node.Map? && KeyOf(text, pos) in r.node.entries
  {
    var first := FirstValue(ValueOf(text, pos), lines, indent);
    if first.Ok? { MergedHasKey(KeyOf(text, pos), first.node, first.rest, indent); }
  }

  // ----- Text comes back -----

  /** The text of a line that comes back: it begins with a printable character. */
  ghost predicate Neat(s: string) { s != [] && Tight(s) && Whole(s) && '!' <= s[0] <= '~' }

  /** Nothing is stripped from a line without a comment. */
  lemma StripWhole(s: string)
    requires Whole(s)
    ensures StripFrom(s, 0, None) == s
  {
    StripCutsAtComment(s, 0);
    var r := StripFrom(s, 0, None);
    assert s[..|s|] == s;
  }

  lemma {:induction false} BlanksOfSpaces(n: nat, s: string)
    requires s != [] && s[0] != ' '
    ensures Blanks(Spaces(n) + s) == n
  {
    if n == 0 {
      assert Spaces(0) + s == s;
    } else {
      assert Spaces(n)[1..] == Spaces(n - 1);
      assert (Spaces(n) + s)[1..] == Spaces(n - 1) + s;
      BlanksOfSpaces(n - 1, s);
    }
  }

  lemma {:induction false} TrimSpaces(s: string, m: nat)
    requires RightTight(s)
    ensures TrimRight(s + Spaces(m)) == s
  {
    if m == 0 {
      assert s + Spaces(0) == s;
    } else {
      var all := s + Spaces(m);
      assert all[..|all| - 1] == s + Spaces(m - 1);
      TrimSpaces(s, m - 1);
    }
  }

  /** Cleaning leaves such a line alone. */
  lemma CleanWhole(s: string)
    requires Whole(s) && RightTight(s) && ' ' <= s[0] <= '~'
    ensures Clean(s) == s
  {
    StripWhole(s);
  }

  lemma CleanNeat(l: Line)
    requires Neat(l.text)
    ensures var s := Spaces(l.indent) + l.text; Clean(s) == s && !Tabbed(s) && LineOf(s) == [l] && '\n' !in s
  {
    var s := Spaces(l.indent) + l.text;
    TameIsWhole(Spaces(l.indent));
    WholeConcat(Spaces(l.indent), l.text);
    assert s[|s| - 1] == l.text[|l.text| - 1] && (s[0] == ' ' || s[0] == l.text[0]);
    CleanWhole(s);
    SpacesThenText(l.indent, l.text);
  }

  lemma SpacesThenText(n: nat, text: string)
    requires text != [] && !IsSpace(text[0])
    ensures var s := Spaces(n) + text; !Tabbed(s) && LineOf(s) == [Line(n, text)]
  {
    BlanksOfSpaces(n, text);
    assert (Spaces(n) + text)[n..] == text;
  }

  lemma LineRoundTrip(l: Line, rest: string, acc: seq<Line>)
    requires Neat(l.text)
    ensures LinesFrom(Spaces(l.indent) + l.text + "\n" + rest, acc) == LinesFrom(rest, acc + [l])
  {
    var s := Spaces(l.indent) + l.text;
    CleanNeat(l);
    AtBreak(s, rest);
    LinesStep(s + "\n" + rest, acc, |s|, s);
  }

  lemma AtBreak(s: string, rest: string)
    requires '\n' !in s
    ensures var text := s + "\n" + rest;
      Find(text, '\n') == |s| && text[..|s|] == s && AfterBreak(text, |s|) == rest
  {
    var text := s + "\n" + rest;
    assert text[..|s|] == s;
    FindAt(text, '\n', |s|);
    assert text[|s| + 1..] == rest;
  }

  lemma {:induction false} LinesRoundTrip(lines: seq<Line>, acc: seq<Line>)
    requires forall l :: l in lines ==> Neat(l.text)
    ensures LinesFrom(RenderText(lines), acc) == Good(acc + lines)
    decreases |lines|
  {
    if lines == [] {
      assert acc + lines == acc;
    } else {
      var l := lines[0];
      assert l in lines;
      LineRoundTrip(l, RenderText(lines[1..]), acc);
      LinesRoundTrip(lines[1..], acc + [l]);
      Regroup(acc, l, lines[1..], lines);
    }
  }

  lemma DashedNeat(s: string)
    requires Neat(s)
    ensures Neat(Dashed(s))
  {
    DashFacts(s);
    TameIsWhole("- ");
    WholeConcat("- ", s);
  }

  lemma HeadNeat(e: Entry)
    requires EntryOk(e)
    ensures Neat(HeadText(e)) && Neat(Dashed(HeadText(e)))
  {
    HeadFacts(e);
    TameIsWhole([]);
    if e.Leaf? { TextWhole(e.value); }
    EntryTextWhole(e.key, if e.Leaf? then Text(e.value) else []);
    DashedNeat(HeadText(e));
  }

  ghost predicate AllNeat(lines: seq<Line>) { forall l :: l in lines ==> Neat(l.text) }

  lemma {:induction false} BodyNeat(b: Body, indent: nat)
    requires BodyOk(b)
    ensures AllNeat(BodyLines(b, indent))
    decreases b, 1
  {
    match b
    case Mapping(es) => RenderedNeat(es, indent);
    case Listing(xs) => ElementsNeat(xs, indent);
  }

  lemma {:induction false} BelowNeat(e: Entry, indent: nat)
    requires EntryOk(e)
    ensures AllNeat(Below(e, indent))
    decreases e, 0
  {
    if e.Nested? { BodyNeat(e.body, indent); }
  }

  lemma {:induction false} RenderedNeat(es: seq<Entry>, indent: nat)
    requires forall e :: e in es ==> EntryOk(e)
    ensures AllNeat(RenderLines(es, indent))
    decreases es
  {
    if es != [] {
      assert es[0] in es;
      HeadNeat(es[0]);
      BelowNeat(es[0], indent + 2);
      RenderedNeat(es[1..], indent);
    }
  }

  lemma {:induction false} ElementNeat(x: Element, indent: nat)
    requires ElementOk(x)
    ensures AllNeat(ElementLines(x, indent))
    decreases x
  {
    match x
    case Single(f) =>
      TextTight(f);
      TextWhole(f);
      DashFacts(Text(f));
      TameIsWhole("- ");
      WholeConcat("- ", Text(f));
    case Grouped(es) =>
      assert es[0] in es;
      HeadNeat(es[0]);
      BelowNeat(es[0], indent + 2);
      RenderedNeat(es[1..], indent + 2);
  }

  lemma {:induction false} ElementsNeat(xs: seq<Element>, indent: nat)
    requires forall x :: x in xs ==> ElementOk(x)
    ensures AllNeat(RenderElements(xs, indent))
    decreases xs
  {
    if xs != [] {
      assert xs[0] in xs;
      ElementNeat(xs[0], indent);
      ElementsNeat(xs[1..], indent);
    }
  }

  /** Main result: parsing the rendered document gives its meaning and leaves no
      line over. */
  lemma ParseUndoesRender(b: Body)
    requires BodyOk(b)
    ensures Parse(RenderText(BodyLines(b, 0))) == Ok(BodyNode(b), [])
  {
    BodyNeat(b, 0);
    TextGivesLines(BodyLines(b, 0));
    assert BodyLines(b, 0) + [] == BodyLines(b, 0);
    BodyRoundTrip(b, 0, []);
  }

  lemma TextGivesLines(lines: seq<Line>)
    requires AllNeat(lines)
    ensures LinesFrom(RenderText(lines), []) == Good(lines)
  {
    LinesRoundTrip(lines, []);
    assert [] + lines == lines;
  }
}
