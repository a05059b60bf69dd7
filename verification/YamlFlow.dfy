/** Flow values of the YAML parser (3rdparty/yaml-cpp/yaml.hpp): plain tokens, quoted text,
    flow maps and flow sequences, nested at will.  Splitting at top level undoes joining with
    commas, and parsing the text of a value gives back its meaning. */
module YamlFlow {
  import opened Basics
  import opened YamlText
  import opened Yaml

  // ----- Trees -----

  datatype Flow =
    | Empty
    | Token(text: string)
    | Quoted(inner: string, quote: char)
    | FlowMap(entries: seq<FlowEntry>)
    | FlowSeq(items: seq<Flow>)
  datatype FlowEntry = FlowEntry(key: string, value: Flow)

  /** Printable, and without a meaning of its own. */
  predicate Plain(c: char) { '!' <= c <= '~' && !IsQuote(c) && c !in ['{', '}', '[', ']', ',', ':', '#'] }

  predicate PlainToken(s: string) { s != [] && forall i :: 0 <= i < |s| ==> Plain(s[i]) }

  /** Text that may stand in these quotes inside a document: on one line, and without
      the quote itself, since splitting and stripping know no escapes. */
  predicate Quotable(s: string, q: char) { IsQuote(q) && q !in s && '\n' !in s }

  predicate FlowOk(f: Flow) {
    match f
    case Empty => true
    case Token(s) => PlainToken(s)
    case Quoted(s, q) => Quotable(s, q)
    case FlowMap(es) => forall e :: e in es ==> PlainToken(e.key) && FlowOk(e.value)
    case FlowSeq(fs) => fs != [Empty] && forall i :: i in fs ==> FlowOk(i)
  }

  // ----- Their meaning -----

  function NodeOf(f: Flow): Node {
    match f
    case Empty => Null
    case Token(s) => Scalar(s)
    case Quoted(s, _) => Scalar(s)
    case FlowMap(es) => Map(FlowMeaning(es, map[]))
    case FlowSeq(fs) => Seq(ItemsMeaning(fs))
  }

  /** The first of several equal keys wins. */
  function FlowMeaning(es: seq<FlowEntry>, acc: map<string, Node>): map<string, Node> {
    if es == [] then acc else FlowMeaning(es[1..], Emplace(acc, es[0].key, NodeOf(es[0].value)))
  }

  function ItemsMeaning(fs: seq<Flow>): seq<Node> {
    if fs == [] then [] else [NodeOf(fs[0])] + ItemsMeaning(fs[1..])
  }

  /** With distinct keys the meaning of a flow map holds every entry, and nothing else. */
  lemma {:induction false} FlowMeaningHoldsEveryEntry(es: seq<FlowEntry>, acc: map<string, Node>)
    requires forall i, j :: 0 <= i < j < |es| ==> es[i].key != es[j].key
    requires forall i :: 0 <= i < |es| ==> es[i].key !in acc
    ensures var m := FlowMeaning(es, acc);
      && (forall i :: 0 <= i < |es| ==> es[i].key in m && m[es[i].key] == NodeOf(es[i].value))
      && (forall k :: k in acc ==> k in m && m[k] == acc[k])
      && (forall k :: k in m ==> k in acc || exists i :: 0 <= i < |es| && es[i].key == k)
    decreases |es|
  {
    if es != [] {
      var rest, more := es[1..], acc[es[0].key := NodeOf(es[0].value)];
      FlowMeaningHoldsEveryEntry(rest, more);
      forall i | 0 <= i < |es|
        ensures es[i].key in FlowMeaning(es, acc) && FlowMeaning(es, acc)[es[i].key] == NodeOf(es[i].value)
      {
        if i > 0 { assert rest[i - 1] == es[i]; } else { assert es[0].key in more; }
      }
    }
  }

  /** And that of a flow sequence holds the items, in order. */
  lemma {:induction false} ItemsMeaningHoldsEveryItem(fs: seq<Flow>)
    ensures |ItemsMeaning(fs)| == |fs| && forall i :: 0 <= i < |fs| ==> ItemsMeaning(fs)[i] == NodeOf(fs[i])
  {
    if fs != [] { ItemsMeaningHoldsEveryItem(fs[1..]); }
  }

  // ----- Their rendering -----

  function Join(parts: seq<string>): string {
    if parts == [] then [] else if |parts| == 1 then parts[0] else parts[0] + ", " + Join(parts[1..])
  }

  function EntryText(key: string, value: string): string {
    if value == [] then key + ":" else key + ": " + value
  }

  function InQuotes(s: string, q: char): string { [q] + Escape(s) + [q] }

  function Text(f: Flow): string {
    match f
    case Empty => []
    case Token(s) => s
    case Quoted(s, q) => InQuotes(s, q)
    case FlowMap(es) => "{" + Join(EntryTexts(es)) + "}"
    case FlowSeq(fs) => "[" + Join(Texts(fs)) + "]"
  }

  function EntryTexts(es: seq<FlowEntry>): (r: seq<string>)
    ensures |r| == |es|
  {
    if es == [] then [] else [EntryText(es[0].key, Text(es[0].value))] + EntryTexts(es[1..])
  }

  function Texts(fs: seq<Flow>): (r: seq<string>)
    ensures |r| == |fs|
  {
    if fs == [] then [] else [Text(fs[0])] + Texts(fs[1..])
  }

  // ----- Text without top-level commas -----

  /** Scanning p only appends it to the current part; with deep, inside brackets. */
  ghost predicate Inert(p: string, deep: bool) {
    forall st: Scan {:trigger ScanAll(st, p, ',')} ::
      st.quote == None && st.brace >= 0 && st.bracket >= 0 && (deep ==> st.brace + st.bracket > 0) ==>
        ScanAll(st, p, ',') == st.(cur := st.cur + p)
  }

  lemma InertDeep(p: string)
    requires Inert(p, false)
    ensures Inert(p, true)
  {
  }

  lemma InertConcat(p: string, q: string, deep: bool)
    requires Inert(p, deep) && Inert(q, deep)
    ensures Inert(p + q, deep)
  {
    forall st: Scan | st.quote == None && st.brace >= 0 && st.bracket >= 0 && (deep ==> st.brace + st.bracket > 0)
      ensures ScanAll(st, p + q, ',') == st.(cur := st.cur + (p + q))
    {
      ScanAppend(st, p, q, ',');
      assert st.cur + p + q == st.cur + (p + q);
    }
  }

  lemma ScanOne(st: Scan, c: char)
    ensures ScanAll(st, [c], ',') == Step(st, c, ',')
  {
    assert [c][1..] == [];
    assert ScanAll(Step(st, c, ','), [], ',') == Step(st, c, ',');
  }

  /** A character that neither quotes, nests nor separates. */
  predicate Idle(c: char) { !IsQuote(c) && c !in ['{', '}', '[', ']', ','] }

  lemma {:induction false} InertIdle(s: string)
    requires forall i :: 0 <= i < |s| ==> Idle(s[i])
    ensures Inert(s, false)
  {
    if s == [] {
      forall st: Scan ensures ScanAll(st, s, ',') == st.(cur := st.cur + s) {
        assert st.cur + s == st.cur;
      }
    } else {
      forall st: Scan | st.quote == None ensures ScanAll(st, [s[0]], ',') == st.(cur := st.cur + [s[0]]) {
        ScanOne(st, s[0]);
      }
      InertIdle(s[1..]);
      InertConcat([s[0]], s[1..], false);
      assert s == [s[0]] + s[1..];
    }
  }

  lemma {:induction false} EscapeAvoids(s: string, c: char)
    requires c !in s && c != '\\'
    ensures c !in Escape(s)
  {
    if s != [] { EscapeAvoids(s[1..], c); }
  }

  /** Inside quotes nothing but the quote itself has a meaning. */
  lemma {:induction false} ScanQuoted(st: Scan, s: string, q: char)
    requires st.quote == Some(q) && q !in s
    ensures ScanAll(st, s, ',') == st.(cur := st.cur + s)
    decreases |s|
  {
    if s == [] {
      assert st.cur + s == st.cur;
    } else {
      ScanQuoted(Step(st, s[0], ','), s[1..], q);
      assert st.cur + [s[0]] + s[1..] == st.cur + s;
    }
  }

  lemma ScanInQuotes(st: Scan, e: string, q: char)
    requires st.quote == None && IsQuote(q) && q !in e
    ensures ScanAll(st, [q] + e + [q], ',') == st.(cur := st.cur + ([q] + e + [q]))
  {
    ScanAppend(st, [q] + e, [q], ',');
    ScanAppend(st, [q], e, ',');
    ScanOne(st, q);
    var inside := Step(st, q, ',');
    ScanQuoted(inside, e, q);
    ScanOne(inside.(cur := inside.cur + e), q);
    assert st.cur + [q] + e + [q] == st.cur + ([q] + e + [q]);
  }

  lemma InertQuoted(s: string, q: char)
    requires Quotable(s, q)
    ensures Inert(InQuotes(s, q), false)
  {
    EscapeAvoids(s, q);
    forall st: Scan | st.quote == None
      ensures ScanAll(st, InQuotes(s, q), ',') == st.(cur := st.cur + InQuotes(s, q))
    {
      ScanInQuotes(st, Escape(s), q);
    }
  }

  lemma InertComma()
    ensures Inert(", ", true)
  {
    forall st: Scan | st.quote == None && st.brace >= 0 && st.bracket >= 0 && st.brace + st.bracket > 0
      ensures ScanAll(st, ", ", ',') == st.(cur := st.cur + ", ")
    {
      ScanAppend(st, ",", " ", ',');
      ScanOne(st, ',');
      ScanOne(Step(st, ',', ','), ' ');
      assert "," + " " == ", ";
      assert st.cur + "," + " " == st.cur + ", ";
    }
  }

  /** Brackets around a deep text make it inert. */
  lemma InertWrap(p: string, open: char, close: char)
    requires Inert(p, true) && ((open == '{' && close == '}') || (open == '[' && close == ']'))
    ensures Inert([open] + p + [close], false)
  {
    forall st: Scan | st.quote == None && st.brace >= 0 && st.bracket >= 0
      ensures ScanAll(st, [open] + p + [close], ',') == st.(cur := st.cur + ([open] + p + [close]))
    {
      ScanAppend(st, [open] + p, [close], ',');
      ScanAppend(st, [open], p, ',');
      ScanOne(st, open);
      var inside := Step(st, open, ',');
      assert ScanAll(inside, p, ',') == inside.(cur := inside.cur + p);
      ScanOne(inside.(cur := inside.cur + p), close);
      assert st.cur + [open] + p + [close] == st.cur + ([open] + p + [close]);
    }
  }

  lemma {:induction false} InertJoin(parts: seq<string>)
    requires forall p :: p in parts ==> Inert(p, false)
    ensures Inert(Join(parts), true)
  {
    if parts == [] {
      InertIdle([]);
      InertDeep([]);
    } else {
      assert parts[0] in parts;
      InertDeep(parts[0]);
      if |parts| > 1 {
        InertJoin(parts[1..]);
        InertComma();
        InertConcat(parts[0], ", ", true);
        InertConcat(parts[0] + ", ", Join(parts[1..]), true);
      }
    }
  }

  // ----- Splitting undoes joining -----

  /** At top level, with nothing or a blank read of the current part. */
  predicate Fresh(st: Scan) {
    st.quote == None && st.brace == 0 && st.bracket == 0 && (st.cur == [] || st.cur == " ")
  }

  lemma TrimFresh(st: Scan, p: string)
    requires Fresh(st) && Tight(p)
    ensures Trim(st.cur + p) == p
  {
    TrimTight(p);
    if st.cur == [] { assert st.cur + p == p; } else { TrimBlank(p); }
  }

  lemma LastPart(st: Scan, p: string)
    requires Fresh(st) && Tight(p) && Inert(p, false) && st.cur + p != []
    ensures Parts(ScanAll(st, p, ',')) == st.out + [p]
  {
    TrimFresh(st, p);
  }

  lemma FirstPart(st: Scan, p: string, rest: string)
    requires Fresh(st) && Tight(p) && Inert(p, false)
    ensures ScanAll(st, p + ", " + rest, ',') == ScanAll(Scan(st.out + [p], " ", 0, 0, None), rest, ',')
  {
    ScanAppend(st, p + ", ", rest, ',');
    ScanAppend(st, p, ", ", ',');
    TrimFresh(st, p);
    AtComma(st.(cur := st.cur + p));
  }

  lemma {:induction false} SplitJoin(st: Scan, parts: seq<string>)
    requires Fresh(st)
    requires parts != [] && forall p :: p in parts ==> Inert(p, false) && Tight(p)
    requires |parts| == 1 ==> st.cur + parts[0] != []
    ensures Parts(ScanAll(st, Join(parts), ',')) == st.out + parts
    decreases |parts|
  {
    var p := parts[0];
    assert p in parts;
    if |parts| == 1 {
      LastPart(st, p);
      assert parts == [p];
    } else {
      var next := Scan(st.out + [p], " ", 0, 0, None);
      FirstPart(st, p, Join(parts[1..]));
      SplitJoin(next, parts[1..]);
      assert st.out + [p] + parts[1..] == st.out + parts;
    }
  }

  lemma AtComma(st: Scan)
    requires st.quote == None && st.brace == 0 && st.bracket == 0
    ensures ScanAll(st, ", ", ',') == Scan(st.out + [Trim(st.cur)], " ", 0, 0, None)
  {
    ScanAppend(st, ",", " ", ',');
    ScanOne(st, ',');
    ScanOne(Step(st, ',', ','), ' ');
    assert "," + " " == ", ";
    assert [] + [' '] == " ";
  }

  lemma SplitUndoesJoin(parts: seq<string>)
    requires parts != [] && parts != [[]] && forall p :: p in parts ==> Inert(p, false) && Tight(p)
    ensures SplitTopLevel(Join(parts), ',') == parts
  {
    if |parts| == 1 { assert parts == [parts[0]]; }
    SplitJoin(START, parts);
    assert START.out + parts == parts;
  }

  // ----- Facts about tokens and texts -----

  lemma TokenFacts(s: string)
    requires PlainToken(s)
    ensures Tight(s) && Unquote(s) == s && ':' !in s && Inert(s, false)
    ensures !IsFlow(s, '{', '}') && !IsFlow(s, '[', ']') && !StartsWithDash(s + ":")
    ensures forall t :: !StartsWithDash(s + ":" + t)
  {
    InertIdle(s);
    forall t ensures !StartsWithDash(s + ":" + t) {
      var all := s + ":" + t;
      if |s| > 1 { assert all[1] == s[1]; } else { assert all[1] == ':'; }
    }
    assert s + ":" + [] == s + ":";
  }

  lemma EntryTextFacts(key: string, value: string)
    requires PlainToken(key) && Tight(value)
    ensures var t := EntryText(key, value);
      && Find(t, ':') == |key| < |t| && KeyOf(t, |key|) == key && ValueOf(t, |key|) == value
      && Tight(t) && t != [] && !StartsWithDash(t)
  {
    TokenFacts(key);
    var t := EntryText(key, value);
    var after := if value == [] then [] else [' '] + value;
    assert t == key + ":" + after;
    assert t[..|key|] == key && t[|key| + 1..] == after;
    TrimTight(key);
    TrimTight(value);
    TrimBlank(value);
    FindAt(t, ':', |key|);
  }

  lemma EntryTextInert(key: string, value: string)
    requires PlainToken(key) && Inert(value, false)
    ensures Inert(EntryText(key, value), false)
  {
    if value == [] {
      InertIdle(key + ":");
    } else {
      InertIdle(key + ": ");
      InertConcat(key + ": ", value, false);
    }
  }

  lemma TextTight(f: Flow)
    requires FlowOk(f)
    ensures Tight(Text(f)) && (f.Empty? <==> Text(f) == [])
    ensures f.FlowMap? ==> IsFlow(Text(f), '{', '}')
    ensures f.FlowSeq? ==> IsFlow(Text(f), '[', ']') && !IsFlow(Text(f), '{', '}')
  {
  }

  lemma {:induction false} TextInert(f: Flow)
    requires FlowOk(f)
    ensures Inert(Text(f), false)
    decreases f, 1
  {
    match f
    case Empty => InertIdle([]);
    case Token(s) => TokenFacts(s);
    case Quoted(s, q) => InertQuoted(s, q);
    case FlowMap(es) =>
      EntryTextsInert(es);
      InertJoin(EntryTexts(es));
      InertWrap(Join(EntryTexts(es)), '{', '}');
    case FlowSeq(fs) =>
      TextsInert(fs);
      InertJoin(Texts(fs));
      InertWrap(Join(Texts(fs)), '[', ']');
  }

  lemma {:induction false} EntryTextsInert(es: seq<FlowEntry>)
    requires forall e :: e in es ==> PlainToken(e.key) && FlowOk(e.value)
    ensures forall p :: p in EntryTexts(es) ==> Inert(p, false) && Tight(p) && p != []
    decreases es, 0
  {
    if es != [] {
      var e := es[0];
      assert e in es;
      TextInert(e.value);
      TextTight(e.value);
      EntryTextInert(e.key, Text(e.value));
      EntryTextFacts(e.key, Text(e.value));
      EntryTextsInert(es[1..]);
    }
  }

  lemma {:induction false} TextsInert(fs: seq<Flow>)
    requires forall f :: f in fs ==> FlowOk(f)
    ensures forall p :: p in Texts(fs) ==> Inert(p, false) && Tight(p)
    decreases fs, 0
  {
    if fs != [] {
      assert fs[0] in fs;
      TextInert(fs[0]);
      TextTight(fs[0]);
      TextsInert(fs[1..]);
    }
  }

  // ----- What a value is -----

  /** Nothing is null; what stands in braces is a map and what stands in brackets a
      sequence; everything else is a scalar, which is the text itself unless it stands in
      quotes. */
  lemma KindOfValue(v: string)
    ensures var t, n := Trim(v), ParseValue(v);
      && (n == Null <==> t == [])
      && (n.Map? <==> |t| >= 2 && t[0] == '{' && t[|t| - 1] == '}')
      && (n.Seq? <==> |t| >= 2 && t[0] == '[' && t[|t| - 1] == ']')
      && (n.Scalar? && !(|t| >= 2 && IsQuote(t[0]) && t[|t| - 1] == t[0]) ==> n.scalar == t)
  {
  }

  // ----- Quoted text comes back -----

  /** For every text at all and either quote: quoted and escaped, it is read as itself. */
  lemma QuotedValue(s: string, q: char)
    requires q == '"' || q == '\''
    ensures ParseTight(InQuotes(s, q)) == Scalar(s) && ParseValue(InQuotes(s, q)) == Scalar(s)
  {
    UnquoteUndoesQuote(s, q);
    TrimTight(InQuotes(s, q));
  }

  lemma {:induction false} UnquoteKeepsOut(s: string, i: nat, c: char)
    requires 1 <= i && c !in s
    ensures c !in UnquoteFrom(s, i)
    decreases |s| - i
  {
    if i + 1 < |s| {
      assert s[i] in s && s[i + 1] in s;
      if Escaped(s, i) { UnquoteKeepsOut(s, i + 2, c); } else { UnquoteKeepsOut(s, i + 1, c); }
    }
  }

  /** A quoted key is read as itself exactly when it has no colon, since the first colon
      of a line ends the key, in quotes or not. */
  lemma QuotedKeyReadBackIff(s: string, q: char, rest: string)
    requires q == '"' || q == '\''
    ensures var t := InQuotes(s, q) + ":" + rest;
      Find(t, ':') < |t| && (KeyOf(t, Find(t, ':')) == s <==> ':' !in s)
  {
    var k := InQuotes(s, q);
    var t := k + ":" + rest;
    assert t[|k|] == ':' && t[..|t|] == t;
    if ':' !in s {
      EscapeAvoids(s, ':');
      assert t[..|k|] == k;
      FindAt(t, ':', |k|);
      UnquoteUndoesQuote(s, q);
      TrimTight(k);
    } else {
      ColonEndsKey(t, Find(t, ':'));
    }
  }

  lemma ColonEndsKey(t: string, pos: nat)
    requires pos < |t| && ':' !in t[..pos]
    ensures ':' !in KeyOf(t, pos)
  {
    var k := Trim(t[..pos]);
    var a, b := TrimSplits(t[..pos]);
    assert forall c :: c in k ==> c in a + k + b;
    assert ':' !in k;
    if YamlText.Quoted(k) { UnquoteKeepsOut(k, 1, ':'); }
  }

  // ----- Flow values come back -----

  lemma FlowPartsOf(parts: seq<string>, open: char, close: char)
    requires parts != [[]] && forall p :: p in parts ==> Inert(p, false) && Tight(p)
    ensures FlowParts([open] + Join(parts) + [close]) == parts
  {
    var t := [open] + Join(parts) + [close];
    assert t[1..|t| - 1] == Join(parts);
    if parts != [] {
      JoinIsNotEmpty(parts);
      SplitUndoesJoin(parts);
    }
  }

  lemma JoinIsNotEmpty(parts: seq<string>)
    requires parts != [] && parts != [[]]
    ensures Join(parts) != []
  {
    if |parts| == 1 { assert parts == [parts[0]]; }
  }

  lemma ParseTightMap(t: string, parts: seq<string>)
    requires t == "{" + Join(parts) + "}"
    requires forall p :: p in parts ==> Inert(p, false) && Tight(p) && p != []
    ensures Short(parts, |t| - 2) && ParseTight(t) == Map(FlowEntries(parts, |t| - 2, map[]))
  {
    var empty: string := [];
    assert parts == [empty] ==> empty in parts;
    FlowPartsOf(parts, '{', '}');
    TightMap(t);
  }

  lemma TightMap(t: string)
    requires IsFlow(t, '{', '}')
    ensures ParseTight(t) == Map(FlowEntries(FlowParts(t), |t| - 2, map[]))
  {
  }

  lemma TightSeq(t: string)
    requires IsFlow(t, '[', ']')
    ensures ParseTight(t) == Seq(FlowItems(FlowParts(t), |t| - 2, []))
  {
  }

  lemma ParseTightSeq(t: string, parts: seq<string>)
    requires t == "[" + Join(parts) + "]"
    requires parts != [[]] && forall p :: p in parts ==> Inert(p, false) && Tight(p)
    ensures Short(parts, |t| - 2) && ParseTight(t) == Seq(FlowItems(parts, |t| - 2, []))
  {
    FlowPartsOf(parts, '[', ']');
    TightSeq(t);
  }

  lemma {:induction false} FlowRoundTrip(f: Flow)
    requires FlowOk(f)
    ensures ParseTight(Text(f)) == NodeOf(f)
    decreases f, 1
  {
    match f
    case Empty =>
    case Token(s) => TokenFacts(s);
    case Quoted(s, q) => QuotedValue(s, q);
    case FlowMap(es) => FlowMapRoundTrip(es, Text(f));
    case FlowSeq(fs) => FlowSeqRoundTrip(fs, Text(f));
  }

  lemma {:induction false} FlowMapRoundTrip(es: seq<FlowEntry>, t: string)
    requires (forall e :: e in es ==> PlainToken(e.key) && FlowOk(e.value)) && t == "{" + Join(EntryTexts(es)) + "}"
    ensures ParseTight(t) == Map(FlowMeaning(es, map[]))
    decreases es, 1
  {
    EntryTextsInert(es);
    ParseTightMap(t, EntryTexts(es));
    FlowEntriesRoundTrip(es, |t| - 2, map[]);
  }

  lemma {:induction false} FlowSeqRoundTrip(fs: seq<Flow>, t: string)
    requires fs != [Empty] && (forall f :: f in fs ==> FlowOk(f)) && t == "[" + Join(Texts(fs)) + "]"
    ensures ParseTight(t) == Seq(ItemsMeaning(fs))
    decreases fs, 1
  {
    TextsInert(fs);
    NotOneEmpty(fs);
    ParseTightSeq(t, Texts(fs));
    FlowItemsRoundTrip(fs, |t| - 2, []);
    assert [] + ItemsMeaning(fs) == ItemsMeaning(fs);
  }

  lemma ValueRoundTrip(f: Flow)
    requires FlowOk(f) && ParseTight(Text(f)) == NodeOf(f)
    ensures ParseValue(Text(f)) == NodeOf(f)
  {
    TextTight(f);
    TrimTight(Text(f));
  }

  lemma Regroup<T>(acc: seq<T>, x: T, rest: seq<T>, all: seq<T>)
    requires all == [x] + rest
    ensures acc + [x] + rest == acc + all
  {
  }

  lemma TextsStep(fs: seq<Flow>)
    requires fs != []
    ensures Texts(fs)[0] == Text(fs[0]) && Texts(fs)[1..] == Texts(fs[1..])
    ensures ItemsMeaning(fs) == [NodeOf(fs[0])] + ItemsMeaning(fs[1..])
  {
  }

  lemma NotOneEmpty(fs: seq<Flow>)
    requires fs != [Empty] && forall f :: f in fs ==> FlowOk(f)
    ensures Texts(fs) != [[]]
  {
    if |fs| == 1 {
      assert fs == [fs[0]] && fs[0] in fs;
      TextTight(fs[0]);
      assert Texts(fs)[0] == Text(fs[0]);
    }
  }

  lemma {:induction false} FlowEntriesRoundTrip(es: seq<FlowEntry>, n: nat, acc: map<string, Node>)
    requires forall e :: e in es ==> PlainToken(e.key) && FlowOk(e.value)
    requires Short(EntryTexts(es), n)
    ensures FlowEntries(EntryTexts(es), n, acc) == FlowMeaning(es, acc)
    decreases es, 0
  {
    if es != [] {
      var e, parts := es[0], EntryTexts(es);
      assert e in es;
      TextTight(e.value);
      EntryTextFacts(e.key, Text(e.value));
      FlowRoundTrip(e.value);
      ValueRoundTrip(e.value);
      EntriesStep(parts, n, acc);
      assert parts[1..] == EntryTexts(es[1..]);
      FlowEntriesRoundTrip(es[1..], n, Emplace(acc, e.key, NodeOf(e.value)));
    }
  }

  lemma {:induction false} FlowItemsRoundTrip(fs: seq<Flow>, n: nat, acc: seq<Node>)
    requires forall f :: f in fs ==> FlowOk(f)
    requires Short(Texts(fs), n)
    ensures FlowItems(Texts(fs), n, acc) == acc + ItemsMeaning(fs)
    decreases fs, 0
  {
    if fs == [] {
      assert acc + [] == acc;
    } else {
      var node := NodeOf(fs[0]);
      assert fs[0] in fs;
      FlowRoundTrip(fs[0]);
      ValueRoundTrip(fs[0]);
      TextsStep(fs);
      ItemsStep(Texts(fs), n, acc);
      FlowItemsRoundTrip(fs[1..], n, acc + [node]);
      Regroup(acc, node, ItemsMeaning(fs[1..]), ItemsMeaning(fs));
    }
  }

  /** Of sequences of canonical items only one is not read back: that of a single
      empty item, which is written like the sequence of no item. */
  lemma FlowSeqReadBackIff(fs: seq<Flow>)
    requires forall f :: f in fs ==> FlowOk(f)
    ensures ParseTight(Text(FlowSeq(fs))) == NodeOf(FlowSeq(fs)) <==> fs != [Empty]
  {
    if fs == [Empty] {
      OneEmptyText();
      TightSeq("[]");
    } else {
      FlowRoundTrip(FlowSeq(fs));
    }
  }

  lemma OneEmptyText()
    ensures Text(FlowSeq([Empty])) == "[]" && NodeOf(FlowSeq([Empty])) == Seq([Null])
  {
    TextsStep([Empty]);
    assert Texts([Empty]) == [[]];
  }

  // ----- They survive the stripping of comments -----

  /** No comment starts in it, no quote is left open, and it is on one line. */
  ghost predicate Whole(s: string) {
    && OpenQuote(s, |s|) == None && '\n' !in s
    && forall k :: 0 <= k < |s| ==> !StartsComment(s, k)
  }

  lemma {:induction false} OpenQuotePrefix(a: string, b: string, k: nat)
    requires k <= |a|
    ensures OpenQuote(a + b, k) == OpenQuote(a, k)
  {
    if k > 0 { OpenQuotePrefix(a, b, k - 1); }
  }

  lemma {:induction false} OpenQuoteSuffix(a: string, b: string, k: nat)
    requires k <= |b| && OpenQuote(a, |a|) == None
    ensures OpenQuote(a + b, |a| + k) == OpenQuote(b, k)
  {
    if k == 0 { OpenQuotePrefix(a, b, |a|); } else { OpenQuoteSuffix(a, b, k - 1); }
  }

  lemma WholeConcat(a: string, b: string)
    requires Whole(a) && Whole(b)
    ensures Whole(a + b)
  {
    OpenQuoteSuffix(a, b, |b|);
    forall k | 0 <= k < |a + b| ensures !StartsComment(a + b, k) {
      if k < |a| {
        OpenQuotePrefix(a, b, k);
        assert !StartsComment(a, k);
      } else {
        OpenQuoteSuffix(a, b, k - |a|);
        assert !StartsComment(b, k - |a|);
      }
    }
  }

  /** Neither quote nor comment nor line break. */
  predicate Tame(c: char) { !IsQuote(c) && c != '#' && c != '\n' }

  predicate AllTame(s: string) { forall i :: 0 <= i < |s| ==> Tame(s[i]) }

  lemma {:induction false} NoQuoteOpens(s: string, k: nat)
    requires AllTame(s) && k <= |s|
    ensures OpenQuote(s, k) == None
  {
    if k > 0 { NoQuoteOpens(s, k - 1); }
  }

  lemma TameIsWhole(s: string)
    requires AllTame(s)
    ensures Whole(s)
  {
    NoQuoteOpens(s, |s|);
  }

  lemma {:induction false} QuoteStaysOpen(s: string, q: char, k: nat)
    requires IsQuote(q) && q !in s && 1 <= k <= |s| + 1
    ensures OpenQuote([q] + s + [q], k) == Some(q)
  {
    if k > 1 {
      QuoteStaysOpen(s, q, k - 1);
      assert ([q] + s + [q])[k - 1] == s[k - 2];
    }
  }

  lemma QuotedIsWhole(s: string, q: char)
    requires Quotable(s, q)
    ensures Whole(InQuotes(s, q))
  {
    var e := Escape(s);
    EscapeAvoids(s, q);
    EscapeAvoids(s, '\n');
    QuoteStaysOpen(e, q, |e| + 1);
    forall k | 0 <= k < |InQuotes(s, q)| ensures !StartsComment(InQuotes(s, q), k) {
      if k > 0 { QuoteStaysOpen(e, q, k); }
    }
  }

  lemma {:induction false} JoinWhole(parts: seq<string>)
    requires forall p :: p in parts ==> Whole(p)
    ensures Whole(Join(parts))
  {
    if parts == [] {
      TameIsWhole([]);
    } else {
      assert parts[0] in parts;
      if |parts| > 1 {
        JoinWhole(parts[1..]);
        TameIsWhole(", ");
        WholeConcat(parts[0], ", ");
        WholeConcat(parts[0] + ", ", Join(parts[1..]));
      }
    }
  }

  lemma EntryTextWhole(key: string, value: string)
    requires PlainToken(key) && Whole(value)
    ensures Whole(EntryText(key, value))
  {
    TameIsWhole(key + ":");
    TameIsWhole(key + ": ");
    WholeConcat(key + ": ", value);
  }

  lemma WrapWhole(p: string, open: char, close: char)
    requires Whole(p) && Tame(open) && Tame(close)
    ensures Whole([open] + p + [close])
  {
    TameIsWhole([open]);
    TameIsWhole([close]);
    WholeConcat([open], p);
    WholeConcat([open] + p, [close]);
  }

  lemma {:induction false} TextWhole(f: Flow)
    requires FlowOk(f)
    ensures Whole(Text(f))
    decreases f, 1
  {
    match f
    case Empty => TameIsWhole([]);
    case Token(s) => TameIsWhole(s);
    case Quoted(s, q) => QuotedIsWhole(s, q);
    case FlowMap(es) =>
      EntryTextsWhole(es);
      JoinWhole(EntryTexts(es));
      WrapWhole(Join(EntryTexts(es)), '{', '}');
    case FlowSeq(fs) =>
      TextsWhole(fs);
      JoinWhole(Texts(fs));
      WrapWhole(Join(Texts(fs)), '[', ']');
  }

  lemma {:induction false} EntryTextsWhole(es: seq<FlowEntry>)
    requires forall e :: e in es ==> PlainToken(e.key) && FlowOk(e.value)
    ensures forall p :: p in EntryTexts(es) ==> Whole(p)
    decreases es, 0
  {
    if es != [] {
      assert es[0] in es;
      TextWhole(es[0].value);
      EntryTextWhole(es[0].key, Text(es[0].value));
      EntryTextsWhole(es[1..]);
    }
  }

  lemma {:induction false} TextsWhole(fs: seq<Flow>)
    requires forall f :: f in fs ==> FlowOk(f)
    ensures forall p :: p in Texts(fs) ==> Whole(p)
    decreases fs, 0
  {
    if fs != [] {
      assert fs[0] in fs;
      TextWhole(fs[0]);
      TextsWhole(fs[1..]);
    }
  }
}
