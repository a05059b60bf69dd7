/** Maps whose first entry stands behind a dash (3rdparty/yaml-cpp/yaml.hpp:213-251): what
    the parser makes of each of them, and exactly which it reads back. */
module YamlGroups {
  import opened YamlText
  import opened Yaml
  import opened YamlFlow
  import opened YamlRoundTrip

  // ----- What a meaning holds -----

  predicate Names(es: seq<Entry>, k: string) { exists i :: 0 <= i < |es| && es[i].key == k }

  lemma NamesTail(es: seq<Entry>, k: string)
    requires es != []
    ensures Names(es, k) <==> es[0].key == k || Names(es[1..], k)
  {
    if Names(es, k) {
      var i :| 0 <= i < |es| && es[i].key == k;
      assert i > 0 ==> es[1..][i - 1] == es[i];
    }
    if Names(es[1..], k) {
      var i :| 0 <= i < |es[1..]| && es[1..][i].key == k;
      assert es[i + 1] == es[1..][i];
    }
  }

  /** Its keys are those of the entries, and what was there stays. */
  lemma {:induction false} MeaningKeys(es: seq<Entry>, acc: map<string, Node>, k: string)
    ensures k in Meaning(es, acc) <==> k in acc || Names(es, k)
    ensures k in acc ==> k in Meaning(es, acc) && Meaning(es, acc)[k] == acc[k]
    decreases |es|
  {
    if es != [] {
      MeaningKeys(es[1..], Emplace(acc, es[0].key, EntryNode(es[0])), k);
      NamesTail(es, k);
    }
  }

  lemma {:induction false} MeaningConcat(es: seq<Entry>, more: seq<Entry>, acc: map<string, Node>)
    ensures Meaning(es + more, acc) == Meaning(more, Meaning(es, acc))
    decreases |es|
  {
    if es == [] {
      assert es + more == more;
    } else {
      assert (es + more)[0] == es[0] && (es + more)[1..] == es[1..] + more;
      MeaningConcat(es[1..], more, Emplace(acc, es[0].key, EntryNode(es[0])));
    }
  }

  /** Entries whose keys are there already add nothing. */
  lemma {:induction false} MeaningUnchanged(es: seq<Entry>, acc: map<string, Node>)
    requires forall i :: 0 <= i < |es| ==> es[i].key in acc
    ensures Meaning(es, acc) == acc
    decreases |es|
  {
    if es != [] { MeaningUnchanged(es[1..], acc); }
  }

  // ----- What the parser returns -----

  lemma GroupLines(e: Entry, more: seq<Entry>, indent: nat)
    ensures ElementLines(Grouped([e] + more), indent) ==
            [Line(indent, Dashed(HeadText(e)))] + (Below(e, indent + 2) + RenderLines(more, indent + 2))
    ensures [e] + [] == [e]
  {
    assert ([e] + more)[0] == e && ([e] + more)[1..] == more;
  }

  lemma {:induction false} LinesConcat(es: seq<Entry>, more: seq<Entry>, indent: nat)
    ensures RenderLines(es + more, indent) == RenderLines(es, indent) + RenderLines(more, indent)
  {
    if es == [] {
      assert es + more == more;
    } else {
      LinesConcat(es[1..], more, indent);
      assert (es + more)[0] == es[0] && (es + more)[1..] == es[1..] + more;
      Reassociate(EntryLines(es[0], indent), RenderLines(es[1..], indent), RenderLines(more, indent));
    }
  }

  /** The first entry behind a dash takes the entries after it as its own: with nothing
      below it the parser returns them as its value ... */
  lemma EmptyFirstTakesTheRest(k: string, more: seq<Entry>, indent: nat, rest: seq<Line>)
    requires PlainToken(k) && more != [] && (forall e :: e in more ==> EntryOk(e)) && EndsBlock(rest, indent + 1)
    ensures var lines := ElementLines(Grouped([Leaf(k, Empty)] + more), indent) + rest;
      && lines[0].indent == indent && StartsWithDash(lines[0].text)
      && Item(lines, indent) == Ok(Map(map[k := Map(Meaning(more, map[]))]), rest)
  {
    GroupLines(Leaf(k, Empty), more, indent);
    GroupLines(Nested(k, Mapping(more)), [], indent);
    var lines := RenderLines(more, indent + 2);
    assert [] + lines == lines == lines + [];
    OneNested(k, more, indent, rest);
  }

  /** ... and with a map below it, it returns them as further entries of that map. */
  lemma NestedFirstTakesTheRest(k: string, below: seq<Entry>, more: seq<Entry>, indent: nat, rest: seq<Line>)
    requires PlainToken(k) && below != [] && (forall e :: e in below + more ==> EntryOk(e)) && EndsBlock(rest, indent + 1)
    ensures var lines := ElementLines(Grouped([Nested(k, Mapping(below))] + more), indent) + rest;
      && lines[0].indent == indent && StartsWithDash(lines[0].text)
      && Item(lines, indent) == Ok(Map(map[k := Map(Meaning(below + more, map[]))]), rest)
  {
    GroupLines(Nested(k, Mapping(below)), more, indent);
    GroupLines(Nested(k, Mapping(below + more)), [], indent);
    LinesConcat(below, more, indent + 2);
    var lines := RenderLines(below + more, indent + 2);
    assert lines + [] == lines;
    OneNested(k, below + more, indent, rest);
  }

  /** A single key with a map below it. */
  lemma OneNested(k: string, es: seq<Entry>, indent: nat, rest: seq<Line>)
    requires PlainToken(k) && es != [] && (forall e :: e in es ==> EntryOk(e)) && EndsBlock(rest, indent + 1)
    ensures var lines := ElementLines(Grouped([Nested(k, Mapping(es))]), indent) + rest;
      && lines[0].indent == indent && StartsWithDash(lines[0].text)
      && Item(lines, indent) == Ok(Map(map[k := Map(Meaning(es, map[]))]), rest)
  {
    var x := Grouped([Nested(k, Mapping(es))]);
    ElementRoundTrip(x, indent, rest);
    MeaningOfOne(Nested(k, Mapping(es)));
  }

  lemma MeaningOfOne(e: Entry)
    ensures Meaning([e], map[]) == map[e.key := EntryNode(e)]
  {
    assert [e][1..] == [];
    assert Emplace(map[], e.key, EntryNode(e)) == map[e.key := EntryNode(e)];
  }

  // ----- Which items are read back -----

  /** All later entries repeat the first key, which the map below it has too. */
  predicate Repeats(k: string, below: seq<Entry>, more: seq<Entry>) {
    Names(below, k) && forall i :: 0 <= i < |more| ==> more[i].key == k
  }

  lemma FirstOfMany(e: Entry, more: seq<Entry>)
    ensures Meaning([e] + more, map[]) == Meaning(more, map[e.key := EntryNode(e)])
    ensures e.key in Meaning([e] + more, map[]) && Meaning([e] + more, map[])[e.key] == EntryNode(e)
  {
    MeaningConcat([e], more, map[]);
    MeaningOfOne(e);
    MeaningKeys(more, map[e.key := EntryNode(e)], e.key);
  }

  /** What the parser returns for a map below the first key is what the entries mean,
      exactly when the later ones mean nothing. */
  lemma TakenIsOwnIff(k: string, below: seq<Entry>, more: seq<Entry>)
    requires more != []
    ensures Meaning([Nested(k, Mapping(below))] + more, map[]) == map[k := Map(Meaning(below + more, map[]))]
            <==> Repeats(k, below, more)
  {
    var own := Meaning(below, map[]);
    MeaningConcat(below, more, map[]);
    FirstOfMany(Nested(k, Mapping(below)), more);
    MeaningKeys(below, map[], k);
    if Repeats(k, below, more) {
      MeaningUnchanged(more, own);
      MeaningUnchanged(more, map[k := Map(own)]);
    } else {
      NotOwn(k, below, more);
    }
  }

  lemma NotOwn(k: string, below: seq<Entry>, more: seq<Entry>)
    requires more != [] && !Repeats(k, below, more)
    ensures Meaning(more, map[k := Map(Meaning(below, map[]))]) != map[k := Map(Meaning(more, Meaning(below, map[])))]
  {
    var own := Meaning(below, map[]);
    var acc := map[k := Map(own)];
    MeaningKeys(more, acc, k);
    if i :| 0 <= i < |more| && more[i].key != k {
      MeaningKeys(more, acc, more[i].key);
    } else {
      assert Names(more, more[0].key);
      MeaningKeys(more, own, k);
      MeaningKeys(below, map[], k);
    }
  }

  /** The item is written like another one and means something else. */
  predicate Misread(es: seq<Entry>)
    requires es != []
  {
    |es| > 1 && !Closed(es[0]) && !(es[0].Nested? && es[0].body.Mapping? && Repeats(es[0].key, es[0].body.entries, es[1..]))
  }

  /** Main result: a map behind a dash is read back exactly when it has one entry, or its
      first entry has a value on its line or a sequence below it, or the later entries
      only repeat a key that is there already. */
  lemma GroupReadBackIff(es: seq<Entry>, indent: nat, rest: seq<Line>)
    requires es != [] && (forall e :: e in es ==> EntryOk(e)) && EndsBlock(rest, indent + 1)
    ensures var lines := ElementLines(Grouped(es), indent) + rest;
      && lines[0].indent == indent && StartsWithDash(lines[0].text)
      && (Item(lines, indent) == Ok(ElementNode(Grouped(es)), rest) <==> !Misread(es))
  {
    var e, more := es[0], es[1..];
    assert e in es && es == [e] + more;
    if |es| == 1 || Closed(e) {
      ElementRoundTrip(Grouped(es), indent, rest);
    } else if e.Leaf? {
      EmptyFirstTakesTheRest(e.key, more, indent, rest);
      FirstOfMany(e, more);
    } else {
      assert EntryOk(e) && BodyOk(e.body);
      NestedFirstTakesTheRest(e.key, e.body.entries, more, indent, rest);
      TakenIsOwnIff(e.key, e.body.entries, more);
    }
  }

  /** In particular, with distinct keys. */
  lemma DistinctGroupReadBackIff(es: seq<Entry>, indent: nat, rest: seq<Line>)
    requires es != [] && (forall e :: e in es ==> EntryOk(e)) && EndsBlock(rest, indent + 1)
    requires forall i, j :: 0 <= i < j < |es| ==> es[i].key != es[j].key
    ensures var lines := ElementLines(Grouped(es), indent) + rest;
      && lines[0].indent == indent && StartsWithDash(lines[0].text)
      && (Item(lines, indent) == Ok(ElementNode(Grouped(es)), rest) <==> |es| == 1 || Closed(es[0]))
  {
    GroupReadBackIff(es, indent, rest);
    if |es| > 1 { assert es[1..][0].key == es[1].key != es[0].key; }
  }

  // ----- Quoted values -----

  /** The value of a key is read back from either quotes for every text, whatever it
      escapes, since a value on its line is neither split nor searched. */
  lemma QuotedLeaf(k: string, s: string, q: char, indent: nat, rest: seq<Line>)
    requires PlainToken(k) && IsQuote(q)
    ensures var lines := [Line(indent, EntryText(k, InQuotes(s, q)))] + rest;
      |k| < |lines[0].text| && EntryValue(lines, |k|, indent + 2) == Ok(Scalar(s), rest)
  {
    EntryTextFacts(k, InQuotes(s, q));
    QuotedValue(s, q);
    assert ([Line(indent, EntryText(k, InQuotes(s, q)))] + rest)[1..] == rest;
  }

  // ----- Empty blocks -----

  predicate ElementsOk(b: Body) {
    match b
    case Mapping(es) => forall e :: e in es ==> EntryOk(e)
    case Listing(xs) => forall x :: x in xs ==> ElementOk(x)
  }

  predicate IsEmpty(b: Body) { b == Mapping([]) || b == Listing([]) }

  /** A key with a block below it is read back exactly when the block is not empty; an
      empty one is read as null. */
  lemma NestedReadBackIff(k: string, b: Body, indent: nat, rest: seq<Line>)
    requires PlainToken(k) && ElementsOk(b) && EndsBlock(rest, indent + 2)
    ensures var lines := EntryLines(Nested(k, b), indent) + rest;
      && lines[0].indent == indent && |k| < |lines[0].text|
      && (EntryValue(lines, |k|, indent + 2) == Ok(BodyNode(b), rest) <==> !IsEmpty(b))
      && (IsEmpty(b) ==> EntryValue(lines, |k|, indent + 2) == Ok(Null, rest))
  {
    if IsEmpty(b) {
      EmptyIsNull(k, b, indent, rest);
    } else {
      EntryRoundTrip(Nested(k, b), indent, rest);
    }
  }

  lemma EmptyIsNull(k: string, b: Body, indent: nat, rest: seq<Line>)
    requires PlainToken(k) && IsEmpty(b) && EndsBlock(rest, indent + 2)
    ensures var lines := EntryLines(Nested(k, b), indent) + rest;
      && lines[0].indent == indent && |k| < |lines[0].text|
      && EntryValue(lines, |k|, indent + 2) == Ok(Null, rest)
  {
    EntryRoundTrip(Leaf(k, Empty), indent, rest);
    assert HeadText(Nested(k, b)) == HeadText(Leaf(k, Empty));
    assert BodyLines(b, indent + 2) == [];
    assert Below(Nested(k, b), indent + 2) == Below(Leaf(k, Empty), indent + 2);
  }
}
