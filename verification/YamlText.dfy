/** The text helpers of 3rdparty/yaml-cpp/yaml.hpp: trimming, unquoting, splitting
    at top level and stripping comments.  A string is a sequence of bytes. */
module YamlText {
  import opened Basics

  predicate IsSpace(c: char) { c == ' ' || 9 <= c as int <= 13 }

  predicate IsQuote(c: char) { c == '"' || c == '\'' }

  /** The six characters that isspace accepts. */
  lemma SixSpaces(c: char)
    ensures IsSpace(c) <==> c in [' ', '\t', '\n', 11 as char, 12 as char, '\r']
  {
  }

  // ----- trim -----

  function TrimLeft(s: string): (r: string)
    ensures |r| <= |s|
  {
    if s != [] && IsSpace(s[0]) then TrimLeft(s[1..]) else s
  }

  function TrimRight(s: string): (r: string)
    ensures |r| <= |s|
  {
    if s != [] && IsSpace(s[|s| - 1]) then TrimRight(s[..|s| - 1]) else s
  }

  function Trim(s: string): (r: string)
    ensures |r| <= |s|
  {
    TrimRight(TrimLeft(s))
  }

  predicate AllSpace(s: string) { forall i :: 0 <= i < |s| ==> IsSpace(s[i]) }

  /** Neither the first nor the last character is white. */
  predicate Tight(s: string) { s != [] ==> !IsSpace(s[0]) && !IsSpace(s[|s| - 1]) }

  lemma {:induction false} TrimLeftSplits(s: string) returns (a: string)
    ensures s == a + TrimLeft(s) && AllSpace(a)
    ensures TrimLeft(s) != [] ==> !IsSpace(TrimLeft(s)[0])
  {
    if s != [] && IsSpace(s[0]) {
      var b := TrimLeftSplits(s[1..]);
      a := [s[0]] + b;
      assert s[1..] == b + TrimLeft(s);
      assert s == [s[0]] + s[1..];
      forall i | 0 <= i < |a| ensures IsSpace(a[i]) { assert i > 0 ==> a[i] == b[i - 1]; }
    } else {
      a := [];
    }
  }

  lemma {:induction false} TrimRightSplits(s: string) returns (b: string)
    ensures s == TrimRight(s) + b && AllSpace(b)
    ensures TrimRight(s) != [] ==> !IsSpace(TrimRight(s)[|TrimRight(s)| - 1])
  {
    if s != [] && IsSpace(s[|s| - 1]) {
      b := TrimRightSplits(s[..|s| - 1]);
      b := b + [s[|s| - 1]];
      assert s == s[..|s| - 1] + [s[|s| - 1]];
    } else {
      b := [];
    }
  }

  /** Trimming takes white space off both ends, and all of it. */
  lemma TrimSplits(s: string) returns (a: string, b: string)
    ensures s == a + Trim(s) + b && AllSpace(a) && AllSpace(b) && Tight(Trim(s))
  {
    a := TrimLeftSplits(s);
    var t := TrimLeft(s);
    b := TrimRightSplits(t);
    assert a + (Trim(s) + b) == a + Trim(s) + b;
    if Trim(s) != [] { assert t[0] == Trim(s)[0]; }
  }

  lemma TrimTight(s: string)
    requires Tight(s)
    ensures Trim(s) == s
  {
  }

  /** A leading blank makes no difference. */
  lemma TrimBlank(s: string)
    ensures Trim([' '] + s) == Trim(s)
  {
    assert ([' '] + s)[1..] == s;
  }

  method TrimLoop(s: string) returns (r: string)
    ensures r == Trim(s)
  {
    var b := FirstInk(s);
    var e := LastInk(s, b);
    return s[b..e];
  }

  /** The loop over leading white space. */
  method FirstInk(s: string) returns (b: nat)
    ensures b <= |s| && s[b..] == TrimLeft(s)
  {
    b := 0;
    assert s[0..] == s;
    while b < |s| && IsSpace(s[b])
      invariant b <= |s| && TrimLeft(s) == TrimLeft(s[b..])
    {
      assert s[b..][0] == s[b] && s[b..][1..] == s[b + 1..];
      b := b + 1;
    }
  }

  /** The loop over trailing white space. */
  method LastInk(s: string, b: nat) returns (e: nat)
    requires b <= |s|
    ensures b <= e <= |s| && s[b..e] == TrimRight(s[b..])
  {
    e := |s|;
    assert s[b..e] == s[b..];
    while e > b && IsSpace(s[e - 1])
      invariant b <= e <= |s| && TrimRight(s[b..]) == TrimRight(s[b..e])
    {
      assert s[b..e][e - 1 - b] == s[e - 1] && s[b..e][..e - 1 - b] == s[b..e - 1];
      e := e - 1;
    }
  }

  // ----- unquote -----

  predicate Quoted(s: string) { |s| >= 2 && IsQuote(s[0]) && s[|s| - 1] == s[0] }

  /** The rest of the body of a quoted string, from position i on. */
  function UnquoteFrom(s: string, i: nat): string
    requires 1 <= i
    decreases |s| - i
  {
    if i + 1 >= |s| then []
    else if s[i] == '\\' && i + 1 < |s| - 1 then [s[i + 1]] + UnquoteFrom(s, i + 2)
    else [s[i]] + UnquoteFrom(s, i + 1)
  }

  function Unquote(s: string): string { if Quoted(s) then UnquoteFrom(s, 1) else s }

  predicate Escaped(s: string, i: nat) { i + 2 < |s| && s[i] == '\\' }

  lemma UnquoteStep(s: string, i: nat, out: string)
    requires 1 <= i && i + 1 < |s|
    ensures out + UnquoteFrom(s, i) ==
      if Escaped(s, i) then out + [s[i + 1]] + UnquoteFrom(s, i + 2) else out + [s[i]] + UnquoteFrom(s, i + 1)
  {
  }

  method UnquoteLoop(s: string) returns (out: string)
    ensures out == Unquote(s)
  {
    if |s| >= 2 {
      var q := s[0];
      if (q == '"' || q == '\'') && s[|s| - 1] == q {
        out := UnquoteBody(s);
        return;
      }
    }
    return s;
  }

  method UnquoteBody(s: string) returns (out: string)
    requires |s| >= 2
    ensures out == UnquoteFrom(s, 1)
  {
    out := [];
    var i := 1;
    while i + 1 < |s|
      invariant 1 <= i && out + UnquoteFrom(s, i) == UnquoteFrom(s, 1)
      decreases |s| - i
    {
      UnquoteStep(s, i, out);
      var c := s[i];
      if c == '\\' && i + 1 < |s| - 1 {
        i := i + 1;
        out := out + [s[i]];
      } else {
        out := out + [c];
      }
      i := i + 1;
    }
  }

  /** A body that unquoting gives back: quotes and backslashes escaped. */
  function Escape(s: string): string {
    if s == [] then []
    else (if IsQuote(s[0]) || s[0] == '\\' then ['\\', s[0]] else [s[0]]) + Escape(s[1..])
  }

  lemma {:induction false} UnquoteEscape(pre: string, s: string, q: char)
    requires |pre| >= 1
    ensures UnquoteFrom(pre + Escape(s) + [q], |pre|) == s
    decreases |s|
  {
    var all := pre + Escape(s) + [q];
    if s == [] {
      assert all == pre + [q];
    } else {
      var piece := if IsQuote(s[0]) || s[0] == '\\' then ['\\', s[0]] else [s[0]];
      assert Escape(s) == piece + Escape(s[1..]);
      UnquoteEscape(pre + piece, s[1..], q);
      assert all == pre + piece + Escape(s[1..]) + [q];
      assert all[|pre|] == piece[0];
      if |piece| == 2 { assert all[|pre| + 1] == piece[1]; }
      assert s == [s[0]] + s[1..];
    }
  }

  /** Unquoting undoes quoting, for every string and either quote. */
  lemma UnquoteUndoesQuote(s: string, q: char)
    requires q == '"' || q == '\''
    ensures Unquote([q] + Escape(s) + [q]) == s
  {
    UnquoteEscape([q], s, q);
  }

  // ----- split_top_level -----

  /** The state of the scan: finished parts, the current one, two depths, and the
      open quote if there is one. */
  datatype Scan = Scan(out: seq<string>, cur: string, brace: int, bracket: int, quote: Option<char>)

  function Turn(c: char, up: char, down: char): int { if c == up then 1 else if c == down then -1 else 0 }

  function Step(st: Scan, c: char, delim: char): Scan {
    if st.quote.Some? then
      st.(cur := st.cur + [c], quote := if c == st.quote.value then None else st.quote)
    else if IsQuote(c) then st.(cur := st.cur + [c], quote := Some(c))
    else
      var next := st.(brace := st.brace + Turn(c, '{', '}'), bracket := st.bracket + Turn(c, '[', ']'));
      if c == delim && next.brace == 0 && next.bracket == 0
      then next.(out := st.out + [Trim(st.cur)], cur := [])
      else next.(cur := st.cur + [c])
  }

  function ScanAll(st: Scan, s: string, delim: char): Scan
    decreases |s|
  {
    if s == [] then st else ScanAll(Step(st, s[0], delim), s[1..], delim)
  }

  function Parts(st: Scan): seq<string> { if st.cur == [] then st.out else st.out + [Trim(st.cur)] }

  const START: Scan := Scan([], [], 0, 0, None)

  function SplitTopLevel(s: string, delim: char): (r: seq<string>)
    ensures forall p :: p in r ==> |p| <= |s|
  {
    PartsAreShort(START, s, delim);
    Parts(ScanAll(START, s, delim))
  }

  lemma {:induction false} PartsAreShort(st: Scan, s: string, delim: char)
    ensures forall p :: p in Parts(ScanAll(st, s, delim)) ==> p in st.out || |p| <= |st.cur| + |s|
    decreases |s|
  {
    if s != [] {
      PartsAreShort(Step(st, s[0], delim), s[1..], delim);
    }
  }

  lemma {:induction false} ScanAppend(st: Scan, s: string, t: string, delim: char)
    ensures ScanAll(st, s + t, delim) == ScanAll(ScanAll(st, s, delim), t, delim)
    decreases |s|
  {
    if s == [] {
      assert s + t == t;
    } else {
      assert (s + t)[0] == s[0] && (s + t)[1..] == s[1..] + t;
      ScanAppend(Step(st, s[0], delim), s[1..], t, delim);
    }
  }

  method SplitLoop(s: string, delim: char) returns (out: seq<string>)
    ensures out == SplitTopLevel(s, delim)
  {
    out := [];
    var cur: string := [];
    var depthBrace, depthBracket, inQuote, quote := 0, 0, false, ' ';
    for i := 0 to |s|
      invariant ScanAll(START, s, delim) ==
        ScanAll(Scan(out, cur, depthBrace, depthBracket, if inQuote then Some(quote) else None), s[i..], delim)
    {
      var c := s[i];
      assert s[i..][0] == c && s[i..][1..] == s[i + 1..];
      if inQuote {
        cur := cur + [c];
        if c == quote { inQuote := false; }
        continue;
      }
      if c == '"' || c == '\'' {
        inQuote := true;
        quote := c;
        cur := cur + [c];
        continue;
      }
      if c == '{' { depthBrace := depthBrace + 1; }
      if c == '}' { depthBrace := depthBrace - 1; }
      if c == '[' { depthBracket := depthBracket + 1; }
      if c == ']' { depthBracket := depthBracket - 1; }
      if c == delim && depthBrace == 0 && depthBracket == 0 {
        var part := TrimLoop(cur);
        out := out + [part];
        cur := [];
        continue;
      }
      cur := cur + [c];
    }
    if cur != [] {
      var part := TrimLoop(cur);
      out := out + [part];
    }
  }

  // ----- find and strip_comment -----

  /** The first position of c, or the length. */
  function Find(s: string, c: char): (r: nat)
    ensures r <= |s| && (r < |s| ==> s[r] == c) && c !in s[..r]
  {
    if s == [] || s[0] == c then 0
    else
      var r := Find(s[1..], c);
      assert s[..r + 1] == [s[0]] + s[1..][..r];
      r + 1
  }

  lemma FindAt(s: string, c: char, k: nat)
    requires k < |s| && s[k] == c && c !in s[..k]
    ensures Find(s, c) == k
  {
    var r := Find(s, c);
    forall i | 0 <= i < k ensures s[i] != c { assert s[i] in s[..k]; }
    forall i | 0 <= i < r ensures s[i] != c { assert s[i] in s[..r]; }
  }

  /** What is before the first '#' outside quotes, scanning from i. */
  function StripFrom(s: string, i: nat, quote: Option<char>): (r: string)
    requires i <= |s|
    ensures |r| <= |s| && r == s[..|r|]
    decreases |s| - i
  {
    if i == |s| then s
    else if quote.Some? then StripFrom(s, i + 1, if s[i] == quote.value then None else quote)
    else if IsQuote(s[i]) then StripFrom(s, i + 1, Some(s[i]))
    else if s[i] == '#' then s[..i]
    else StripFrom(s, i + 1, None)
  }

  /** The quote that is open before position k, wherever comments are. */
  function OpenQuote(s: string, k: nat): Option<char>
    requires k <= |s|
  {
    if k == 0 then None
    else
      var before := OpenQuote(s, k - 1);
      if before.Some? then (if s[k - 1] == before.value then None else before)
      else if IsQuote(s[k - 1]) then Some(s[k - 1]) else None
  }

  /** A '#' that no quote encloses. */
  predicate StartsComment(s: string, k: nat)
    requires k < |s|
  {
    s[k] == '#' && OpenQuote(s, k) == None
  }

  /** The first comment begins where the stripped line ends. */
  lemma {:induction false} StripCutsAtComment(s: string, i: nat)
    requires i <= |s| && forall k :: 0 <= k < i ==> !StartsComment(s, k)
    ensures var n := |StripFrom(s, i, OpenQuote(s, i))|;
      && (forall k :: 0 <= k < n ==> !StartsComment(s, k)) && (n < |s| ==> StartsComment(s, n))
    decreases |s| - i
  {
    if i < |s| && !StartsComment(s, i) { StripCutsAtComment(s, i + 1); }
  }

  method StripComment(line: string) returns (r: string)
    ensures r == StripFrom(line, 0, None)
    ensures |r| <= |line| && r == line[..|r|] && (forall k :: 0 <= k < |r| ==> !StartsComment(line, k))
    ensures |r| < |line| ==> StartsComment(line, |r|)
  {
    StripCutsAtComment(line, 0);
    var inQuote, quote := false, ' ';
    for i := 0 to |line|
      invariant StripFrom(line, 0, None) == StripFrom(line, i, if inQuote then Some(quote) else None)
    {
      var c := line[i];
      if inQuote {
        if c == quote { inQuote := false; }
        continue;
      }
      if c == '"' || c == '\'' {
        inQuote := true;
        quote := c;
        continue;
      }
      if c == '#' { return line[..i]; }
    }
    return line;
  }
}
