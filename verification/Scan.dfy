/**
 The bounded scan that runs before any tree is built.

 It counts elements and nesting on the text alone. `ScanExact` shows that on
 every well-formed serialization it counts what the tree has, and refuses exactly
 the documents that exceed a limit. The functions and methods are total: on
 arbitrary text the scan ends, and its depth never goes below zero.
 */
module Scan {
  import opened Wrappers
  import opened Strings

  datatype Summary = Summary(elements: nat, maxDepth: nat)

  datatype ScanError = UnsafeXml

  datatype Limits = Limits(maxDepth: nat, maxNodes: nat)

  // ------------------------------------------------------------------ the scan

  /** What is left after the terminator, or nothing. */
  function SkipPast(s: string, from: nat, terminator: string): (r: string)
    ensures |r| <= |s|
    ensures from > 0 && s != "" ==> |r| < |s|
  {
    if from >= |s| then ""
    else
      var k := Find(s[from..], terminator);
      if k + |terminator| <= |s| - from then s[from + k + |terminator|..] else ""
  }

  /** What is left after a start tag, and whether the tag closed itself. */
  function StartTag(s: string, quote: Option<char>, previous: char): (r: (string, bool))
    ensures |r.0| <= |s|
  {
    if s == "" then ("", false)
    else
      match quote
      case Some(open) => StartTag(s[1..], if s[0] == open then None else quote, s[0])
      case None =>
        if s[0] == '"' || s[0] == '\'' then StartTag(s[1..], Some(s[0]), s[0])
        else if s[0] == '>' then (s[1..], previous == '/')
        else StartTag(s[1..], None, s[0])
  }

  function Minus(depth: nat): nat {
    if depth == 0 then 0 else depth - 1
  }

  function Max(a: nat, b: nat): nat {
    if a >= b then a else b
  }

  function ScanRest(s: string, depth: nat, sum: Summary, limits: Limits): Result<Summary, ScanError>
    decreases |s|
  {
    if s == "" then Ok(sum)
    else if s[0] != '<' then ScanRest(s[1..], depth, sum, limits)
    else if "<!--" <= s then ScanRest(SkipPast(s, 4, "-->"), depth, sum, limits)
    else if "<![CDATA[" <= s then ScanRest(SkipPast(s, 9, "]]>"), depth, sum, limits)
    else if "<?" <= s then ScanRest(SkipPast(s, 2, "?>"), depth, sum, limits)
    else if "<!" <= s then Err(UnsafeXml)
    else if "</" <= s then ScanRest(SkipPast(s, 2, ">"), Minus(depth), sum, limits)
    else if depth + 1 > limits.maxDepth || sum.elements + 1 > limits.maxNodes then Err(UnsafeXml)
    else
      var tag := StartTag(s[1..], None, '\0');
      ScanRest(tag.0, if tag.1 then depth else depth + 1, Summary(sum.elements + 1, Max(sum.maxDepth, depth + 1)), limits)
  }

  method ScanStartTag(text: string, from: nat) returns (end: nat, selfClosing: bool)
    requires from <= |text|
    ensures from <= end <= |text|
    ensures (text[end..], selfClosing) == StartTag(text[from..], None, '\0')
  {
    var i := from;
    var quote: Option<char> := None;
    var previous := '\0';
    while i < |text|
      invariant from <= i <= |text|
      invariant StartTag(text[i..], quote, previous) == StartTag(text[from..], None, '\0')
    {
      assert text[i..][1..] == text[i + 1..];
      var c := text[i];
      match quote {
        case Some(open) =>
          if c == open {
            quote := None;
          }
        case None =>
          if c == '"' || c == '\'' {
            quote := Some(c);
          } else if c == '>' {
            return i + 1, previous == '/';
          }
      }
      previous := c;
      i := i + 1;
    }
    return |text|, false;
  }

  /** The offset just past the first terminator at or after `from`. */
  method SkipPastAt(text: string, start: nat, from: nat, terminator: string) returns (end: nat)
    requires start < |text| && start < from
    ensures start < end <= |text| && text[end..] == SkipPast(text[start..], from - start, terminator)
  {
    if from >= |text| {
      end := |text|;
    } else {
      assert text[start..][from - start..] == text[from..];
      var k := Find(text[from..], terminator);
      end := if k + |terminator| <= |text| - from then from + k + |terminator| else |text|;
    }
  }

  method FindChar(text: string, from: nat, c: char) returns (i: nat)
    requires from <= |text|
    ensures from <= i <= |text| && (i < |text| ==> text[i] == c) && forall k :: from <= k < i ==> text[k] != c
  {
    i := from;
    while i < |text| && text[i] != c
      invariant from <= i <= |text| && forall k :: from <= k < i ==> text[k] != c
    {
      i := i + 1;
    }
  }

  lemma {:induction false} SkipText(text: string, from: nat, last: nat, depth: nat, sum: Summary, limits: Limits)
    requires from <= last <= |text| && forall k :: from <= k < last ==> text[k] != '<'
    ensures ScanRest(text[from..], depth, sum, limits) == ScanRest(text[last..], depth, sum, limits)
    decreases |text| - from
  {
    if from < last {
      assert text[from..][1..] == text[from + 1..];
      SkipText(text, from + 1, last, depth, sum, limits);
    }
  }

  /** One turn of the loop, at a bracket. */
  lemma OneTurn(s: string, depth: nat, sum: Summary, limits: Limits)
    requires s != "" && s[0] == '<'
    ensures var r := ScanRest(s, depth, sum, limits);
            if "<!--" <= s then r == ScanRest(SkipPast(s, 4, "-->"), depth, sum, limits)
            else if "<![CDATA[" <= s then r == ScanRest(SkipPast(s, 9, "]]>"), depth, sum, limits)
            else if "<?" <= s then r == ScanRest(SkipPast(s, 2, "?>"), depth, sum, limits)
            else if "<!" <= s then r == Err(UnsafeXml)
            else if "</" <= s then r == ScanRest(SkipPast(s, 2, ">"), Minus(depth), sum, limits)
            else if depth + 1 > limits.maxDepth || sum.elements + 1 > limits.maxNodes then r == Err(UnsafeXml)
            else
              var tag := StartTag(s[1..], None, '\0');
              r == ScanRest(tag.0, if tag.1 then depth else depth + 1,
                            Summary(sum.elements + 1, Max(sum.maxDepth, depth + 1)), limits)
  {
    hide SkipPast, StartTag;
  }

  lemma NothingLeft(text: string, depth: nat, sum: Summary, limits: Limits)
    ensures ScanRest(text[|text|..], depth, sum, limits) == Ok(sum)
  {}

  /** The scan itself. */
  method Prescan(text: string, limits: Limits) returns (r: Result<Summary, ScanError>)
    ensures r == ScanRest(text, 0, Summary(0, 0), limits)
  {
    hide ScanRest, SkipPast, StartTag;
    var elements: nat := 0;
    var maxDepth: nat := 0;
    var depth: nat := 0;
    var i := 0;
    assert text[0..] == text;
    var start := FindChar(text, 0, '<');
    SkipText(text, 0, start, 0, Summary(0, 0), limits);
    while start < |text|
      invariant i <= start <= |text| && (start < |text| ==> text[start] == '<')
      invariant ScanRest(text[start..], depth, Summary(elements, maxDepth), limits) == ScanRest(text, 0, Summary(0, 0), limits)
      decreases |text| - start
    {
      var rest := text[start..];
      ghost var sum, was := Summary(elements, maxDepth), depth;
      assert rest[0] == '<';
      OneTurn(rest, depth, sum, limits);
      if "<!--" <= rest {
        i := SkipPastAt(text, start, start + 4, "-->");
      } else if "<![CDATA[" <= rest {
        i := SkipPastAt(text, start, start + 9, "]]>");
      } else if "<?" <= rest {
        i := SkipPastAt(text, start, start + 2, "?>");
      } else if "<!" <= rest {
        return Err(UnsafeXml);
      } else if "</" <= rest {
        depth := if depth == 0 then 0 else depth - 1;
        i := SkipPastAt(text, start, start + 2, ">");
      } else {
        depth := depth + 1;
        if depth > limits.maxDepth {
          return Err(UnsafeXml);
        }
        elements := elements + 1;
        if elements > limits.maxNodes {
          return Err(UnsafeXml);
        }
        maxDepth := if maxDepth >= depth then maxDepth else depth;
        var end, selfClosing := ScanStartTag(text, start + 1);
        assert rest[1..] == text[start + 1..];
        if selfClosing {
          depth := depth - 1;
        }
        i := end;
      }
      assert ScanRest(rest, was, sum, limits) == ScanRest(text[i..], depth, Summary(elements, maxDepth), limits);
      var from := i;
      start := FindChar(text, from, '<');
      SkipText(text, from, start, depth, Summary(elements, maxDepth), limits);
    }
    NothingLeft(text, depth, Summary(elements, maxDepth), limits);
    return Ok(Summary(elements, maxDepth));
  }

  // -------------------------------------------------------- serialized documents

  /** Markup as it is written. `start` is a start tag between its brackets, without the slash that
      closes an empty element. */
  datatype Markup =
    | Element(start: string, children: seq<Markup>, end: string)
    | Empty(start: string)
    | Characters(text: string)
    | CData(text: string)
    | Remark(text: string)
    | Instruction(text: string)

  /** The quote still open after `s`. */
  function OpenQuote(s: string, quote: Option<char>): Option<char> {
    if s == "" then quote
    else
      match quote
      case Some(open) => OpenQuote(s[1..], if s[0] == open then None else quote)
      case None => OpenQuote(s[1..], if s[0] == '"' || s[0] == '\'' then Some(s[0]) else None)
  }

  /** No closing bracket outside quotes. */
  predicate Bracketless(s: string, quote: Option<char>) {
    s == "" ||
    match quote
    case Some(open) => Bracketless(s[1..], if s[0] == open then None else quote)
    case None => s[0] != '>' && Bracketless(s[1..], if s[0] == '"' || s[0] == '\'' then Some(s[0]) else None)
  }

  predicate IsTag(s: string) {
    && s != "" && s[0] != '!' && s[0] != '?' && s[0] != '/'
    && Bracketless(s, None) && OpenQuote(s, None).None?
  }

  /** Well-formed markup: brackets in tags only inside quotes, terminators only where they terminate. */
  predicate Serializes(m: Markup)
    decreases m, 0
  {
    match m
    case Element(start, children, end) =>
      IsTag(start) && start[|start| - 1] != '/' && '>' !in end && SerializeAll(children)
    case Empty(start) => IsTag(start)
    case Characters(text) => '<' !in text
    case CData(text) => !Contains(text, "]]>")
    case Remark(text) => !Contains(text, "-->")
    case Instruction(text) => !Contains(text, "?>")
  }

  predicate SerializeAll(ms: seq<Markup>)
    decreases ms, 1
  {
    ms == [] || (Serializes(ms[0]) && SerializeAll(ms[1..]))
  }

  function Write(m: Markup): string
    decreases m, 1
  {
    match m
    case Element(start, children, end) => "<" + start + ">" + WriteAll(children) + "</" + end + ">"
    case Empty(start) => "<" + start + "/>"
    case Characters(text) => text
    case CData(text) => "<![CDATA[" + text + "]]>"
    case Remark(text) => "<!--" + text + "-->"
    case Instruction(text) => "<?" + text + "?>"
  }

  function WriteAll(ms: seq<Markup>): string
    decreases ms, 0
  {
    if ms == [] then "" else Write(ms[0]) + WriteAll(ms[1..])
  }

  /** The number of elements. */
  function Count(m: Markup): nat
    decreases m, 1
  {
    if m.Element? then 1 + CountAll(m.children) else if m.Empty? then 1 else 0
  }

  function CountAll(ms: seq<Markup>): nat
    decreases ms, 0
  {
    if ms == [] then 0 else Count(ms[0]) + CountAll(ms[1..])
  }

  /** How deep the elements nest. */
  function Depth(m: Markup): nat
    decreases m, 1
  {
    if m.Element? then 1 + DepthAll(m.children) else if m.Empty? then 1 else 0
  }

  function DepthAll(ms: seq<Markup>): nat
    decreases ms, 0
  {
    if ms == [] then 0 else Max(Depth(ms[0]), DepthAll(ms[1..]))
  }

  // --------------------------------------------------------------- the theorem

  lemma {:induction false} TagBody(s: string, rest: string, quote: Option<char>, previous: char)
    requires Bracketless(s, quote)
    ensures StartTag(s + rest, quote, previous)
         == StartTag(rest, OpenQuote(s, quote), if s == "" then previous else s[|s| - 1])
  {
    if s == "" {
      assert s + rest == rest;
    } else {
      assert (s + rest)[1..] == s[1..] + rest;
      var next := match quote
                  case Some(open) => if s[0] == open then None else quote
                  case None => if s[0] == '"' || s[0] == '\'' then Some(s[0]) else None;
      TagBody(s[1..], rest, next, s[0]);
    }
  }

  /** A start tag is read to its own bracket. */
  lemma TagIsRead(start: string, rest: string)
    requires IsTag(start)
    ensures StartTag(start + ">" + rest, None, '\0') == (rest, start[|start| - 1] == '/')
    ensures StartTag(start + "/>" + rest, None, '\0') == (rest, true)
  {
    assert start + ">" + rest == start + (">" + rest);
    TagBody(start, ">" + rest, None, '\0');
    assert (">" + rest)[1..] == rest;
    assert start + "/>" + rest == start + ("/>" + rest);
    TagBody(start, "/>" + rest, None, '\0');
    assert ("/>" + rest)[1..] == ">" + rest;
  }

  /** A skipped construct is skipped to its own terminator. */
  lemma SkipsTo(open: string, text: string, close: string, rest: string)
    requires open != "" && |close| > 0 && close[|close| - 1] !in close[..|close| - 1] && !Contains(text, close)
    ensures SkipPast(open + text + close + rest, |open|, close) == rest
  {
    var s := open + text + close + rest;
    assert s[|open|..] == text + close + rest;
    FindTerminator(text, close, rest);
    assert s[|open| + |text| + |close|..] == rest;
  }

  predicate Fits(depth: nat, deep: nat, elements: nat, count: nat, limits: Limits) {
    depth + deep <= limits.maxDepth && elements + count <= limits.maxNodes
  }

  /** The state after some markup, when it fits. */
  function After(sum: Summary, depth: nat, deep: nat, count: nat): Summary {
    Summary(sum.elements + count, if deep == 0 then sum.maxDepth else Max(sum.maxDepth, depth + deep))
  }

  lemma OpensLike(s: string, open: string, t: string)
    requires s == open + t
    ensures open <= s && |s| >= |open| && forall k :: 0 <= k < |open| ==> s[k] == open[k]
  {}

  lemma ScanCData(text: string, rest: string, depth: nat, sum: Summary, limits: Limits)
    requires !Contains(text, "]]>")
    ensures ScanRest("<![CDATA[" + text + "]]>" + rest, depth, sum, limits) == ScanRest(rest, depth, sum, limits)
  {
    var s := "<![CDATA[" + text + "]]>" + rest;
    SkipsTo("<![CDATA[", text, "]]>", rest);
    hide ScanRest, SkipPast;
    assert s == "<![CDATA[" + (text + "]]>" + rest);
    OpensLike(s, "<![CDATA[", text + "]]>" + rest);
    assert s[2] == '[';
    OneTurn(s, depth, sum, limits);
  }

  lemma ScanRemark(text: string, rest: string, depth: nat, sum: Summary, limits: Limits)
    requires !Contains(text, "-->")
    ensures ScanRest("<!--" + text + "-->" + rest, depth, sum, limits) == ScanRest(rest, depth, sum, limits)
  {
    var s := "<!--" + text + "-->" + rest;
    SkipsTo("<!--", text, "-->", rest);
    hide ScanRest, SkipPast;
    assert s == "<!--" + (text + "-->" + rest);
    OpensLike(s, "<!--", text + "-->" + rest);
    OneTurn(s, depth, sum, limits);
  }

  lemma ScanInstruction(text: string, rest: string, depth: nat, sum: Summary, limits: Limits)
    requires !Contains(text, "?>")
    ensures ScanRest("<?" + text + "?>" + rest, depth, sum, limits) == ScanRest(rest, depth, sum, limits)
  {
    var s := "<?" + text + "?>" + rest;
    SkipsTo("<?", text, "?>", rest);
    hide ScanRest, SkipPast;
    Opens("<?", text, "?>", rest);
    assert s[1] == '?';
    OneTurn(s, depth, sum, limits);
  }

  lemma ScanCharacters(text: string, rest: string, depth: nat, sum: Summary, limits: Limits)
    requires '<' !in text
    ensures ScanRest(text + rest, depth, sum, limits) == ScanRest(rest, depth, sum, limits)
  {
    var s := text + rest;
    SkipText(s, 0, |text|, depth, sum, limits);
    assert s[0..] == s && s[|text|..] == rest;
  }

  /** A start tag: one element more, one level deeper, unless a limit is exceeded. */
  lemma ScanOpen(start: string, tail: string, closes: bool, rest: string, depth: nat, sum: Summary, limits: Limits)
    requires IsTag(start) && (closes ==> tail == "/>" + rest) && (!closes ==> tail == ">" + rest && start[|start| - 1] != '/')
    ensures ScanRest("<" + start + tail, depth, sum, limits)
         == if depth + 1 > limits.maxDepth || sum.elements + 1 > limits.maxNodes then Err(UnsafeXml)
            else ScanRest(rest, if closes then depth else depth + 1,
                          Summary(sum.elements + 1, Max(sum.maxDepth, depth + 1)), limits)
  {
    hide ScanRest, StartTag, IsTag;
    var s := "<" + start + tail;
    TagIsRead(start, rest);
    TagBegins(start);
    assert start + tail == if closes then start + "/>" + rest else start + ">" + rest;
    assert s[1..] == start + tail && s[1] == start[0];
    assert s[0] == '<' && !("<!--" <= s) && !("<![CDATA[" <= s) && !("<?" <= s) && !("<!" <= s) && !("</" <= s);
    OneTurn(s, depth, sum, limits);
  }

  lemma TagBegins(start: string)
    requires IsTag(start)
    ensures start != "" && start[0] != '!' && start[0] != '?' && start[0] != '/'
  {}

  lemma NoBracket(end: string)
    requires '>' !in end
    ensures !Contains(end, ">")
  {
    forall i | 0 <= i <= |end|
      ensures !(">" <= end[i..])
    {
      if i < |end| { assert end[i..][0] in end; }
    }
  }

  lemma ScanClose(end: string, rest: string, depth: nat, sum: Summary, limits: Limits)
    requires '>' !in end
    ensures ScanRest("</" + end + ">" + rest, depth, sum, limits) == ScanRest(rest, Minus(depth), sum, limits)
  {
    hide ScanRest, SkipPast, Contains;
    var s := "</" + end + ">" + rest;
    NoBracket(end);
    SkipsTo("</", end, ">", rest);
    Opens("</", end, ">", rest);
    assert s[1] == '/';
    OneTurn(s, depth, sum, limits);
  }

  lemma Opens(open: string, text: string, close: string, rest: string)
    ensures var s := open + text + close + rest;
            open <= s && |s| >= |open| && forall k :: 0 <= k < |open| ==> s[k] == open[k]
  {
    var s := open + text + close + rest;
    assert s == open + (text + close + rest);
  }

  lemma Five(a: string, b: string, c: string, d: string)
    ensures "<" + a + ">" + b + "</" + c + ">" + d == "<" + a + (">" + (b + ("</" + c + ">" + d)))
  {}

  lemma AfterBoth(sum: Summary, depth: nat, deep: nat, count: nat, deep': nat, count': nat, limits: Limits)
    ensures After(After(sum, depth, deep, count), depth, deep', count') == After(sum, depth, Max(deep, deep'), count + count')
    ensures Fits(depth, Max(deep, deep'), sum.elements, count + count', limits)
       <==> Fits(depth, deep, sum.elements, count, limits)
            && Fits(depth, deep', After(sum, depth, deep, count).elements, count', limits)
  {}

  lemma AfterElement(sum: Summary, depth: nat, deep: nat, count: nat, limits: Limits)
    ensures var inner := Summary(sum.elements + 1, Max(sum.maxDepth, depth + 1));
            && After(inner, depth + 1, deep, count) == After(sum, depth, 1 + deep, 1 + count)
            && (Fits(depth, 1 + deep, sum.elements, 1 + count, limits)
                <==> depth + 1 <= limits.maxDepth && sum.elements + 1 <= limits.maxNodes
                     && Fits(depth + 1, deep, inner.elements, count, limits))
  {}

  /** What one piece of markup does to the scan. */
  lemma {:induction false} ScanMarkup(m: Markup, rest: string, depth: nat, sum: Summary, limits: Limits)
    requires Serializes(m)
    ensures ScanRest(Write(m) + rest, depth, sum, limits)
         == if m.Element? || m.Empty? then
              (if Fits(depth, Depth(m), sum.elements, Count(m), limits)
               then ScanRest(rest, depth, After(sum, depth, Depth(m), Count(m)), limits) else Err(UnsafeXml))
            else ScanRest(rest, depth, sum, limits)
    decreases m, 1
  {
    hide ScanRest;
    match m {
      case Element(start, children, end) => ScanElement(m, rest, depth, sum, limits);
      case Empty(start) =>
        ScanOpen(start, "/>" + rest, true, rest, depth, sum, limits);
        assert Write(m) + rest == "<" + start + ("/>" + rest);
      case Characters(text) => ScanCharacters(text, rest, depth, sum, limits);
      case CData(text) => ScanCData(text, rest, depth, sum, limits);
      case Remark(text) => ScanRemark(text, rest, depth, sum, limits);
      case Instruction(text) => ScanInstruction(text, rest, depth, sum, limits);
    }
  }

  lemma {:induction false} ScanElement(m: Markup, rest: string, depth: nat, sum: Summary, limits: Limits)
    requires Serializes(m) && m.Element?
    ensures ScanRest(Write(m) + rest, depth, sum, limits)
         == if Fits(depth, Depth(m), sum.elements, Count(m), limits)
            then ScanRest(rest, depth, After(sum, depth, Depth(m), Count(m)), limits) else Err(UnsafeXml)
    decreases m, 0
  {
    hide ScanRest, WriteAll, Fits, After, Max, IsTag, SerializeAll, CountAll, DepthAll;
    var body := WriteAll(m.children);
    var tail := "</" + m.end + ">" + rest;
    Five(m.start, body, m.end, rest);
    Regroup(">", body, tail);
    assert ">" + (body + tail) == ">" + body + tail;
    ScanOpen(m.start, ">" + (body + tail), false, body + tail, depth, sum, limits);
    AfterElement(sum, depth, DepthAll(m.children), CountAll(m.children), limits);
    if depth + 1 <= limits.maxDepth && sum.elements + 1 <= limits.maxNodes {
      var inner := Summary(sum.elements + 1, Max(sum.maxDepth, depth + 1));
      ScanAll(m.children, tail, depth + 1, inner, limits);
      ScanClose(m.end, rest, depth + 1, After(inner, depth + 1, DepthAll(m.children), CountAll(m.children)), limits);
    }
  }

  lemma AllCons(ms: seq<Markup>)
    requires ms != []
    ensures WriteAll(ms) == Write(ms[0]) + WriteAll(ms[1..])
    ensures CountAll(ms) == Count(ms[0]) + CountAll(ms[1..]) && DepthAll(ms) == Max(Depth(ms[0]), DepthAll(ms[1..]))
    ensures SerializeAll(ms) <==> Serializes(ms[0]) && SerializeAll(ms[1..])
  {
    hide Write, Count, Depth, Serializes, Max;
  }

  lemma {:induction false} ScanAll(ms: seq<Markup>, rest: string, depth: nat, sum: Summary, limits: Limits)
    requires SerializeAll(ms) && depth <= limits.maxDepth && sum.elements <= limits.maxNodes
    ensures ScanRest(WriteAll(ms) + rest, depth, sum, limits)
         == if Fits(depth, DepthAll(ms), sum.elements, CountAll(ms), limits)
            then ScanRest(rest, depth, After(sum, depth, DepthAll(ms), CountAll(ms)), limits) else Err(UnsafeXml)
    decreases ms, 0
  {
    if ms == [] {
      assert WriteAll(ms) + rest == rest;
    } else {
      AllCons(ms);
      hide *;
      var left := WriteAll(ms[1..]) + rest;
      Regroup(Write(ms[0]), WriteAll(ms[1..]), rest);
      ScanMarkup(ms[0], left, depth, sum, limits);
      CountsDeep(ms[0], depth, sum, limits);
      AfterBoth(sum, depth, Depth(ms[0]), Count(ms[0]), DepthAll(ms[1..]), CountAll(ms[1..]), limits);
      if Fits(depth, Depth(ms[0]), sum.elements, Count(ms[0]), limits) {
        StillWithin(depth, Depth(ms[0]), sum, Count(ms[0]), limits);
        ScanAll(ms[1..], rest, depth, After(sum, depth, Depth(ms[0]), Count(ms[0])), limits);
      }
    }
  }

  lemma StillWithin(depth: nat, deep: nat, sum: Summary, count: nat, limits: Limits)
    requires Fits(depth, deep, sum.elements, count, limits)
    ensures After(sum, depth, deep, count).elements <= limits.maxNodes
  {}

  /** What is no element counts for nothing. */
  lemma CountsDeep(m: Markup, depth: nat, sum: Summary, limits: Limits)
    requires depth <= limits.maxDepth && sum.elements <= limits.maxNodes
    ensures !(m.Element? || m.Empty?) ==>
              Fits(depth, Depth(m), sum.elements, Count(m), limits) && After(sum, depth, Depth(m), Count(m)) == sum
  {}

  /** The scan is exact: it succeeds on the text of a document exactly when the document is within
      both limits, and then reports the document's own element count and depth. */
  lemma ScanExact(ms: seq<Markup>, limits: Limits)
    requires SerializeAll(ms)
    ensures var r := ScanRest(WriteAll(ms), 0, Summary(0, 0), limits);
            && (r.Ok? <==> DepthAll(ms) <= limits.maxDepth && CountAll(ms) <= limits.maxNodes)
            && (r.Ok? ==> r.value == Summary(CountAll(ms), DepthAll(ms)))
  {
    ScanAll(ms, "", 0, Summary(0, 0), limits);
    assert WriteAll(ms) + "" == WriteAll(ms);
  }
}
