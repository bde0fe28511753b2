/**
 The scan of a document, on its tree: what the scan counts in the text is what
 the tree has, when every node's own text is the markup of such a node.
 */
module TreeScan {
  import opened Wrappers
  import opened XmlTree
  import opened SourceText
  import opened Reader

  function ElementCount(n: Node): nat
    decreases n, 1
  {
    (if n.Element? then 1 else 0) + if n.Root? || n.Element? then ElementCountAll(n.children) else 0
  }

  function ElementCountAll(kids: seq<Node>): nat
    decreases kids, 0
  {
    if kids == [] then 0 else ElementCount(kids[0]) + ElementCountAll(kids[1..])
  }

  /** How deep elements nest. */
  function ElementDepth(n: Node): nat
    decreases n, 1
  {
    (if n.Element? then 1 else 0) + if n.Root? || n.Element? then ElementDepthAll(n.children) else 0
  }

  function ElementDepthAll(kids: seq<Node>): nat
    decreases kids, 0
  {
    if kids == [] then 0 else Scan.Max(ElementDepth(kids[0]), ElementDepthAll(kids[1..]))
  }

  // ------------------------------------------------------------------- markup

  /** The scan passes over the text and counts nothing. */
  ghost predicate Passes(s: string) {
    forall rest, depth, sum, limits :: Scan.ScanRest(s + rest, depth, sum, limits) == Scan.ScanRest(rest, depth, sum, limits)
  }

  /** A start tag, or an empty-element tag. */
  predicate Opens(open: string, closes: bool) {
    var tail := if closes then "/>" else ">";
    && |open| > 1 + |tail| && open[0] == '<' && open[|open| - |tail|..] == tail
    && Scan.IsTag(open[1..|open| - |tail|]) && (closes || open[|open| - 2] != '/')
  }

  predicate Closes(close: string) {
    |close| >= 3 && close[..2] == "</" && close[|close| - 1] == '>' && '>' !in close[2..|close| - 1]
  }

  /** Every node's own text is markup of its kind. */
  ghost predicate Scannable(n: Node)
    decreases n, 1
  {
    match n
    case Root(children, open, close) => Passes(open) && Passes(close) && ScannableAll(children)
    case Element(_, _, _, _, _, children, open, close) =>
      if close == "" then children == [] && Opens(open, true) else Opens(open, false) && Closes(close) && ScannableAll(children)
    case Text(_, raw) => Passes(raw)
    case Comment(_, raw) => Passes(raw)
    case PI(_, _, raw) => Passes(raw)
  }

  ghost predicate ScannableAll(kids: seq<Node>)
    decreases kids, 0
  {
    kids == [] || (Scannable(kids[0]) && ScannableAll(kids[1..]))
  }

  lemma NothingPasses()
    ensures Passes("")
  {
    forall rest, depth, sum, limits
      ensures Scan.ScanRest("" + rest, depth, sum, limits) == Scan.ScanRest(rest, depth, sum, limits)
    {
      assert "" + rest == rest;
    }
  }

  /** Character data. */
  lemma CharactersPass(raw: string)
    requires '<' !in raw
    ensures Passes(raw)
  {
    forall rest, depth, sum, limits
      ensures Scan.ScanRest(raw + rest, depth, sum, limits) == Scan.ScanRest(rest, depth, sum, limits)
    {
      Scan.ScanCharacters(raw, rest, depth, sum, limits);
    }
  }

  // ---------------------------------------------------------------- the theorem

  /** What is left to scan once a part is scanned that nests so deep and has so many elements. */
  function Scanned(rest: string, depth: nat, deep: nat, count: nat, sum: Scan.Summary, limits: Scan.Limits)
    : Result<Scan.Summary, Scan.ScanError>
  {
    if Scan.Fits(depth, deep, sum.elements, count, limits)
    then Scan.ScanRest(rest, depth, Scan.After(sum, depth, deep, count), limits) else Err(Scan.UnsafeXml)
  }

  lemma PassesOver(s: string, rest: string, depth: nat, sum: Scan.Summary, limits: Scan.Limits)
    requires Passes(s) && depth <= limits.maxDepth && sum.elements <= limits.maxNodes
    ensures Scan.ScanRest(s + rest, depth, sum, limits) == Scanned(rest, depth, 0, 0, sum, limits)
  {
    hide Scan.ScanRest;
  }

  lemma TagPieces(open: string, closes: bool)
    requires Opens(open, closes)
    ensures var tail := if closes then "/>" else ">"; open == "<" + open[1..|open| - |tail|] + tail
  {
    var tail := if closes then "/>" else ">";
    assert open == open[..1] + open[1..|open| - |tail|] + open[|open| - |tail|..];
    assert open[..1] == "<";
  }

  lemma EmptyScans(open: string, rest: string, depth: nat, sum: Scan.Summary, limits: Scan.Limits)
    requires Opens(open, true) && depth <= limits.maxDepth && sum.elements <= limits.maxNodes
    ensures Scan.ScanRest(open + rest, depth, sum, limits) == Scanned(rest, depth, 1, 1, sum, limits)
  {
    hide Scan.ScanRest, Scan.IsTag;
    TagPieces(open, true);
    var start := open[1..|open| - 2];
    Scan.ScanOpen(start, "/>" + rest, true, rest, depth, sum, limits);
    assert open + rest == "<" + start + ("/>" + rest);
  }

  lemma ElementPieces(open: string, body: string, close: string, rest: string)
    requires Opens(open, false) && Closes(close)
    ensures var start, end := open[1..|open| - 1], close[2..|close| - 1];
            && open + body + close + rest == "<" + start + (">" + (body + (close + rest)))
            && close + rest == "</" + end + ">" + rest
  {
    TagPieces(open, false);
    assert close == close[..2] + close[2..|close| - 1] + close[|close| - 1..] && close[|close| - 1..] == ">";
  }

  /** An element around what is scanned already. */
  lemma ElementScans(open: string, body: string, close: string, deep: nat, count: nat, rest: string, depth: nat, sum: Scan.Summary,
                     limits: Scan.Limits)
    requires Opens(open, false) && Closes(close) && depth <= limits.maxDepth && sum.elements <= limits.maxNodes
    requires var inner := Scan.Summary(sum.elements + 1, Scan.Max(sum.maxDepth, depth + 1));
             depth + 1 <= limits.maxDepth && sum.elements + 1 <= limits.maxNodes ==>
               Scan.ScanRest(body + (close + rest), depth + 1, inner, limits) == Scanned(close + rest, depth + 1, deep, count, inner, limits)
    ensures Scan.ScanRest(open + body + close + rest, depth, sum, limits) == Scanned(rest, depth, 1 + deep, 1 + count, sum, limits)
  {
    hide Scan.ScanRest, Scan.IsTag, Scan.Fits, Scan.After, Scan.Max;
    ElementPieces(open, body, close, rest);
    var start, end := open[1..|open| - 1], close[2..|close| - 1];
    var tail := ">" + (body + (close + rest));
    assert start[|start| - 1] == open[|open| - 2];
    Scan.ScanOpen(start, tail, false, body + (close + rest), depth, sum, limits);
    Scan.AfterElement(sum, depth, deep, count, limits);
    var inner := Scan.Summary(sum.elements + 1, Scan.Max(sum.maxDepth, depth + 1));
    if depth + 1 <= limits.maxDepth && sum.elements + 1 <= limits.maxNodes {
      Scan.ScanClose(end, rest, depth + 1, Scan.After(inner, depth + 1, deep, count), limits);
    }
  }

  lemma {:induction false} NodeScans(n: Node, rest: string, depth: nat, sum: Scan.Summary, limits: Scan.Limits)
    requires Scannable(n) && depth <= limits.maxDepth && sum.elements <= limits.maxNodes
    ensures Scan.ScanRest(Source(n) + rest, depth, sum, limits) == Scanned(rest, depth, ElementDepth(n), ElementCount(n), sum, limits)
    decreases n, 1
  {
    hide Scan.ScanRest, Passes, Opens, Closes, Scanned;
    match n {
      case Root(children, open, close) =>
        var body := SourceAll(children);
        KidsScan(children, close + rest, depth, sum, limits);
        RootScans(open, body, close, ElementDepthAll(children), ElementCountAll(children), rest, depth, sum, limits);
      case Element(_, _, _, _, _, children, open, close) =>
        var body := SourceAll(children);
        if close == "" {
          EmptyScans(open, rest, depth, sum, limits);
          assert body == "" && open + body + close == open;
        } else {
          var inner := Scan.Summary(sum.elements + 1, Scan.Max(sum.maxDepth, depth + 1));
          if depth + 1 <= limits.maxDepth && sum.elements + 1 <= limits.maxNodes {
            KidsScan(children, close + rest, depth + 1, inner, limits);
          }
          ElementScans(open, body, close, ElementDepthAll(children), ElementCountAll(children), rest, depth, sum, limits);
        }
      case Text(_, raw) => PassesOver(raw, rest, depth, sum, limits);
      case Comment(_, raw) => PassesOver(raw, rest, depth, sum, limits);
      case PI(_, _, raw) => PassesOver(raw, rest, depth, sum, limits);
    }
  }

  lemma RootScans(open: string, body: string, close: string, deep: nat, count: nat, rest: string, depth: nat, sum: Scan.Summary,
                  limits: Scan.Limits)
    requires Passes(open) && Passes(close)
    requires Scan.ScanRest(body + (close + rest), depth, sum, limits) == Scanned(close + rest, depth, deep, count, sum, limits)
    ensures Scan.ScanRest(open + body + close + rest, depth, sum, limits) == Scanned(rest, depth, deep, count, sum, limits)
  {
    hide Scan.ScanRest, Scan.Fits, Scan.After;
    assert open + body + close + rest == open + (body + (close + rest));
  }

  lemma {:induction false} KidsScan(kids: seq<Node>, rest: string, depth: nat, sum: Scan.Summary, limits: Scan.Limits)
    requires ScannableAll(kids) && depth <= limits.maxDepth && sum.elements <= limits.maxNodes
    ensures Scan.ScanRest(SourceAll(kids) + rest, depth, sum, limits)
         == Scanned(rest, depth, ElementDepthAll(kids), ElementCountAll(kids), sum, limits)
    decreases kids, 0
  {
    hide Scan.ScanRest, Source, Scannable, ElementDepth, ElementCount, Scan.Max;
    if kids == [] {
      assert SourceAll(kids) + rest == rest;
    } else {
      var first, more := Source(kids[0]), SourceAll(kids[1..]);
      assert first + more + rest == first + (more + rest);
      NodeScans(kids[0], more + rest, depth, sum, limits);
      var deep, count := ElementDepth(kids[0]), ElementCount(kids[0]);
      Scan.AfterBoth(sum, depth, deep, count, ElementDepthAll(kids[1..]), ElementCountAll(kids[1..]), limits);
      if Scan.Fits(depth, deep, sum.elements, count, limits) {
        Scan.StillWithin(depth, deep, sum, count, limits);
        KidsScan(kids[1..], rest, depth, Scan.After(sum, depth, deep, count), limits);
      }
    }
  }

  /** The scan accepts a document exactly when its elements are not too many and do not nest too deep. */
  lemma DocumentScans(doc: Node, limits: Limits)
    requires Scannable(doc)
    ensures Scans(doc, limits) <==> ElementDepth(doc) <= limits.maxDepth && ElementCount(doc) <= limits.maxElements
  {
    hide Source, Scannable, ElementDepth, ElementCount;
    var within := Scan.Limits(limits.maxDepth, limits.maxElements);
    NodeScans(doc, "", 0, Scan.Summary(0, 0), within);
    assert Source(doc) + "" == Source(doc);
  }
}
