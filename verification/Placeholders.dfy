/**
 Filling a placeholder in the text of an element fills it in the tree.

 A replacement pass rewrites the text of a whole element. As long as no tag and
 no other text of the element contains the placeholder, what it rewrites is
 exactly the text nodes that are the placeholder, and the result is again the
 text of a tree.
 */
module Placeholders {
  import opened Strings
  import opened XmlTree
  import opened SourceText
  import opened Splicing

  function Hole(name: string): string {
    "@@" + name + "@@"
  }

  /** A placeholder's name holds no delimiter of its own and none of markup. */
  predicate HoleName(name: string) {
    name != "" && forall c :: c in name ==> c != '@' && c != '<' && c != '>' && c != '"'
  }

  /** A placeholder as it stands in the text. */
  predicate IsHole(h: string) {
    |h| > 0 && '@' in h && '<' !in h && '>' !in h && '"' !in h
  }

  lemma HolesAreHoles(name: string)
    requires HoleName(name)
    ensures IsHole(Hole(name))
  {
    assert Hole(name)[0] == '@';
    forall c | c in Hole(name)
      ensures c == '@' || c in name
    {}
  }

  predicate TagText(s: string, h: string) {
    |s| > 1 && s[0] == '<' && s[|s| - 1] == '>' && !Contains(s, h)
  }

  /** The placeholder occurs in this subtree only as whole text nodes. */
  predicate CleanFor(node: Node, h: string)
    decreases node, 0
  {
    match node
    case Element(_, _, _, _, _, children, open, close) =>
      && TagText(open, h)
      && (close == "" || TagText(close, h))
      && (children != [] ==> close != "")
      && CleanAll(children, h)
    case Text(_, raw) => raw == h || !Contains(raw, h)
    case Comment(_, raw) => TagText(raw, h)
    case PI(_, _, raw) => TagText(raw, h)
    case Root(_, _, _) => false
  }

  predicate CleanAll(kids: seq<Node>, h: string)
    decreases kids, 1
  {
    kids == [] || (CleanFor(kids[0], h) && CleanAll(kids[1..], h) && !(kids[0].Text? && |kids| > 1 && kids[1].Text?))
  }

  /** Every text node that is the placeholder becomes the value. */
  function Fill(node: Node, h: string, v: string): Node
    decreases node, 1
  {
    if node.Element? then WithKids(node, FillAll(node.children, h, v))
    else if node.Text? && node.raw == h then Text(v, v)
    else node
  }

  function FillAll(kids: seq<Node>, h: string, v: string): seq<Node>
    decreases kids, 0
  {
    if kids == [] then [] else [Fill(kids[0], h, v)] + FillAll(kids[1..], h, v)
  }

  // ------------------------------------------------------- on the text alone

  /** An occurrence lies on one side of a boundary that has a foreign character at it. */
  lemma NoStraddle(a: string, b: string, h: string, i: nat)
    requires i < |a| && |h| > 0 && !Contains(a, h)
    requires a[|a| - 1] !in h || b == "" || b[0] !in h
    ensures !(h <= (a + b)[i..])
  {
    var s := (a + b)[i..];
    if i + |h| <= |a| {
      assert s[..|h|] == a[i..][..|h|];
    } else if |h| <= |s| {
      var k := |a| - 1 - i;
      assert s[k] == a[|a| - 1] && s[k + 1] == b[0];
      assert h[k] in h && h[k + 1] in h;
    }
  }

  lemma InertJoin(a: string, b: string, h: string)
    requires |h| > 0 && !Contains(a, h) && !Contains(b, h)
    requires a == "" || a[|a| - 1] !in h || b == "" || b[0] !in h
    ensures !Contains(a + b, h)
  {
    forall i | 0 <= i <= |a + b|
      ensures !(h <= (a + b)[i..])
    {
      if i < |a| {
        NoStraddle(a, b, h, i);
      } else {
        assert (a + b)[i..] == b[i - |a|..];
      }
    }
  }

  /** Text without the placeholder's delimiter is inert. */
  lemma PlainInert(a: string, h: string)
    requires '@' !in a && IsHole(h)
    ensures !Contains(a, h)
  {
    var k :| 0 <= k < |h| && h[k] == '@';
    forall i | 0 <= i <= |a|
      ensures !(h <= a[i..])
    {
      if k < |a[i..]| { assert a[i..][k] in a; }
    }
  }

  lemma {:induction false} SkipInert(a: string, b: string, h: string, v: string)
    requires |h| > 0 && forall i :: 0 <= i < |a| ==> !(h <= (a + b)[i..])
    ensures Replace(a + b, h, v) == a + Replace(b, h, v)
  {
    if a == "" {
      assert a + b == b;
    } else {
      assert (a + b)[0..] == a + b;
      assert (a + b)[1..] == a[1..] + b;
      forall i | 0 <= i < |a[1..]|
        ensures !(h <= (a[1..] + b)[i..])
      {
        assert (a[1..] + b)[i..] == (a + b)[i + 1..];
      }
      SkipInert(a[1..], b, h, v);
    }
  }

  lemma SkipText(a: string, b: string, h: string, v: string)
    requires |h| > 0 && !Contains(a, h)
    requires a == "" || a[|a| - 1] !in h || b == "" || b[0] !in h
    ensures Replace(a + b, h, v) == a + Replace(b, h, v)
  {
    forall i | 0 <= i < |a|
      ensures !(h <= (a + b)[i..])
    {
      NoStraddle(a, b, h, i);
    }
    SkipInert(a, b, h, v);
  }

  // ------------------------------------------------------------- on the tree

  lemma MarkupStart(node: Node, h: string)
    requires CleanFor(node, h) && !node.Text?
    ensures Source(node) != "" && Source(node)[0] == '<'
  {}

  lemma {:induction false} FillsNode(node: Node, h: string, v: string, rest: string)
    requires IsHole(h) && CleanFor(node, h)
    requires node.Text? ==> rest == "" || rest[0] == '<'
    ensures Replace(Source(node) + rest, h, v) == Source(Fill(node, h, v)) + Replace(rest, h, v)
    decreases node, 1
  {
    if node.Element? {
      FillsElement(node, h, v, rest);
    } else if node.Text? && node.raw == h {
      assert h <= h + rest && (h + rest)[|h|..] == rest;
    } else {
      SkipText(node.raw, rest, h, v);
    }
  }

  lemma {:induction false} FillsElement(node: Node, h: string, v: string, rest: string)
    requires IsHole(h) && CleanFor(node, h) && node.Element?
    ensures Replace(Source(node) + rest, h, v) == Source(Fill(node, h, v)) + Replace(rest, h, v)
    decreases node, 0, 1
  {
    var open, close := node.open, node.close;
    var kids, filled := SourceAll(node.children), SourceAll(FillAll(node.children, h, v));
    var tail := close + rest;
    var r := Replace(rest, h, v);
    Four(open, kids, close, rest);
    SkipText(open, kids + tail, h, v);
    FillsRest(node, h, v, rest);
    Four(open, filled, close, r);
  }

  lemma Four(a: string, b: string, c: string, d: string)
    ensures a + b + c + d == a + (b + (c + d))
  {}

  lemma {:induction false} FillsRest(node: Node, h: string, v: string, rest: string)
    requires IsHole(h) && CleanFor(node, h) && node.Element?
    ensures Replace(SourceAll(node.children) + (node.close + rest), h, v)
         == SourceAll(FillAll(node.children, h, v)) + (node.close + Replace(rest, h, v))
    decreases node, 0, 0
  {
    if node.close == "" {
      assert node.children == [];
      assert "" + rest == rest && "" + ("" + rest) == rest;
      assert "" + ("" + Replace(rest, h, v)) == Replace(rest, h, v);
    } else {
      FillsKids(node.children, h, v, node.close + rest);
      SkipText(node.close, rest, h, v);
    }
  }

  lemma {:induction false} FillsKids(kids: seq<Node>, h: string, v: string, rest: string)
    requires IsHole(h) && CleanAll(kids, h) && rest != "" && rest[0] == '<'
    ensures Replace(SourceAll(kids) + rest, h, v) == SourceAll(FillAll(kids, h, v)) + Replace(rest, h, v)
    decreases kids, 0
  {
    if kids == [] {
      assert SourceAll(kids) + rest == rest;
    } else {
      var after := SourceAll(kids[1..]) + rest;
      if kids[0].Text? && |kids| > 1 {
        assert kids[1..][0] == kids[1];
        MarkupStart(kids[1], h);
      }
      FillsKids(kids[1..], h, v, rest);
      FillsNode(kids[0], h, v, after);
      Regroup(Source(kids[0]), SourceAll(kids[1..]), rest);
      var all := FillAll(kids, h, v);
      assert all[1..] == FillAll(kids[1..], h, v);
      Regroup(Source(all[0]), SourceAll(all[1..]), Replace(rest, h, v));
    }
  }

  /** One replacement over the text of an element. */
  lemma FillIsReplace(node: Node, h: string, v: string)
    requires IsHole(h) && CleanFor(node, h) && node.Element?
    ensures Replace(Source(node), h, v) == Source(Fill(node, h, v))
  {
    FillsElement(node, h, v, "");
    assert Source(node) + "" == Source(node);
    assert Source(Fill(node, h, v)) + "" == Source(Fill(node, h, v));
  }

  /** A value without the delimiter leaves the element clean for every other placeholder. */
  lemma {:induction false} FillStaysClean(node: Node, h: string, v: string, g: string)
    requires IsHole(g) && CleanFor(node, g) && '@' !in v
    ensures CleanFor(Fill(node, h, v), g)
    decreases node, 1
  {
    PlainInert(v, g);
    if node.Element? {
      FillAllStayClean(node.children, h, v, g);
    }
  }

  lemma {:induction false} FillAllStayClean(kids: seq<Node>, h: string, v: string, g: string)
    requires IsHole(g) && CleanAll(kids, g) && '@' !in v
    ensures CleanAll(FillAll(kids, h, v), g)
    ensures |FillAll(kids, h, v)| == |kids|
    ensures kids != [] ==> (FillAll(kids, h, v)[0].Text? <==> kids[0].Text?)
    decreases kids, 0
  {
    if kids != [] {
      FillStaysClean(kids[0], h, v, g);
      FillAllStayClean(kids[1..], h, v, g);
      var all := FillAll(kids, h, v);
      assert all[1..] == FillAll(kids[1..], h, v);
      if |kids| > 1 { assert all[1] == all[1..][0] && kids[1] == kids[1..][0]; }
    }
  }

  // ----------------------------------------------------------- whole passes

  function FillMany(node: Node, values: seq<Substitution>): Node
    decreases |values|
  {
    if values == [] then node else FillMany(Fill(node, values[0].placeholder, values[0].value), values[1..])
  }

  /** The substitutions of a pass: real placeholders, values without their delimiter. */
  predicate ProperValues(values: seq<Substitution>) {
    forall s :: s in values ==> IsHole(s.placeholder) && s.placeholder != "" && '@' !in s.value
  }

  /** A whole pass over an element's text is the pass over its tree. */
  lemma {:induction false} PassFillsTree(node: Node, values: seq<Substitution>)
    requires node.Element? && ProperValues(values) && forall s :: s in values ==> CleanFor(node, s.placeholder)
    ensures FillFragment(Source(node), values) == Source(FillMany(node, values))
    ensures FillMany(node, values).Element?
    decreases |values|
  {
    if values != [] {
      var s := values[0];
      var rest := values[1..];
      assert s in values && forall g :: g in rest ==> g in values;
      FillIsReplace(node, s.placeholder, s.value);
      forall g | g in rest
        ensures CleanFor(Fill(node, s.placeholder, s.value), g.placeholder)
      {
        FillStaysClean(node, s.placeholder, s.value, g.placeholder);
      }
      PassFillsTree(Fill(node, s.placeholder, s.value), rest);
    }
  }
}
