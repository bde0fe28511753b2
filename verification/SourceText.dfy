/**
 The text of a document, and where each node sits in it.

 Appending a child or replacing a subtree is, on the text, one splice at the
 offset the parser reports; and an edit moves nothing that comes before it.
 */
module SourceText {
  import opened Strings
  import opened XmlTree

  function Source(n: Node): string
    decreases n, 1
  {
    match n
    case Root(children, open, close) => open + SourceAll(children) + close
    case Element(_, _, _, _, _, children, open, close) => open + SourceAll(children) + close
    case Text(_, raw) => raw
    case Comment(_, raw) => raw
    case PI(_, _, raw) => raw
  }

  function SourceAll(kids: seq<Node>): string
    decreases kids, 0
  {
    if kids == [] then "" else Source(kids[0]) + SourceAll(kids[1..])
  }

  predicate Holds(n: Node) {
    n.Root? || n.Element?
  }

  /** The offset at which the node at `p` starts. */
  function Start(n: Node, p: Path): nat
    requires Valid(n, p)
  {
    if p == [] then 0
    else |n.open| + |SourceAll(n.children[..p[0]])| + Start(n.children[p[0]], p[1..])
  }

  /** The offset just past the node at `p`. */
  function End(n: Node, p: Path): nat
    requires Valid(n, p)
  {
    Start(n, p) + |Source(At(n, p))|
  }

  /** Where a new last child of the node at `q` goes: just past its present last child. */
  function InsertOffset(n: Node, q: Path): nat
    requires Valid(n, q) && Kids(At(n, q)) != []
  {
    var last := |Kids(At(n, q))| - 1;
    AtConcat(n, q, [last]);
    End(n, q + [last])
  }

  /** One splice: the range `start..end` replaced by `text`. */
  function Splice(s: string, start: nat, end: nat, text: string): string
    requires start <= end <= |s|
  {
    s[..start] + text + s[end..]
  }

  lemma {:induction false} SourceAllConcat(a: seq<Node>, b: seq<Node>)
    ensures SourceAll(a + b) == SourceAll(a) + SourceAll(b)
  {
    if a == [] {
      assert a + b == b;
    } else {
      assert (a + b)[1..] == a[1..] + b;
      SourceAllConcat(a[1..], b);
      Regroup(Source(a[0]), SourceAll(a[1..]), SourceAll(b));
    }
  }

  /** The text of siblings, cut around one of them. */
  lemma SiblingsCut(kids: seq<Node>, k: nat)
    requires k < |kids|
    ensures SourceAll(kids) == SourceAll(kids[..k]) + (Source(kids[k]) + SourceAll(kids[k + 1..]))
  {
    assert kids == kids[..k] + kids[k..];
    SourceAllConcat(kids[..k], kids[k..]);
    assert kids[k..][1..] == kids[k + 1..];
  }

  /** An element's text, cut around one child. */
  lemma KidCut(n: Node, k: nat)
    requires Holds(n) && k < |n.children|
    ensures Source(n) == (n.open + SourceAll(n.children[..k])) + Source(n.children[k])
                         + (SourceAll(n.children[k + 1..]) + n.close)
  {
    SiblingsCut(n.children, k);
    var a, b, c := SourceAll(n.children[..k]), Source(n.children[k]), SourceAll(n.children[k + 1..]);
    assert n.open + (a + (b + c)) + n.close == (n.open + a) + b + (c + n.close);
  }

  lemma SpliceInside(before: string, s: string, after: string, start: nat, end: nat, text: string)
    requires start <= end <= |s|
    ensures Splice(before + s + after, |before| + start, |before| + end, text)
         == before + Splice(s, start, end, text) + after
  {
    var whole := before + s + after;
    assert whole[..|before| + start] == before + s[..start];
    assert whole[|before| + end..] == s[end..] + after;
  }

  lemma SliceInside(before: string, s: string, after: string, start: nat, end: nat)
    requires start <= end <= |s|
    ensures (before + s + after)[|before| + start..|before| + end] == s[start..end]
  {}

  /** Replacing one child leaves the text on either side of it alone. */
  lemma KidReplaced(n: Node, k: nat, m: Node)
    requires Holds(n) && k < |n.children|
    ensures Source(WithKids(n, n.children[k := m]))
         == (n.open + SourceAll(n.children[..k])) + Source(m) + (SourceAll(n.children[k + 1..]) + n.close)
  {
    var grown := WithKids(n, n.children[k := m]);
    KidCut(grown, k);
    assert grown.children[..k] == n.children[..k] && grown.children[k + 1..] == n.children[k + 1..];
  }

  function LeftOf(n: Node, k: nat): string
    requires Holds(n) && k < |n.children|
  {
    n.open + SourceAll(n.children[..k])
  }

  function RightOf(n: Node, k: nat): string
    requires Holds(n) && k < |n.children|
  {
    SourceAll(n.children[k + 1..]) + n.close
  }

  lemma OneLevel(n: Node, p: Path, m: Node)
    requires Valid(n, p) && p != []
    ensures var k := p[0]; var kid := n.children[k];
            && Source(n) == LeftOf(n, k) + Source(kid) + RightOf(n, k)
            && Source(ReplaceAt(n, p, m)) == LeftOf(n, k) + Source(ReplaceAt(kid, p[1..], m)) + RightOf(n, k)
            && Start(n, p) == |LeftOf(n, k)| + Start(kid, p[1..])
            && End(n, p) == |LeftOf(n, k)| + End(kid, p[1..])
  {
    KidCut(n, p[0]);
    KidReplaced(n, p[0], ReplaceAt(n.children[p[0]], p[1..], m));
  }

  lemma Inside(s: string, left: string, inner: string, right: string, start: nat, end: nat, text: string,
               inner': string, s': string)
    requires s == left + inner + right && start <= end <= |inner|
    requires inner' == Splice(inner, start, end, text) && s' == left + inner' + right
    ensures |left| + end <= |s|
    ensures s[|left| + start..|left| + end] == inner[start..end]
    ensures s' == Splice(s, |left| + start, |left| + end, text)
  {
    SpliceInside(left, inner, right, start, end, text);
    SliceInside(left, inner, right, start, end);
  }

  /** The node at `p` has the range it is said to have, and replacing it splices that range. */
  predicate Spliced(n: Node, p: Path, m: Node)
    requires Valid(n, p)
  {
    && End(n, p) <= |Source(n)|
    && Source(n)[Start(n, p)..End(n, p)] == Source(At(n, p))
    && Source(ReplaceAt(n, p, m)) == Splice(Source(n), Start(n, p), End(n, p), Source(m))
  }

  lemma SplicedAbove(n: Node, p: Path, m: Node)
    requires Valid(n, p) && p != [] && Spliced(n.children[p[0]], p[1..], m)
    ensures Spliced(n, p, m)
  {
    hide Source, SourceAll, ReplaceAt, LeftOf, RightOf, Splice, Start;
    var k, kid := p[0], n.children[p[0]];
    var start, end := Start(kid, p[1..]), End(kid, p[1..]);
    var left, right := LeftOf(n, k), RightOf(n, k);
    var inner', s' := Source(ReplaceAt(kid, p[1..], m)), Source(ReplaceAt(n, p, m));
    OneLevel(n, p, m);
    assert inner' == Splice(Source(kid), start, end, Source(m));
    Inside(Source(n), left, Source(kid), right, start, end, Source(m), inner', s');
  }

  /** A node's range holds its text, and replacing the node splices that range. */
  lemma {:induction false} ReplaceIsSplice(n: Node, p: Path, m: Node)
    requires Valid(n, p)
    ensures Spliced(n, p, m)
    decreases |p|
  {
    if p == [] {
      WholeSplice(Source(n), Source(m));
    } else {
      hide Spliced;
      ReplaceIsSplice(n.children[p[0]], p[1..], m);
      SplicedAbove(n, p, m);
    }
  }

  lemma WholeSplice(s: string, text: string)
    ensures Splice(s, 0, |s|, text) == text && s[0..|s|] == s
  {}

  // -------------------------------------------------------- what does not move

  /** Document order on paths neither of which is above the other. */
  predicate Before(t: Path, p: Path) {
    t != [] && p != [] && (t[0] < p[0] || (t[0] == p[0] && Before(t[1..], p[1..])))
  }

  lemma {:induction false} DisjointIsOrdered(t: Path, p: Path)
    requires Disjoint(t, p)
    ensures Before(t, p) || Before(p, t)
  {
    if t[0] == p[0] {
      DisjointTail(t, p);
      DisjointIsOrdered(t[1..], p[1..]);
    }
  }

  lemma {:induction false} BeforeIsDisjoint(t: Path, p: Path)
    requires Before(t, p)
    ensures Disjoint(t, p)
  {
    if t[0] == p[0] {
      BeforeIsDisjoint(t[1..], p[1..]);
      assert t == [t[0]] + t[1..] && p == [p[0]] + p[1..];
    }
  }

  /** An earlier node ends before a later one starts. */
  lemma {:induction false} EarlierEndsFirst(n: Node, t: Path, p: Path)
    requires Valid(n, t) && Valid(n, p) && Before(t, p)
    ensures End(n, t) <= Start(n, p)
  {
    var k := t[0];
    if k == p[0] {
      EarlierEndsFirst(n.children[k], t[1..], p[1..]);
    } else {
      var kids := n.children[..p[0]];
      SiblingsCut(kids, k);
      assert kids[..k] == n.children[..k] && kids[k] == n.children[k];
      ReplaceIsSplice(n.children[k], t[1..], n);
    }
  }

  /** An edit moves nothing that starts before it. */
  lemma {:induction false} EarlierStays(n: Node, p: Path, m: Node, t: Path)
    requires Valid(n, p) && Valid(n, t) && Before(t, p)
    ensures Valid(ReplaceAt(n, p, m), t)
    ensures At(ReplaceAt(n, p, m), t) == At(n, t)
    ensures Start(ReplaceAt(n, p, m), t) == Start(n, t)
    ensures End(ReplaceAt(n, p, m), t) == End(n, t)
  {
    BeforeIsDisjoint(t, p);
    ReplaceApart(n, p, m, t);
    var k := t[0];
    var grown := ReplaceAt(n, p, m);
    assert grown.children[..k] == n.children[..k];
    if k == p[0] {
      EarlierStays(n.children[k], p[1..], m, t[1..]);
    }
  }

  // ------------------------------------------------------------------ insertion

  lemma {:induction false} EndConcat(n: Node, q: Path, r: Path)
    requires Valid(n, q) && Valid(At(n, q), r)
    ensures Valid(n, q + r)
    ensures Start(n, q + r) == Start(n, q) + Start(At(n, q), r)
    ensures End(n, q + r) == Start(n, q) + End(At(n, q), r)
  {
    AtConcat(n, q, r);
    if q == [] {
      assert q + r == r;
    } else {
      assert (q + r)[1..] == q[1..] + r;
      EndConcat(n.children[q[0]], q[1..], r);
    }
  }

  /** The offset after the last child is where the children's text ends. */
  lemma InsertOffsetIs(n: Node, q: Path)
    requires Valid(n, q) && Kids(At(n, q)) != []
    ensures var e := At(n, q);
            && InsertOffset(n, q) == Start(n, q) + |e.open| + |SourceAll(e.children)|
            && InsertOffset(n, q) + |e.close| == End(n, q)
            && End(n, q) <= |Source(n)|
  {
    var e := At(n, q);
    var last := |e.children| - 1;
    EndConcat(n, q, [last]);
    SiblingsCut(e.children, last);
    assert e.children[last + 1..] == [];
    ReplaceIsSplice(n, q, e);
    assert End(n, q) <= |Source(n)| by { assert Spliced(n, q, e); }
  }

  /** Appending a child inserts its text at the insertion offset and changes nothing else. */
  lemma AppendIsInsert(n: Node, q: Path, kid: Node)
    requires Valid(n, q) && Kids(At(n, q)) != []
    ensures InsertOffset(n, q) <= |Source(n)|
    ensures Source(AppendAt(n, q, kid)) == Splice(Source(n), InsertOffset(n, q), InsertOffset(n, q), Source(kid))
  {
    var e := At(n, q);
    InsertOffsetIs(n, q);
    ReplaceIsSplice(n, q, AddKid(e, kid));
    GrownText(e, kid);
    SpliceTail(Source(n), Start(n, q), End(n, q), e.open + SourceAll(e.children), Source(kid), e.close);
  }

  lemma GrownText(e: Node, kid: Node)
    requires Holds(e)
    ensures Source(e) == e.open + SourceAll(e.children) + e.close
    ensures Source(AddKid(e, kid)) == e.open + SourceAll(e.children) + Source(kid) + e.close
  {
    SourceAllConcat(e.children, [kid]);
    assert [kid][1..] == [];
    assert SourceAll([kid]) == Source(kid);
    Regroup(e.open, SourceAll(e.children), Source(kid));
  }

  lemma SpliceTail(s: string, start: nat, end: nat, inner: string, text: string, tail: string)
    requires start <= end <= |s| && s[start..end] == inner + tail
    ensures Splice(s, start, end, inner + text + tail) == Splice(s, start + |inner|, start + |inner|, text)
  {
    assert s[start..start + |inner|] == s[start..end][..|inner|] == inner;
    assert s[start + |inner|..end] == s[start..end][|inner|..] == tail;
    assert s[..start + |inner|] == s[..start] + inner;
    assert s[start + |inner|..] == tail + s[end..];
    var a, b := s[..start], s[end..];
    assert a + (inner + text + tail) + b == (a + inner) + text + (tail + b);
  }

  /** An edit leaves the insertion offset of an earlier container where it was. */
  lemma EarlierOffsetStays(n: Node, p: Path, m: Node, t: Path)
    requires Valid(n, p) && Valid(n, t) && Kids(At(n, t)) != [] && Before(t, p)
    ensures Valid(ReplaceAt(n, p, m), t) && At(ReplaceAt(n, p, m), t) == At(n, t)
    ensures InsertOffset(ReplaceAt(n, p, m), t) == InsertOffset(n, t)
  {
    EarlierStays(n, p, m, t);
    InsertOffsetIs(n, t);
    InsertOffsetIs(ReplaceAt(n, p, m), t);
  }
}
