/**
 The parsed document, as the verifier, the signer and the structural parser
 all see it: one tree of nodes with resolved names.

 A node is identified by its path from the document node, the sequence of
 child positions that leads to it. "The same node" is then equality of paths,
 and "ancestor or self" is the prefix order `<=` on paths. The edits the signer
 makes only ever append a last child or replace a subtree, so the path of every
 other node stays what it was.

 Besides what a name resolved to, a node keeps how the source text spelled it:
 `open` and `close` are an element's tags, and `raw` a leaf's own characters.
 Nothing canonical depends on the spelling.
 */
module XmlTree {

  datatype Attr = Attr(qname: string, ns: string, local: string, value: string)

  datatype Decl = Decl(prefix: string, uri: string)

  datatype Node =
    | Root(children: seq<Node>, open: string, close: string)
    | Element(qname: string, ns: string, local: string, decls: seq<Decl>, attrs: seq<Attr>,
              children: seq<Node>, open: string, close: string)
    | Text(text: string, raw: string)
    | Comment(text: string, raw: string)
    | PI(target: string, value: string, raw: string)

  type Path = seq<nat>

  /** Namespace bindings in scope, nearest first, one per prefix. */
  type Scope = seq<Decl>

  const XML_NAMESPACE: string := "http://www.w3.org/XML/1998/namespace"

  /** XML Signature's namespace. */
  const XMLDSIG: string := "http://www.w3.org/2000/09/xmldsig#"

  /** What is in scope at the document node. */
  const BASE_SCOPE: Scope := [Decl("xml", XML_NAMESPACE)]

  // ---------------------------------------------------------------- paths

  function Kids(n: Node): seq<Node> {
    if n.Root? || n.Element? then n.children else []
  }

  function WithKids(n: Node, kids: seq<Node>): Node {
    if n.Root? || n.Element? then n.(children := kids) else n
  }

  predicate Valid(n: Node, p: Path) {
    p == [] || (p[0] < |Kids(n)| && Valid(Kids(n)[p[0]], p[1..]))
  }

  function At(n: Node, p: Path): Node
    requires Valid(n, p)
  {
    if p == [] then n else At(Kids(n)[p[0]], p[1..])
  }

  /** The node at `p` is `x`. */
  predicate IsAt(n: Node, p: Path, x: Node) {
    Valid(n, p) && At(n, p) == x
  }

  function ReplaceAt(n: Node, p: Path, m: Node): Node
    requires Valid(n, p)
  {
    if p == [] then m
    else WithKids(n, Kids(n)[p[0] := ReplaceAt(Kids(n)[p[0]], p[1..], m)])
  }

  function AddKid(n: Node, kid: Node): Node {
    WithKids(n, Kids(n) + [kid])
  }

  /** Append `kid` as the last child of the element at `q`. */
  function AppendAt(n: Node, q: Path, kid: Node): Node
    requires Valid(n, q)
  {
    ReplaceAt(n, q, AddKid(At(n, q), kid))
  }

  predicate Disjoint(p: Path, q: Path) {
    !(p <= q) && !(q <= p)
  }

  lemma {:induction false} AtConcat(n: Node, p: Path, r: Path)
    ensures Valid(n, p + r) <==> (Valid(n, p) && Valid(At(n, p), r))
    ensures Valid(n, p + r) ==> At(n, p + r) == At(At(n, p), r)
  {
    if p == [] {
      assert p + r == r;
    } else {
      assert (p + r)[1..] == p[1..] + r;
      if p[0] < |Kids(n)| {
        AtConcat(Kids(n)[p[0]], p[1..], r);
      }
    }
  }

  // ------------------------------------------------------ what an edit does

  /** Below the replaced node the new subtree answers. */
  lemma {:induction false} ReplaceBelow(n: Node, p: Path, m: Node, r: Path)
    requires Valid(n, p)
    ensures Valid(ReplaceAt(n, p, m), p + r) <==> Valid(m, r)
    ensures Valid(m, r) ==> At(ReplaceAt(n, p, m), p + r) == At(m, r)
  {
    if p == [] {
      assert p + r == r;
    } else {
      assert (p + r)[1..] == p[1..] + r;
      ReplaceBelow(Kids(n)[p[0]], p[1..], m, r);
    }
  }

  lemma DisjointTail(p: Path, t: Path)
    requires Disjoint(p, t) && p[0] == t[0]
    ensures Disjoint(p[1..], t[1..])
  {
    assert p == [p[0]] + p[1..] && t == [t[0]] + t[1..];
  }

  /** A node off the replaced path is the node it was. */
  lemma {:induction false} ReplaceApart(n: Node, p: Path, m: Node, t: Path)
    requires Valid(n, p) && Disjoint(p, t)
    ensures Valid(ReplaceAt(n, p, m), t) <==> Valid(n, t)
    ensures Valid(n, t) ==> At(ReplaceAt(n, p, m), t) == At(n, t)
  {
    if p[0] == t[0] {
      DisjointTail(p, t);
      ReplaceApart(Kids(n)[p[0]], p[1..], m, t[1..]);
    }
  }

  /** The parts of a node that its children do not decide. */
  predicate SameHead(a: Node, b: Node) {
    WithKids(a, []) == WithKids(b, [])
  }

  /** Every proper ancestor of the replaced node keeps its own tag. */
  lemma {:induction false} ReplaceAbove(n: Node, p: Path, m: Node, t: Path)
    requires Valid(n, p) && t < p
    ensures Valid(ReplaceAt(n, p, m), t) && Valid(n, t)
    ensures SameHead(At(ReplaceAt(n, p, m), t), At(n, t))
    ensures |Kids(At(ReplaceAt(n, p, m), t))| == |Kids(At(n, t))|
  {
    if t != [] {
      ReplaceAbove(Kids(n)[p[0]], p[1..], m, t[1..]);
    }
  }

  lemma SameHeadGrown(e: Node, kid: Node)
    ensures SameHead(AddKid(e, kid), e)
  {}

  lemma SameHeadSelf(e: Node)
    ensures SameHead(e, e)
  {}

  /** What can be at a path after a child was appended at `q`: an old node with
      its old head, or a node of the appended subtree. */
  lemma {:induction false} AppendCases(n: Node, q: Path, kid: Node, t: Path)
    requires Valid(n, q) && (At(n, q).Root? || At(n, q).Element?)
    ensures var k := |Kids(At(n, q))|; var d := AppendAt(n, q, kid);
            && (Valid(n, t) ==> Valid(d, t) && SameHead(At(d, t), At(n, t))
                                && (!(t <= q) ==> At(d, t) == At(n, t)))
            && (q + [k] <= t ==> (Valid(d, t) <==> Valid(kid, t[|q| + 1..]))
                                 && (Valid(d, t) ==> At(d, t) == At(kid, t[|q| + 1..])))
            && (Valid(d, t) && !Valid(n, t) ==> q + [k] <= t)
  {
    hide ReplaceAt, SameHead;
    var k := |Kids(At(n, q))|;
    var grown := AddKid(At(n, q), kid);
    assert SameHead(grown, At(n, q)) by { SameHeadGrown(At(n, q), kid); }
    if q <= t {
      var r := t[|q|..];
      assert t == q + r;
      ReplaceBelow(n, q, grown, r);
      AtConcat(n, q, r);
      if r != [] {
        if Valid(n, t) { SameHeadSelf(At(n, t)); }
        assert r == [r[0]] + r[1..];
        assert r[1..] == t[|q| + 1..];
        if r[0] == k {
          assert q + [k] <= t;
          assert Kids(grown)[k] == kid;
          assert Valid(grown, r) <==> Valid(kid, r[1..]);
        } else {
          assert !(q + [k] <= t) by { assert (q + [k])[|q|] != t[|q|]; }
        }
      } else {
        assert !(q + [k] <= t);
      }
    } else {
      if t < q {
        ReplaceAbove(n, q, grown, t);
      } else {
        ReplaceApart(n, q, grown, t);
        if Valid(n, t) { SameHeadSelf(At(n, t)); }
      }
    }
  }

  // ------------------------------------------------------------- namespaces

  /** The first binding of `prefix`, or the empty string. */
  function Lookup(scope: Scope, prefix: string): string {
    if scope == [] then ""
    else if scope[0].prefix == prefix then scope[0].uri
    else Lookup(scope[1..], prefix)
  }

  predicate Declares(decls: seq<Decl>, prefix: string) {
    exists d :: d in decls && d.prefix == prefix
  }

  function Undeclared(decls: seq<Decl>, outer: Scope): Scope {
    if outer == [] then []
    else if Declares(decls, outer[0].prefix) then Undeclared(decls, outer[1..])
    else [outer[0]] + Undeclared(decls, outer[1..])
  }

  /** The scope inside an element: its own declarations, then whatever they leave standing. */
  function Extend(decls: seq<Decl>, outer: Scope): Scope {
    decls + Undeclared(decls, outer)
  }

  function DeclsOf(n: Node): seq<Decl> {
    if n.Element? then n.decls else []
  }

  function XmlAttrs(attrs: seq<Attr>): seq<Attr> {
    if attrs == [] then []
    else if attrs[0].ns == XML_NAMESPACE then [attrs[0]] + XmlAttrs(attrs[1..])
    else XmlAttrs(attrs[1..])
  }

  function XmlAttrsOf(n: Node): seq<Attr> {
    if n.Element? then XmlAttrs(n.attrs) else []
  }

  /** The scope the node at `p` inherits from its ancestors, `outer` standing above `n`. */
  function ScopeAbove(n: Node, p: Path, outer: Scope): Scope
    requires Valid(n, p)
  {
    if p == [] then outer
    else ScopeAbove(Kids(n)[p[0]], p[1..], Extend(DeclsOf(n), outer))
  }

  /** The `xml:*` attributes of the ancestors of the node at `p`, nearest ancestor first. */
  function XmlAbove(n: Node, p: Path): seq<Attr>
    requires Valid(n, p)
  {
    if p == [] then [] else XmlAbove(Kids(n)[p[0]], p[1..]) + XmlAttrsOf(n)
  }

  /** Everything canonicalization can see of the node at a path. */
  datatype View = View(node: Node, scope: Scope, inherited: seq<Attr>)

  function ViewAt(n: Node, p: Path, outer: Scope): View
    requires Valid(n, p)
  {
    View(At(n, p), ScopeAbove(n, p, outer), XmlAbove(n, p))
  }

  /** Replacing a subtree changes the view of no node off the replaced path. */
  lemma {:induction false} ReplaceKeepsView(n: Node, p: Path, m: Node, t: Path, outer: Scope)
    requires Valid(n, p) && Valid(n, t) && Disjoint(p, t)
    ensures Valid(ReplaceAt(n, p, m), t)
    ensures ViewAt(ReplaceAt(n, p, m), t, outer) == ViewAt(n, t, outer)
  {
    ReplaceApart(n, p, m, t);
    if p[0] == t[0] {
      DisjointTail(p, t);
      ReplaceKeepsView(Kids(n)[p[0]], p[1..], m, t[1..], Extend(DeclsOf(n), outer));
    }
  }

  /** Appending a child changes the view of every node except the parent and its ancestors. */
  lemma {:induction false} AppendKeepsView(n: Node, q: Path, kid: Node, t: Path, outer: Scope)
    requires Valid(n, q) && (At(n, q).Root? || At(n, q).Element?) && Valid(n, t) && !(t <= q)
    ensures Valid(AppendAt(n, q, kid), t)
    ensures ViewAt(AppendAt(n, q, kid), t, outer) == ViewAt(n, t, outer)
  {
    if q != [] && q[0] == t[0] {
      assert !(t[1..] <= q[1..]) by {
        assert q == [q[0]] + q[1..] && t == [t[0]] + t[1..];
      }
      AppendKeepsView(Kids(n)[q[0]], q[1..], kid, t[1..], Extend(DeclsOf(n), outer));
    }
  }

  lemma Rejoin(a: seq<Attr>, b: seq<Attr>, c: seq<Attr>)
    ensures a + b + c == a + (b + c)
  {}

  lemma {:induction false} ContextConcat(n: Node, p: Path, r: Path, outer: Scope)
    requires Valid(n, p) && Valid(At(n, p), r)
    ensures Valid(n, p + r)
    ensures ScopeAbove(n, p + r, outer) == ScopeAbove(At(n, p), r, ScopeAbove(n, p, outer))
    ensures XmlAbove(n, p + r) == XmlAbove(At(n, p), r) + XmlAbove(n, p)
  {
    AtConcat(n, p, r);
    if p == [] {
      assert p + r == r;
    } else {
      assert (p + r)[1..] == p[1..] + r;
      var kid := Kids(n)[p[0]];
      hide Extend, XmlAttrsOf, DeclsOf;
      ContextConcat(kid, p[1..], r, Extend(DeclsOf(n), outer));
      Rejoin(XmlAbove(At(kid, p[1..]), r), XmlAbove(kid, p[1..]), XmlAttrsOf(n));
    }
  }

  /** A node's context is decided by its proper ancestors' tags alone. */
  lemma {:induction false} ReplaceKeepsContext(n: Node, p: Path, m: Node, outer: Scope)
    requires Valid(n, p)
    ensures Valid(ReplaceAt(n, p, m), p)
    ensures ScopeAbove(ReplaceAt(n, p, m), p, outer) == ScopeAbove(n, p, outer)
    ensures XmlAbove(ReplaceAt(n, p, m), p) == XmlAbove(n, p)
  {
    if p != [] {
      ReplaceKeepsContext(Kids(n)[p[0]], p[1..], m, Extend(DeclsOf(n), outer));
    }
  }

  lemma OneDown(n: Node, k: nat, r: Path, outer: Scope)
    requires k < |Kids(n)| && Valid(Kids(n)[k], r)
    ensures Valid(n, [k] + r) && At(n, [k] + r) == At(Kids(n)[k], r)
    ensures ScopeAbove(n, [k] + r, outer) == ScopeAbove(Kids(n)[k], r, Extend(DeclsOf(n), outer))
    ensures XmlAbove(n, [k] + r) == XmlAbove(Kids(n)[k], r) + XmlAttrsOf(n)
  {
    assert ([k] + r)[1..] == r;
  }

  /** What a node of the replacing subtree sees: that subtree, in the old node's context. */
  lemma ViewInReplaced(n: Node, q: Path, m: Node, r: Path, outer: Scope)
    requires Valid(n, q) && Valid(m, r)
    ensures Valid(ReplaceAt(n, q, m), q + r)
    ensures At(ReplaceAt(n, q, m), q + r) == At(m, r)
    ensures ScopeAbove(ReplaceAt(n, q, m), q + r, outer) == ScopeAbove(m, r, ScopeAbove(n, q, outer))
    ensures XmlAbove(ReplaceAt(n, q, m), q + r) == XmlAbove(m, r) + XmlAbove(n, q)
  {
    ReplaceBelow(n, q, m, r);
    ReplaceBelow(n, q, m, []);
    assert q + [] == q;
    ReplaceKeepsContext(n, q, m, outer);
    ContextConcat(ReplaceAt(n, q, m), q, r, outer);
  }
}
