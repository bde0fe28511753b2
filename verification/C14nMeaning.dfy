/**
 Canonicalization preserves meaning.

 `Meaning` is the information set of a node set: expanded names, attributes,
 text. `Understand` is what a namespace-aware reader makes of canonical nodes,
 knowing nothing but the declarations the output itself carries. The two agree
 for every well-formed tree under all four algorithms, whatever the apex's
 ancestors declared: the declarations the renderer chose to emit, and those it
 chose to leave out, never change what a name refers to.
 */
module C14nMeaning {
  import opened Strings
  import opened XmlTree
  import opened C14n
  import opened C14nAxes
  import opened C14nReader

  datatype IAttr = IAttr(ns: string, local: string, value: string)

  datatype Info =
    | IElement(ns: string, local: string, attrs: set<IAttr>, children: seq<Info>)
    | IText(text: string)
    | IComment(text: string)
    | IPI(target: string, value: string)

  function AttrInfo(attrs: seq<Attr>): set<IAttr> {
    if attrs == [] then {} else {IAttr(attrs[0].ns, attrs[0].local, attrs[0].value)} + AttrInfo(attrs[1..])
  }

  /** The attributes an element carries in the node set: its own, and at the apex of an inclusive
      canonicalization the `xml:*` attributes of its ancestors. */
  function AttrsInSet(env: Env, path: Path, node: Node): seq<Attr>
    requires node.Element?
  {
    if env.algorithm.Inclusive? && path == env.nodes.apex then Inherit(node.attrs, env.inherited) else node.attrs
  }

  function Meaning(env: Env, path: Path, node: Node): Info
    requires node.Element?
    decreases node, 1
  {
    IElement(node.ns, node.local, AttrInfo(AttrsInSet(env, path, node)), MeaningOfKids(env, path, node.children, 0))
  }

  function MeaningOfNode(env: Env, path: Path, node: Node): seq<Info>
    decreases node, 2
  {
    if path in env.nodes.excluded then []
    else match node
      case Element(_, _, _, _, _, _, _, _) => [Meaning(env, path, node)]
      case Text(text, _) => [IText(text)]
      case Comment(text, _) => if ShowsComments(env) then [IComment(text)] else []
      case PI(target, value, _) => [IPI(target, value)]
      case Root(_, _, _) => []
  }

  function MeaningOfKids(env: Env, parent: Path, kids: seq<Node>, k: nat): seq<Info>
    decreases kids, 0
  {
    if kids == [] then []
    else MeaningOfNode(env, parent + [k], kids[0]) + MeaningOfKids(env, parent, kids[1..], k + 1)
  }

  // ------------------------------------------------- reading canonical nodes

  function Resolve(scope: Scope, prefix: string): string {
    if prefix == "xml" then XML_NAMESPACE else Lookup(scope, prefix)
  }

  function AttrNs(scope: Scope, prefix: string): string {
    if prefix == "" then "" else Resolve(scope, prefix)
  }

  function UnderstandAttrs(attrs: seq<CAttr>, scope: Scope): set<IAttr> {
    if attrs == [] then {}
    else {IAttr(AttrNs(scope, QnamePrefix(attrs[0].qname)), LocalName(attrs[0].qname), attrs[0].value)}
         + UnderstandAttrs(attrs[1..], scope)
  }

  /** The local part of a qualified name. */
  function LocalName(qname: string): string {
    if ':' in qname then AfterColon(qname) else qname
  }

  function AfterColon(qname: string): string {
    if qname == [] then "" else if qname[0] == ':' then qname[1..] else AfterColon(qname[1..])
  }

  function Understand(c: Canon, outer: Scope): Info
    decreases c, 1
  {
    match c
    case CElement(qname, decls, attrs, children) =>
      var scope := Extend(decls, outer);
      IElement(Resolve(scope, QnamePrefix(qname)), LocalName(qname), UnderstandAttrs(attrs, scope),
               UnderstandAll(children, scope))
    case CText(text) => IText(text)
    case CComment(text) => IComment(text)
    case CPI(target, value) => IPI(target, value)
  }

  function UnderstandAll(cs: seq<Canon>, outer: Scope): seq<Info>
    decreases cs, 0
  {
    if cs == [] then [] else [Understand(cs[0], outer)] + UnderstandAll(cs[1..], outer)
  }

  // ------------------------------------------------- namespace well-formedness

  predicate Bound(scope: Scope, prefix: string) {
    prefix == "" || prefix == "xml" || Declares(scope, prefix)
  }

  predicate NamedAttr(a: Attr, scope: Scope) {
    && IsName(a.qname) && !IsDeclName(a.qname)
    && Bound(scope, QnamePrefix(a.qname))
    && a.ns == AttrNs(scope, QnamePrefix(a.qname)) && a.local == LocalName(a.qname)
  }

  predicate LegalDecls(decls: seq<Decl>) {
    forall d :: d in decls ==> LegalDecl(d)
  }

  /** Names are XML names whose prefixes are bound, resolved as the parser resolves them, and every
      declaration is legal. */
  predicate WellNamed(node: Node, outer: Scope)
    decreases node, 0
  {
    match node
    case Element(qname, ns, local, decls, attrs, children, _, _) =>
      var scope := Extend(decls, outer);
      && ProperScope(decls) && LegalDecls(decls)
      && IsName(qname) && Bound(scope, QnamePrefix(qname))
      && ns == Resolve(scope, QnamePrefix(qname)) && local == LocalName(qname)
      && (forall a :: a in attrs ==> NamedAttr(a, scope))
      && WellNamedAll(children, scope)
    case Text(_, _) => true
    case Comment(text, _) => !Contains(text, "-->")
    case PI(target, value, _) => IsName(target) && !Contains(value, "?>")
    case Root(_, _, _) => false
  }

  predicate WellNamedAll(kids: seq<Node>, outer: Scope)
    decreases kids, 1
  {
    kids == [] || (WellNamed(kids[0], outer) && WellNamedAll(kids[1..], outer))
  }

  /** An attribute in the XML namespace is spelled with the reserved prefix. */
  predicate XmlNamed(inherited: seq<Attr>) {
    forall a :: a in inherited ==> a.ns == XML_NAMESPACE && QnamePrefix(a.qname) == "xml"
                                   && a.local == LocalName(a.qname) && LegalAttr(CAttr(a.qname, a.value))
  }

  // --------------------------------------------------------------- attributes

  lemma {:induction false} AttrInfoMembers(attrs: seq<Attr>)
    ensures forall i :: i in AttrInfo(attrs) <==> exists a :: a in attrs && i == IAttr(a.ns, a.local, a.value)
  {
    if attrs != [] {
      AttrInfoMembers(attrs[1..]);
      assert attrs == [attrs[0]] + attrs[1..];
    }
  }

  lemma {:induction false} InsertAttrMembers(sorted: seq<Attr>, a: Attr)
    ensures forall x :: x in InsertAttr(sorted, a) <==> x == a || x in sorted
  {
    if sorted != [] && !AttrLess(a, sorted[0]) {
      InsertAttrMembers(sorted[1..], a);
      assert sorted == [sorted[0]] + sorted[1..];
    }
  }

  lemma {:induction false} SortAttrsMembers(attrs: seq<Attr>)
    ensures forall x :: x in SortAttrs(attrs) <==> x in attrs
  {
    if attrs != [] {
      SortAttrsMembers(attrs[..|attrs| - 1]);
      InsertAttrMembers(SortAttrs(attrs[..|attrs| - 1]), attrs[|attrs| - 1]);
      assert attrs == attrs[..|attrs| - 1] + [attrs[|attrs| - 1]];
    }
  }

  lemma SortKeepsInfo(attrs: seq<Attr>)
    ensures AttrInfo(SortAttrs(attrs)) == AttrInfo(attrs)
  {
    AttrInfoMembers(attrs);
    AttrInfoMembers(SortAttrs(attrs));
    SortAttrsMembers(attrs);
  }

  lemma {:induction false} InheritMembers(attrs: seq<Attr>, inherited: seq<Attr>)
    ensures forall a :: a in Inherit(attrs, inherited)
              ==> a in attrs || exists b :: b in inherited && a == b.(ns := XML_NAMESPACE)
    decreases |inherited|
  {
    if inherited != [] {
      var next := if exists a :: a in attrs && a.ns == XML_NAMESPACE && a.local == inherited[0].local
                  then attrs else attrs + [inherited[0].(ns := XML_NAMESPACE)];
      InheritMembers(next, inherited[1..]);
      assert inherited == [inherited[0]] + inherited[1..];
    }
  }

  /** Names resolve alike in two scopes that agree on every prefix in use. */
  lemma {:induction false} AttrsUnderstood(attrs: seq<Attr>, scope: Scope)
    requires forall a :: a in attrs ==>
               a.ns == AttrNs(scope, QnamePrefix(a.qname)) && a.local == LocalName(a.qname)
    ensures UnderstandAttrs(CAttrs(attrs), scope) == AttrInfo(attrs)
  {
    if attrs != [] {
      AttrsUnderstood(attrs[1..], scope);
      assert CAttrs(attrs)[1..] == CAttrs(attrs[1..]);
    }
  }

  // ------------------------------------------------------------ the theorem

  /** What is true of the traversal at every node it reaches. */
  ghost predicate Sound(env: Env, outer: Scope, state: NsStack, seen: Scope) {
    && ProperScope(outer) && Distinct(seen) && XmlNamed(env.inherited)
    && forall p :: Lookup(seen, p) == Rendered(state, p)
  }

  lemma SoundBelow(env: Env, path: Path, node: Node, outer: Scope, state: NsStack, seen: Scope)
    requires node.Element? && WellNamed(node, outer) && Sound(env, outer, state, seen)
    ensures var scope := Extend(node.decls, outer);
            var axis := NamespaceAxis(env, node, scope, state);
            && Sound(env, scope, state + axis, Extend(axis, seen))
            && forall p :: TakesPart(env, node, scope, p) ==> Lookup(Extend(axis, seen), p) == Lookup(scope, p)
  {
    var scope := Extend(node.decls, outer);
    var axis := NamespaceAxis(env, node, scope, state);
    ExtendLookup(node.decls, outer, "");
    UndeclaredExact(node.decls, outer);
    AxisExact(env, node, scope, state);
    AscendingIsDistinct(axis);
    ExtendLookup(axis, seen, "");
    forall p
      ensures Lookup(Extend(axis, seen), p) == Rendered(state + axis, p)
      ensures TakesPart(env, node, scope, p) ==> Rendered(state + axis, p) == Lookup(scope, p)
    {
      ExtendLookup(axis, seen, p);
      RenderedAfter(state, axis, p);
      StackFaithful(env, node, scope, state, p);
    }
  }

  lemma AxisAttrsNamed(env: Env, path: Path, node: Node, outer: Scope, state: NsStack, seen: Scope)
    requires node.Element? && WellNamed(node, outer) && Sound(env, outer, state, seen)
    ensures var scope := Extend(node.decls, outer);
            var inner := Extend(NamespaceAxis(env, node, scope, state), seen);
            UnderstandAttrs(CAttrs(AttributeAxis(env, path, node)), inner) == AttrInfo(AttrsInSet(env, path, node))
  {
    var scope := Extend(node.decls, outer);
    var inner := Extend(NamespaceAxis(env, node, scope, state), seen);
    SoundBelow(env, path, node, outer, state, seen);
    var attrs := AttrsInSet(env, path, node);
    SortAttrsMembers(attrs);
    SortKeepsInfo(attrs);
    InheritMembers(node.attrs, env.inherited);
    forall a | a in SortAttrs(attrs)
      ensures a.ns == AttrNs(inner, QnamePrefix(a.qname)) && a.local == LocalName(a.qname)
    {
      if a in node.attrs {
        var p := QnamePrefix(a.qname);
        assert NamedAttr(a, scope);
        if p != "" && p != "xml" { assert TakesPart(env, node, scope, p); }
      }
    }
    AttrsUnderstood(SortAttrs(attrs), inner);
  }

  /** Canonicalization preserves meaning, at one element of the traversal. */
  lemma {:induction false} ElementUnderstood(env: Env, path: Path, node: Node, outer: Scope, state: NsStack, seen: Scope)
    requires node.Element? && WellNamed(node, outer) && Sound(env, outer, state, seen)
    ensures Understand(CanonElement(env, path, node, outer, state), seen) == Meaning(env, path, node)
    decreases node, 1
  {
    var scope := Extend(node.decls, outer);
    var axis := NamespaceAxis(env, node, scope, state);
    var inner := Extend(axis, seen);
    SoundBelow(env, path, node, outer, state, seen);
    AxisAttrsNamed(env, path, node, outer, state, seen);
    var p := QnamePrefix(node.qname);
    if p != "xml" { assert TakesPart(env, node, scope, p); }
    KidsUnderstood(env, path, node.children, 0, scope, state + axis, inner);
  }

  lemma {:induction false} KidsUnderstood(env: Env, parent: Path, kids: seq<Node>, k: nat, outer: Scope,
                                          state: NsStack, seen: Scope)
    requires WellNamedAll(kids, outer) && Sound(env, outer, state, seen)
    ensures UnderstandAll(CanonKids(env, parent, kids, k, outer, state), seen) == MeaningOfKids(env, parent, kids, k)
    decreases kids, 0
  {
    if kids != [] {
      KidsUnderstood(env, parent, kids[1..], k + 1, outer, state, seen);
      if kids[0].Element? {
        ElementUnderstood(env, parent + [k], kids[0], outer, state, seen);
      }
      var first := CanonNode(env, parent + [k], kids[0], outer, state);
      var rest := CanonKids(env, parent, kids[1..], k + 1, outer, state);
      UnderstandConcat(first, rest, seen);
    }
  }

  lemma {:induction false} UnderstandConcat(a: seq<Canon>, b: seq<Canon>, outer: Scope)
    ensures UnderstandAll(a + b, outer) == UnderstandAll(a, outer) + UnderstandAll(b, outer)
  {
    if a == [] {
      assert a + b == b;
    } else {
      assert (a + b)[1..] == a[1..] + b;
      UnderstandConcat(a[1..], b, outer);
    }
  }
}
