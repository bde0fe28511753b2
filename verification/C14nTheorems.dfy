/** What canonical octets guarantee: they determine the meaning, and nothing else decides them. */
module C14nTheorems {
  import opened Strings
  import opened XmlTree
  import opened C14n
  import opened C14nAxes
  import opened C14nReader
  import opened C14nMeaning

  // --------------------------------------------------- merging adjacent text

  function Prepend(c: Canon, rest: seq<Canon>): seq<Canon> {
    if !c.CText? then [c] + rest
    else if c.text == "" then rest
    else if rest != [] && rest[0].CText? then [CText(c.text + rest[0].text)] + rest[1..]
    else [c] + rest
  }

  function Merge(c: Canon): Canon
    decreases c, 1
  {
    if c.CElement? then c.(children := MergeAll(c.children)) else c
  }

  function MergeAll(cs: seq<Canon>): seq<Canon>
    decreases cs, 0
  {
    if cs == [] then [] else Prepend(Merge(cs[0]), MergeAll(cs[1..]))
  }

  function PrependInfo(i: Info, rest: seq<Info>): seq<Info> {
    if !i.IText? then [i] + rest
    else if i.text == "" then rest
    else if rest != [] && rest[0].IText? then [IText(i.text + rest[0].text)] + rest[1..]
    else [i] + rest
  }

  function MergeInfo(i: Info): Info
    decreases i, 1
  {
    if i.IElement? then i.(children := MergeInfoAll(i.children)) else i
  }

  function MergeInfoAll(infos: seq<Info>): seq<Info>
    decreases infos, 0
  {
    if infos == [] then [] else PrependInfo(MergeInfo(infos[0]), MergeInfoAll(infos[1..]))
  }

  lemma {:induction false} EscapeConcat(a: string, b: string)
    ensures EscapeText(a + b) == EscapeText(a) + EscapeText(b)
  {
    if a == "" {
      assert a + b == b;
    } else {
      assert (a + b)[1..] == a[1..] + b;
      EscapeConcat(a[1..], b);
      Regroup(EscapeTextChar(a[0]), EscapeText(a[1..]), EscapeText(b));
    }
  }

  lemma PrependPrints(c: Canon, rest: seq<Canon>)
    ensures PrintAll(Prepend(c, rest)) == Print(c) + PrintAll(rest)
  {
    hide PrintStart, PrintEnd, PrintMisc;
    if !c.CText? || (c.text != "" && !(rest != [] && rest[0].CText?)) {
      assert ([c] + rest)[1..] == rest;
    } else if c.text != "" {
      var joined := CText(c.text + rest[0].text);
      assert ([joined] + rest[1..])[1..] == rest[1..];
      EscapeConcat(c.text, rest[0].text);
      Regroup(Print(c), Print(rest[0]), PrintAll(rest[1..]));
    }
  }

  /** Merging changes no octet. */
  lemma {:induction false} MergePrints(c: Canon)
    ensures Print(Merge(c)) == Print(c)
    decreases c, 1
  {
    if c.CElement? { MergeAllPrints(c.children); }
  }

  lemma {:induction false} MergeAllPrints(cs: seq<Canon>)
    ensures PrintAll(MergeAll(cs)) == PrintAll(cs)
    decreases cs, 0
  {
    if cs != [] {
      MergePrints(cs[0]);
      MergeAllPrints(cs[1..]);
      PrependPrints(Merge(cs[0]), MergeAll(cs[1..]));
    }
  }

  lemma PrependUnderstood(c: Canon, rest: seq<Canon>, scope: Scope)
    ensures UnderstandAll(Prepend(c, rest), scope) == PrependInfo(Understand(c, scope), UnderstandAll(rest, scope))
  {
    if !c.CText? || (c.text != "" && !(rest != [] && rest[0].CText?)) {
      assert ([c] + rest)[1..] == rest;
    } else if c.text != "" {
      var joined := CText(c.text + rest[0].text);
      assert ([joined] + rest[1..])[1..] == rest[1..];
    }
  }

  lemma {:induction false} MergeUnderstood(c: Canon, scope: Scope)
    ensures Understand(Merge(c), scope) == MergeInfo(Understand(c, scope))
    decreases c, 1
  {
    if c.CElement? { MergeAllUnderstood(c.children, Extend(c.decls, scope)); }
  }

  lemma {:induction false} MergeAllUnderstood(cs: seq<Canon>, scope: Scope)
    ensures UnderstandAll(MergeAll(cs), scope) == MergeInfoAll(UnderstandAll(cs, scope))
    decreases cs, 0
  {
    if cs != [] {
      MergeUnderstood(cs[0], scope);
      MergeAllUnderstood(cs[1..], scope);
      PrependUnderstood(Merge(cs[0]), MergeAll(cs[1..]), scope);
    }
  }

  // ------------------------------------------------- rendered names are legal

  /** `Legal` without the rule about text. */
  predicate NamesLegal(c: Canon)
    decreases c, 0
  {
    match c
    case CElement(qname, decls, attrs, children) =>
      IsName(qname) && LegalDecls(decls) && (forall a :: a in attrs ==> LegalAttr(a)) && NamesLegalAll(children)
    case CText(text) => true
    case CComment(text) => !Contains(text, "-->")
    case CPI(target, value) => IsName(target) && !Contains(value, "?>")
  }

  predicate NamesLegalAll(cs: seq<Canon>)
    decreases cs, 1
  {
    cs == [] || (NamesLegal(cs[0]) && NamesLegalAll(cs[1..]))
  }

  lemma {:induction false} MergeIsLegal(c: Canon)
    requires NamesLegal(c)
    ensures c.CText? || Legal(Merge(c))
    decreases c, 1
  {
    if c.CElement? { MergeAllIsLegal(c.children); }
  }

  lemma {:induction false} MergeAllIsLegal(cs: seq<Canon>)
    requires NamesLegalAll(cs)
    ensures LegalAll(MergeAll(cs))
    decreases cs, 0
  {
    if cs != [] {
      MergeIsLegal(cs[0]);
      MergeAllIsLegal(cs[1..]);
      PrependIsLegal(Merge(cs[0]), MergeAll(cs[1..]));
    }
  }

  lemma PrependIsLegal(c: Canon, rest: seq<Canon>)
    requires LegalAll(rest) && (c.CText? || Legal(c))
    ensures LegalAll(Prepend(c, rest))
  {
    if !c.CText? || (c.text != "" && !(rest != [] && rest[0].CText?)) {
      assert ([c] + rest)[1..] == rest;
    } else if c.text != "" {
      var joined := CText(c.text + rest[0].text);
      assert ([joined] + rest[1..])[1..] == rest[1..];
      if |rest| > 1 { assert rest[1..][0] == rest[1]; }
    }
  }

  lemma {:induction false} RenderedLegal(state: NsStack, prefix: string)
    requires LegalDecls(state)
    ensures Rendered(state, prefix) == "" || LegalDecl(Decl(prefix, ""))
  {
    if state != [] {
      var last := state[|state| - 1];
      assert last in state;
      RenderedLegal(state[..|state| - 1], prefix);
    }
  }

  /** A listed prefix that is not a name is never declared anywhere, so it is never rendered. */
  lemma AxisLegal(env: Env, node: Node, scope: Scope, state: NsStack)
    requires node.Element? && ProperScope(scope) && LegalDecls(scope) && LegalDecls(state)
    ensures LegalDecls(NamespaceAxis(env, node, scope, state))
  {
    AxisExact(env, node, scope, state);
    forall d | d in NamespaceAxis(env, node, scope, state)
      ensures LegalDecl(d)
    {
      LookupMisses(scope, d.prefix);
      RenderedLegal(state, d.prefix);
      if Declares(scope, d.prefix) {
        var e :| e in scope && e.prefix == d.prefix;
        assert LegalDecl(e);
      }
    }
  }

  lemma {:induction false} CAttrsMembers(attrs: seq<Attr>)
    ensures forall c :: c in CAttrs(attrs) ==> exists a :: a in attrs && c == CAttr(a.qname, a.value)
  {
    if attrs != [] {
      CAttrsMembers(attrs[1..]);
      assert attrs == [attrs[0]] + attrs[1..];
    }
  }

  lemma AxisAttrsLegal(env: Env, path: Path, node: Node, outer: Scope)
    requires node.Element? && WellNamed(node, outer) && XmlNamed(env.inherited)
    ensures forall c :: c in CAttrs(AttributeAxis(env, path, node)) ==> LegalAttr(c)
  {
    var scope := Extend(node.decls, outer);
    var attrs := AttrsInSet(env, path, node);
    CAttrsMembers(SortAttrs(attrs));
    SortAttrsMembers(attrs);
    InheritMembers(node.attrs, env.inherited);
    forall c | c in CAttrs(SortAttrs(attrs))
      ensures LegalAttr(c)
    {
      var a :| a in SortAttrs(attrs) && c == CAttr(a.qname, a.value);
      if a in node.attrs { assert NamedAttr(a, scope); }
    }
  }

  lemma {:induction false} ElementLegal(env: Env, path: Path, node: Node, outer: Scope, state: NsStack)
    requires node.Element? && WellNamed(node, outer) && ProperScope(outer) && XmlNamed(env.inherited)
    requires LegalDecls(outer) && LegalDecls(state)
    ensures NamesLegal(CanonElement(env, path, node, outer, state))
    decreases node, 1
  {
    var scope := Extend(node.decls, outer);
    var axis := NamespaceAxis(env, node, scope, state);
    ExtendLookup(node.decls, outer, "");
    UndeclaredExact(node.decls, outer);
    AxisLegal(env, node, scope, state);
    AxisAttrsLegal(env, path, node, outer);
    KidsLegal(env, path, node.children, 0, scope, state + axis);
  }

  lemma {:induction false} KidsLegal(env: Env, parent: Path, kids: seq<Node>, k: nat, outer: Scope, state: NsStack)
    requires WellNamedAll(kids, outer) && ProperScope(outer) && XmlNamed(env.inherited)
    requires LegalDecls(outer) && LegalDecls(state)
    ensures NamesLegalAll(CanonKids(env, parent, kids, k, outer, state))
    decreases kids, 0
  {
    if kids != [] {
      KidsLegal(env, parent, kids[1..], k + 1, outer, state);
      if kids[0].Element? { ElementLegal(env, parent + [k], kids[0], outer, state); }
      var first := CanonNode(env, parent + [k], kids[0], outer, state);
      var rest := CanonKids(env, parent, kids[1..], k + 1, outer, state);
      if first == [] {
        assert first + rest == rest;
      } else {
        assert first == [first[0]];
        assert (first + rest)[1..] == rest;
      }
    }
  }

  // ------------------------------------------------------------ the documents

  /** A parsed document: one tree of well-named nodes. */
  predicate WellFormed(doc: Node) {
    doc.Root? && WellNamedAll(doc.children, BASE_SCOPE)
  }

  lemma {:induction false} PickNamed(kids: seq<Node>, k: nat, outer: Scope)
    requires WellNamedAll(kids, outer) && k < |kids|
    ensures WellNamed(kids[k], outer)
  {
    if k > 0 { PickNamed(kids[1..], k - 1, outer); }
  }

  lemma {:induction false} XmlAttrsExact(attrs: seq<Attr>)
    ensures forall a :: a in XmlAttrs(attrs) <==> a in attrs && a.ns == XML_NAMESPACE
  {
    if attrs != [] {
      XmlAttrsExact(attrs[1..]);
      assert attrs == [attrs[0]] + attrs[1..];
    }
  }

  lemma XmlAttrsNamed(attrs: seq<Attr>, scope: Scope)
    requires ProperScope(scope) && forall a :: a in attrs ==> NamedAttr(a, scope)
    ensures XmlNamed(XmlAttrs(attrs))
  {
    XmlAttrsExact(attrs);
    forall a | a in XmlAttrs(attrs)
      ensures QnamePrefix(a.qname) == "xml"
    {
      LookupMisses(scope, QnamePrefix(a.qname));
    }
  }

  /** What the ancestors of a node leave it with. */
  lemma {:induction false} ContextBelow(node: Node, p: Path, outer: Scope)
    requires Valid(node, p) && WellNamed(node, outer) && ProperScope(outer) && LegalDecls(outer)
    ensures ProperScope(ScopeAbove(node, p, outer)) && LegalDecls(ScopeAbove(node, p, outer))
    ensures WellNamed(At(node, p), ScopeAbove(node, p, outer))
    ensures XmlNamed(XmlAbove(node, p))
  {
    if p != [] {
      ExtendLookup(node.decls, outer, "");
      UndeclaredExact(node.decls, outer);
      var scope := Extend(node.decls, outer);
      PickNamed(node.children, p[0], scope);
      ContextBelow(node.children[p[0]], p[1..], scope);
      XmlAttrsNamed(node.attrs, scope);
    }
  }

  lemma ContextAt(doc: Node, p: Path)
    requires WellFormed(doc) && Valid(doc, p) && At(doc, p).Element?
    ensures ProperScope(ScopeAbove(doc, p, BASE_SCOPE)) && LegalDecls(ScopeAbove(doc, p, BASE_SCOPE))
    ensures WellNamed(At(doc, p), ScopeAbove(doc, p, BASE_SCOPE))
    ensures XmlNamed(XmlAbove(doc, p))
  {
    assert Undeclared([], BASE_SCOPE) == BASE_SCOPE;
    assert Extend(DeclsOf(doc), BASE_SCOPE) == BASE_SCOPE;
    BaseLegal();
    PickNamed(doc.children, p[0], BASE_SCOPE);
    ContextBelow(doc.children[p[0]], p[1..], BASE_SCOPE);
  }

  lemma BaseLegal()
    ensures ProperScope(BASE_SCOPE) && LegalDecls(BASE_SCOPE)
  {
    forall c | c in "xml"
      ensures NameChar(c)
    {
      assert c == 'x' || c == 'm' || c == 'l';
    }
  }

  // ------------------------------------------------------------ the top level

  /** The children of the document node as canonical nodes, each newline a text. */
  function TopForest(env: Env, kids: seq<Node>, k: nat, seen: bool): seq<Canon> {
    if kids == [] then []
    else if [k] in env.nodes.excluded then TopForest(env, kids[1..], k + 1, seen)
    else if kids[0].Element? then [CanonElement(env, [k], kids[0], BASE_SCOPE, [])] + TopForest(env, kids[1..], k + 1, true)
    else if kids[0].PI? || (kids[0].Comment? && ShowsComments(env)) then
      var misc := CanonNode(env, [k], kids[0], BASE_SCOPE, [])[0];
      (if seen then [CText("\n"), misc] else [misc, CText("\n")]) + TopForest(env, kids[1..], k + 1, seen)
    else TopForest(env, kids[1..], k + 1, seen)
  }

  lemma NewlinePrints()
    ensures Print(CText("\n")) == "\n"
  {
    assert EscapeText("\n") == EscapeTextChar('\n') + EscapeText("\n"[1..]);
  }

  lemma TwoPrint(a: Canon, b: Canon, rest: seq<Canon>)
    ensures PrintAll([a, b] + rest) == Print(a) + Print(b) + PrintAll(rest)
  {
    hide Print;
    assert ([a, b] + rest)[1..] == [b] + rest && ([b] + rest)[1..] == rest;
    Regroup(Print(a), Print(b), PrintAll(rest));
  }

  lemma OnePrint(a: Canon, rest: seq<Canon>)
    ensures PrintAll([a] + rest) == Print(a) + PrintAll(rest)
  {
    hide Print;
    assert ([a] + rest)[1..] == rest;
  }

  lemma {:induction false} TopPrints(env: Env, kids: seq<Node>, k: nat, seen: bool)
    ensures PrintAll(TopForest(env, kids, k, seen)) == PrintTopLevel(env, kids, k, seen)
  {
    hide CanonElement, Print;
    if kids != [] {
      TopPrints(env, kids[1..], k + 1, seen);
      TopPrints(env, kids[1..], k + 1, true);
      if [k] in env.nodes.excluded {
      } else if kids[0].Element? {
        OnePrint(CanonElement(env, [k], kids[0], BASE_SCOPE, []), TopForest(env, kids[1..], k + 1, true));
      } else if kids[0].PI? || (kids[0].Comment? && ShowsComments(env)) {
        var misc, rest := CanonNode(env, [k], kids[0], BASE_SCOPE, [])[0], TopForest(env, kids[1..], k + 1, seen);
        NewlinePrints();
        MiscPrints(misc);
        TwoPrint(misc, CText("\n"), rest);
        TwoPrint(CText("\n"), misc, rest);
      }
    }
  }

  lemma MiscPrints(misc: Canon)
    requires misc.CComment? || misc.CPI?
    ensures Print(misc) == PrintMisc(misc)
  {}

  // --------------------------------------------------------- the meaning of octets

  function TopMeaning(env: Env, kids: seq<Node>, k: nat): seq<Info> {
    if kids == [] then []
    else (if kids[0].Text? then [] else MeaningOfNode(env, [k], kids[0])) + TopMeaning(env, kids[1..], k + 1)
  }

  function MergeEach(infos: seq<Info>): seq<Info> {
    if infos == [] then [] else [MergeInfo(infos[0])] + MergeEach(infos[1..])
  }

  /** The meaning of a node set: the information set of the apex element, or of everything at the top level of the
      document, adjacent text merged. */
  function MeaningOf(doc: Node, nodes: NodeSet, algorithm: Algorithm, prefixes: seq<string>): seq<Info>
    requires Valid(doc, nodes.apex) && (At(doc, nodes.apex).Root? || At(doc, nodes.apex).Element?)
  {
    var env, apex := EnvOf(doc, nodes, algorithm, prefixes), At(doc, nodes.apex);
    MergeEach(if apex.Root? then TopMeaning(env, apex.children, 0) else [Meaning(env, nodes.apex, apex)])
  }

  /** Everything but text: between top-level nodes text is only layout. */
  function Unspaced(infos: seq<Info>): seq<Info> {
    if infos == [] then [] else (if infos[0].IText? then [] else [infos[0]]) + Unspaced(infos[1..])
  }

  lemma UnspacedPrepend(i: Info, rest: seq<Info>)
    ensures Unspaced(PrependInfo(i, rest)) == (if i.IText? then [] else [i]) + Unspaced(rest)
  {
    if !i.IText? || (i.text != "" && !(rest != [] && rest[0].IText?)) {
      assert ([i] + rest)[1..] == rest;
    } else if i.text != "" {
      var joined := IText(i.text + rest[0].text);
      assert ([joined] + rest[1..])[1..] == rest[1..];
    }
  }

  lemma {:induction false} UnspacedMerge(infos: seq<Info>)
    ensures Unspaced(MergeInfoAll(infos)) == MergeEach(Unspaced(infos))
  {
    if infos != [] {
      UnspacedMerge(infos[1..]);
      UnspacedPrepend(MergeInfo(infos[0]), MergeInfoAll(infos[1..]));
      var rest := Unspaced(infos[1..]);
      assert MergeInfo(infos[0]).IText? == infos[0].IText?;
      assert ([infos[0]] + rest)[1..] == rest && [] + rest == rest && [] + MergeEach(rest) == MergeEach(rest);
    }
  }

  /** Reading back the octets of any forest with legal names. */
  lemma ReaderUnderstands(cs: seq<Canon>)
    requires NamesLegalAll(cs)
    ensures Unspaced(UnderstandAll(ReadNodes(PrintAll(cs)).0, [])) == MergeEach(Unspaced(UnderstandAll(cs, [])))
  {
    MergeAllPrints(cs);
    MergeAllUnderstood(cs, []);
    MergeAllIsLegal(cs);
    assert PrintAll(MergeAll(cs)) + "" == PrintAll(cs);
    ReadsBack(MergeAll(cs), "");
    UnspacedMerge(UnderstandAll(cs, []));
  }

  lemma TopElement(env: Env, kid: Node, k: nat)
    requires kid.Element? && WellNamed(kid, BASE_SCOPE) && XmlNamed(env.inherited)
    ensures Understand(CanonElement(env, [k], kid, BASE_SCOPE, []), []) == Meaning(env, [k], kid)
    ensures NamesLegal(CanonElement(env, [k], kid, BASE_SCOPE, [])) && CanonElement(env, [k], kid, BASE_SCOPE, []).CElement?
  {
    hide WellNamed, NamespaceAxis, AttributeAxis, CanonKids, Meaning, Understand, NamesLegal;
    BaseLegal();
    ElementUnderstood(env, [k], kid, BASE_SCOPE, [], []);
    ElementLegal(env, [k], kid, BASE_SCOPE, []);
  }

  lemma TopMisc(env: Env, kid: Node, k: nat)
    requires [k] !in env.nodes.excluded && (kid.PI? || (kid.Comment? && ShowsComments(env))) && WellNamed(kid, BASE_SCOPE)
    ensures |CanonNode(env, [k], kid, BASE_SCOPE, [])| == 1
    ensures var misc := CanonNode(env, [k], kid, BASE_SCOPE, [])[0];
            (misc.CComment? || misc.CPI?) && NamesLegal(misc) && MeaningOfNode(env, [k], kid) == [Understand(misc, [])]
  {}

  lemma ConsUnderstood(c: Canon, rest: seq<Canon>)
    ensures UnderstandAll([c] + rest, []) == [Understand(c, [])] + UnderstandAll(rest, [])
    ensures NamesLegalAll([c] + rest) <==> NamesLegal(c) && NamesLegalAll(rest)
  {
    hide Understand, NamesLegal;
    assert ([c] + rest)[1..] == rest;
  }

  lemma ConsUnspaced(i: Info, rest: seq<Info>)
    ensures Unspaced([i] + rest) == (if i.IText? then [] else [i]) + Unspaced(rest)
  {
    assert ([i] + rest)[1..] == rest;
  }

  lemma ElementFirst(c: Canon, rest: seq<Canon>)
    requires c.CElement?
    ensures Unspaced(UnderstandAll([c] + rest, [])) == [Understand(c, [])] + Unspaced(UnderstandAll(rest, []))
    ensures NamesLegalAll([c] + rest) <==> NamesLegal(c) && NamesLegalAll(rest)
  {
    ConsUnderstood(c, rest);
    ConsUnspaced(Understand(c, []), UnderstandAll(rest, []));
  }

  /** A newline on either side of an instruction or a comment. */
  lemma MiscFirst(misc: Canon, rest: seq<Canon>, before: bool)
    requires misc.CComment? || misc.CPI?
    ensures var cs := (if before then [CText("\n"), misc] else [misc, CText("\n")]) + rest;
            && Unspaced(UnderstandAll(cs, [])) == [Understand(misc, [])] + Unspaced(UnderstandAll(rest, []))
            && (NamesLegalAll(cs) <==> NamesLegal(misc) && NamesLegalAll(rest))
  {
    var newline := CText("\n");
    var first, second := if before then newline else misc, if before then misc else newline;
    assert (if before then [newline, misc] else [misc, newline]) + rest == [first] + ([second] + rest);
    ConsUnderstood(second, rest);
    ConsUnderstood(first, [second] + rest);
    ConsUnspaced(Understand(second, []), UnderstandAll(rest, []));
    ConsUnspaced(Understand(first, []), [Understand(second, [])] + UnderstandAll(rest, []));
  }

  lemma {:induction false} TopUnderstood(env: Env, kids: seq<Node>, k: nat, seen: bool)
    requires WellNamedAll(kids, BASE_SCOPE) && XmlNamed(env.inherited)
    ensures Unspaced(UnderstandAll(TopForest(env, kids, k, seen), [])) == TopMeaning(env, kids, k)
    ensures NamesLegalAll(TopForest(env, kids, k, seen))
    decreases kids
  {
    hide CanonElement, Meaning, WellNamed, Understand, UnderstandAll, NamesLegal, XmlNamed, ShowsComments, CanonNode;
    if kids == [] {
      assert UnderstandAll([], []) == [] by { NothingUnderstood(); }
    } else {
      TopUnderstood(env, kids[1..], k + 1, seen);
      TopUnderstood(env, kids[1..], k + 1, true);
      if [k] in env.nodes.excluded {
      } else if kids[0].Element? {
        TopElement(env, kids[0], k);
        ElementFirst(CanonElement(env, [k], kids[0], BASE_SCOPE, []), TopForest(env, kids[1..], k + 1, true));
      } else if kids[0].PI? || (kids[0].Comment? && ShowsComments(env)) {
        TopMisc(env, kids[0], k);
        MiscFirst(CanonNode(env, [k], kids[0], BASE_SCOPE, [])[0], TopForest(env, kids[1..], k + 1, seen), seen);
      }
    }
  }

  lemma NothingUnderstood()
    ensures UnderstandAll([], []) == []
  {}

  /** A reader that sees only the octets of a node set recovers its meaning. */
  lemma OctetsCarryMeaning(doc: Node, nodes: NodeSet, algorithm: Algorithm, prefixes: seq<string>)
    requires WellFormed(doc) && Valid(doc, nodes.apex) && (At(doc, nodes.apex).Root? || At(doc, nodes.apex).Element?)
    ensures Unspaced(UnderstandAll(ReadNodes(Octets(doc, nodes, algorithm, prefixes)).0, []))
         == MeaningOf(doc, nodes, algorithm, prefixes)
  {
    hide WellNamed, CanonKids, NamespaceAxis, AttributeAxis, Meaning, Understand, NamesLegal, ReadNodes;
    var env, apex := EnvOf(doc, nodes, algorithm, prefixes), At(doc, nodes.apex);
    if apex.Root? {
      RootAlone(doc, nodes.apex);
      TopPrints(env, apex.children, 0, false);
      TopUnderstood(env, apex.children, 0, false);
      ReaderUnderstands(TopForest(env, apex.children, 0, false));
    } else {
      var scope := ScopeAbove(doc, nodes.apex, BASE_SCOPE);
      ContextAt(doc, nodes.apex);
      ElementUnderstood(env, nodes.apex, apex, scope, [], []);
      ElementLegal(env, nodes.apex, apex, scope, []);
      OneElement(CanonElement(env, nodes.apex, apex, scope, []));
    }
  }

  lemma OneElement(c: Canon)
    requires c.CElement? && NamesLegal(c)
    ensures Unspaced(UnderstandAll(ReadNodes(Print(c)).0, [])) == MergeEach([Understand(c, [])])
  {
    hide Print, Understand, NamesLegal, ReadNodes;
    OnePrint(c, []);
    ElementFirst(c, []);
    NothingUnderstood();
    assert [c] + [] == [c] && PrintAll([]) == [] && Print(c) + [] == Print(c);
    assert [Understand(c, [])] + [] == [Understand(c, [])];
    ReaderUnderstands([c]);
  }

  /** Only the document node is a root, and nothing is inherited there. */
  lemma RootAlone(doc: Node, p: Path)
    requires WellFormed(doc) && Valid(doc, p) && At(doc, p).Root?
    ensures p == [] && XmlNamed(XmlAbove(doc, p))
  {
    if p != [] {
      PickNamed(doc.children, p[0], BASE_SCOPE);
      NamedBelow(doc.children[p[0]], p[1..], BASE_SCOPE);
    }
  }

  lemma {:induction false} NamedBelow(node: Node, p: Path, outer: Scope)
    requires WellNamed(node, outer) && Valid(node, p)
    ensures !At(node, p).Root?
    decreases |p|
  {
    if p != [] {
      PickNamed(node.children, p[0], Extend(node.decls, outer));
      NamedBelow(node.children[p[0]], p[1..], Extend(node.decls, outer));
    }
  }

  /** Equal octets, equal meaning: whatever the documents, the node sets and the algorithms. */
  lemma EqualOctetsEqualMeaning(doc: Node, nodes: NodeSet, algorithm: Algorithm, prefixes: seq<string>,
                                doc': Node, nodes': NodeSet, algorithm': Algorithm, prefixes': seq<string>)
    requires WellFormed(doc) && Valid(doc, nodes.apex) && (At(doc, nodes.apex).Root? || At(doc, nodes.apex).Element?)
    requires WellFormed(doc') && Valid(doc', nodes'.apex) && (At(doc', nodes'.apex).Root? || At(doc', nodes'.apex).Element?)
    requires Octets(doc, nodes, algorithm, prefixes) == Octets(doc', nodes', algorithm', prefixes')
    ensures MeaningOf(doc, nodes, algorithm, prefixes) == MeaningOf(doc', nodes', algorithm', prefixes')
  {
    OctetsCarryMeaning(doc, nodes, algorithm, prefixes);
    OctetsCarryMeaning(doc', nodes', algorithm', prefixes');
  }

  // ------------------------------------------------------- context, ignored

  /** A prefix some rendered element of the subtree visibly uses without the subtree having declared it. */
  predicate Free(excluded: seq<Path>, path: Path, node: Node, prefix: string)
    decreases node, 0
  {
    node.Element? && !Declares(node.decls, prefix)
    && (VisiblyUsed(node, prefix) || FreeInAny(excluded, path, node.children, 0, prefix))
  }

  predicate FreeInAny(excluded: seq<Path>, parent: Path, kids: seq<Node>, k: nat, prefix: string)
    decreases kids, 1
  {
    kids != []
    && ((parent + [k] !in excluded && Free(excluded, parent + [k], kids[0], prefix))
        || FreeInAny(excluded, parent, kids[1..], k + 1, prefix))
  }

  predicate Excludes(env: Env, path: Path, r: Path) {
    path + r in env.nodes.excluded
  }

  /** The same is left out below two placements of a subtree. */
  ghost predicate SameExclusions(env: Env, path: Path, env': Env, path': Path) {
    forall r :: Excludes(env, path, r) <==> Excludes(env', path', r)
  }

  lemma SameBelow(env: Env, path: Path, env': Env, path': Path, k: nat)
    requires SameExclusions(env, path, env', path')
    ensures SameExclusions(env, path + [k], env', path' + [k])
    ensures path + [k] in env.nodes.excluded <==> path' + [k] in env'.nodes.excluded
  {
    forall r
      ensures Excludes(env, path + [k], r) <==> Excludes(env', path' + [k], r)
    {
      assert path + [k] + r == path + ([k] + r) && path' + [k] + r == path' + ([k] + r);
      assert Excludes(env, path, [k] + r) <==> Excludes(env', path', [k] + r);
    }
    assert Excludes(env, path, [k]) <==> Excludes(env', path', [k]);
  }

  /** Two placements of a subtree under exclusive canonicalization that leave out the same nodes. */
  ghost predicate Placements(env: Env, path: Path, env': Env, path': Path) {
    && env.algorithm.Exclusive? && env.algorithm == env'.algorithm && env.prefixes == env'.prefixes
    && SameExclusions(env, path, env', path') && env.nodes.commentsExcluded == env'.nodes.commentsExcluded
  }

  /** Exclusive canonicalization does not see the context: two placements of a subtree that leave out the same nodes
      and agree on the prefixes free in what is left, and on the listed ones, render alike, whatever else their
      ancestors declare or carry. */
  lemma {:induction false} ExclusiveIgnoresContext(env: Env, path: Path, env': Env, path': Path, node: Node,
                                                   outer: Scope, outer': Scope, state: NsStack)
    requires node.Element? && Placements(env, path, env', path')
    requires ProperTree(node) && Distinct(outer) && Distinct(outer')
    requires forall p :: Free(env.nodes.excluded, path, node, p) || Listed(env.prefixes, p) ==> Lookup(outer, p) == Lookup(outer', p)
    ensures CanonElement(env, path, node, outer, state) == CanonElement(env', path', node, outer', state)
    decreases node, 1
  {
    hide SameExclusions;
    var scope, scope' := Extend(node.decls, outer), Extend(node.decls, outer');
    ExtendLookup(node.decls, outer, "");
    ExtendLookup(node.decls, outer', "");
    forall p
      ensures VisiblyUsed(node, p) || Listed(env.prefixes, p) || FreeInAny(env.nodes.excluded, path, node.children, 0, p)
              ==> Lookup(scope, p) == Lookup(scope', p)
    {
      ExtendLookup(node.decls, outer, p);
      ExtendLookup(node.decls, outer', p);
      if !Declares(node.decls, p) && (VisiblyUsed(node, p) || FreeInAny(env.nodes.excluded, path, node.children, 0, p)) {
        assert Free(env.nodes.excluded, path, node, p);
      }
    }
    SameVisibleDecls(env, env', node, scope, scope');
    KidsIgnoreContext(env, path, env', path', node.children, 0, scope, scope',
                      state + NamespaceAxis(env, node, scope, state));
  }

  /** Every element declares each prefix at most once. */
  predicate ProperTree(node: Node)
    decreases node, 0
  {
    node.Element? ==> Distinct(node.decls) && ProperForest(node.children)
  }

  predicate ProperForest(kids: seq<Node>)
    decreases kids, 1
  {
    kids == [] || (ProperTree(kids[0]) && ProperForest(kids[1..]))
  }

  lemma SameVisibleDecls(env: Env, env': Env, node: Node, scope: Scope, scope': Scope)
    requires node.Element? && env.algorithm.Exclusive? && env'.algorithm.Exclusive? && env.prefixes == env'.prefixes
    requires forall p :: VisiblyUsed(node, p) || Listed(env.prefixes, p) ==> Lookup(scope, p) == Lookup(scope', p)
    ensures Candidates(env, node, scope) == Candidates(env', node, scope')
  {
    var own := [QnamePrefix(node.qname)];
    forall x | x in Visible(env, node)
      ensures Lookup(scope, x) == Lookup(scope', x)
    {
      AttrPrefixesExact(node.attrs, own, x);
      ListedPrefixesExact(env.prefixes, AttrPrefixes(node.attrs, own), x);
    }
    VisibleDeclsAgree(Visible(env, node), scope, scope', []);
  }

  lemma {:induction false} VisibleDeclsAgree(names: seq<string>, scope: Scope, scope': Scope, m: seq<Decl>)
    requires forall x :: x in names ==> Lookup(scope, x) == Lookup(scope', x)
    ensures VisibleDecls(names, scope, m) == VisibleDecls(names, scope', m)
  {
    if names != [] {
      assert names[0] in names;
      VisibleDeclsAgree(names[1..], scope, scope',
                        if names[0] == "xml" then m else PutDecl(m, Decl(names[0], Lookup(scope, names[0]))));
    }
  }

  lemma {:induction false} KidsIgnoreContext(env: Env, path: Path, env': Env, path': Path, kids: seq<Node>, k: nat,
                                             outer: Scope, outer': Scope, state: NsStack)
    requires Placements(env, path, env', path')
    requires ProperForest(kids) && Distinct(outer) && Distinct(outer')
    requires forall p :: FreeInAny(env.nodes.excluded, path, kids, k, p) || Listed(env.prefixes, p) ==> Lookup(outer, p) == Lookup(outer', p)
    ensures CanonKids(env, path, kids, k, outer, state) == CanonKids(env', path', kids, k, outer', state)
    decreases kids, 0
  {
    hide SameExclusions;
    if kids != [] {
      SameBelow(env, path, env', path', k);
      KidsIgnoreContext(env, path, env', path', kids[1..], k + 1, outer, outer', state);
      if kids[0].Element? && path + [k] !in env.nodes.excluded {
        ExclusiveIgnoresContext(env, path + [k], env', path' + [k], kids[0], outer, outer', state);
      }
    }
  }

  // ------------------------------------------------------- exclusions, unread

  /** A subtree inside an exclusion is never read. */
  lemma {:induction false} ExcludedUnread(env: Env, path: Path, node: Node, r: Path, cut: Path, m: Node,
                                          outer: Scope, state: NsStack)
    requires node.Element? && Valid(node, r)
    requires cut != [] && cut <= r && path + cut in env.nodes.excluded
    ensures CanonElement(env, path, ReplaceAt(node, r, m), outer, state) == CanonElement(env, path, node, outer, state)
    decreases node, 1
  {
    var scope := Extend(node.decls, outer);
    var changed := ReplaceAt(node, r, m);
    assert changed == WithKids(node, node.children[r[0] := ReplaceAt(node.children[r[0]], r[1..], m)]);
    SameAxis(env, path, node, changed, scope, state);
    KidsUnread(env, path, node.children, 0, r, cut, m, scope, state + NamespaceAxis(env, node, scope, state));
  }

  lemma SameAxis(env: Env, path: Path, a: Node, b: Node, scope: Scope, state: NsStack)
    requires a.Element? && SameHead(a, b)
    ensures NamespaceAxis(env, a, scope, state) == NamespaceAxis(env, b, scope, state)
    ensures AttributeAxis(env, path, a) == AttributeAxis(env, path, b)
  {
    assert WithKids(a, []).decls == a.decls && WithKids(b, []).decls == b.decls;
    assert WithKids(a, []).attrs == a.attrs && WithKids(b, []).attrs == b.attrs;
    assert WithKids(a, []).qname == a.qname && WithKids(b, []).qname == b.qname;
  }

  lemma {:induction false} KidsUnread(env: Env, path: Path, kids: seq<Node>, k: nat, r: Path, cut: Path, m: Node,
                                      outer: Scope, state: NsStack)
    requires cut != [] && cut <= r && path + cut in env.nodes.excluded
    requires k <= r[0] < k + |kids| && Valid(kids[r[0] - k], r[1..])
    ensures CanonKids(env, path, kids[r[0] - k := ReplaceAt(kids[r[0] - k], r[1..], m)], k, outer, state)
         == CanonKids(env, path, kids, k, outer, state)
    decreases kids, 0
  {
    var i := r[0] - k;
    var now := kids[i := ReplaceAt(kids[i], r[1..], m)];
    if i > 0 {
      assert now[1..] == kids[1..][i - 1 := ReplaceAt(kids[i], r[1..], m)];
      KidsUnread(env, path, kids[1..], k + 1, r, cut, m, outer, state);
    } else {
      assert now[1..] == kids[1..];
      if cut != [r[0]] {
        assert path + cut == path + [k] + cut[1..];
        assert cut[1..] <= r[1..] && cut[1..] != [];
        assert kids[0].Element? || kids[0].Root?;
        if kids[0].Element? {
          ExcludedUnread(env, path + [k], kids[0], r[1..], cut[1..], m, outer, state);
          assert ReplaceAt(kids[0], r[1..], m).Element?;
        }
      } else {
        assert path + cut == path + [k];
      }
    }
  }
}
