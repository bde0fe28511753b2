/** The canonicalization backend: one pass that writes octets and keeps the namespace stack. */
module Renderer {
  import opened Strings
  import opened XmlTree
  import opened C14n

  class Stack {
    var items: NsStack

    constructor ()
      ensures items == []
    {
      items := [];
    }
  }

  class Renderer {
    const env: Env
    var out: string

    constructor (env: Env)
      ensures this.env == env && out == ""
    {
      this.env := env;
      out := "";
    }

    method EscapeTextInto(text: string)
      modifies this`out
      ensures out == old(out) + EscapeText(text)
    {
      var i := 0;
      while i < |text|
        invariant i <= |text|
        invariant out + EscapeText(text[i..]) == old(out) + EscapeText(text)
      {
        EscapeTextStep(out, text, i);
        out := out + EscapeTextChar(text[i]);
        i := i + 1;
      }
    }

    method EscapeAttributeInto(value: string)
      modifies this`out
      ensures out == old(out) + EscapeAttribute(value)
    {
      var i := 0;
      while i < |value|
        invariant i <= |value|
        invariant out + EscapeAttribute(value[i..]) == old(out) + EscapeAttribute(value)
      {
        EscapeAttributeStep(out, value, i);
        out := out + EscapeAttributeChar(value[i]);
        i := i + 1;
      }
    }

    /** ` name="value"` */
    method PairInto(name: string, value: string)
      modifies this`out
      ensures out == old(out) + PrintPair(name, value)
    {
      out := out + " " + name + "=\"";
      EscapeAttributeInto(value);
      out := out + "\"";
    }

    method RenderMisc(c: Canon)
      requires c.CComment? || c.CPI?
      modifies this`out
      ensures out == old(out) + PrintMisc(c)
    {
      if c.CComment? {
        out := out + "<!--" + c.text + "-->";
        return;
      }
      out := out + "<?" + c.target;
      if c.value != "" {
        out := out + " " + c.value;
      }
      out := out + "?>";
    }

    /** The prefixes the element visibly uses and the listed ones, in order. */
    method VisibleOf(node: Node) returns (visible: seq<string>)
      requires node.Element?
      ensures visible == Visible(env, node)
    {
      ghost var prefix := QnamePrefix(node.qname);
      visible := [QnamePrefix(node.qname)];
      var i := 0;
      while i < |node.attrs|
        invariant i <= |node.attrs|
        invariant AttrPrefixes(node.attrs[i..], visible) == AttrPrefixes(node.attrs, [prefix])
      {
        assert node.attrs[i..][1..] == node.attrs[i + 1..];
        var attributePrefix := QnamePrefix(node.attrs[i].qname);
        if attributePrefix != "" {
          visible := Put(visible, attributePrefix);
        }
        i := i + 1;
      }
      assert node.attrs[i..] == [];
      i := 0;
      while i < |env.prefixes|
        invariant i <= |env.prefixes|
        invariant ListedPrefixes(env.prefixes[i..], visible) == Visible(env, node)
      {
        assert env.prefixes[i..][1..] == env.prefixes[i + 1..];
        visible := Put(visible, if env.prefixes[i] == "#default" then "" else env.prefixes[i]);
        i := i + 1;
      }
      assert env.prefixes[i..] == [];
    }

    method CandidatesOf(node: Node, scope: Scope) returns (candidates: seq<Decl>)
      requires node.Element?
      ensures candidates == Candidates(env, node, scope)
    {
      candidates := [];
      if env.algorithm.Exclusive? {
        var visible := VisibleOf(node);
        var i := 0;
        while i < |visible|
          invariant i <= |visible|
          invariant VisibleDecls(visible[i..], scope, candidates) == VisibleDecls(visible, scope, [])
        {
          assert visible[i..][1..] == visible[i + 1..];
          var name := visible[i];
          if name != "xml" {
            candidates := PutDecl(candidates, Decl(name, Lookup(scope, name)));
          }
          i := i + 1;
        }
        assert visible[i..] == [];
      } else {
        var i := 0;
        while i < |scope|
          invariant i <= |scope|
          invariant ScopeDecls(scope[i..], candidates) == ScopeDecls(scope, [])
        {
          assert scope[i..][1..] == scope[i + 1..];
          if scope[i] != Decl("xml", XML_NAMESPACE) {
            candidates := PutDecl(candidates, scope[i]);
          }
          i := i + 1;
        }
        assert scope[i..] == [];
        candidates := DefaultEntry(candidates);
      }
    }

    /** The declarations one element must render, default namespace first, then by prefix. */
    method NamespaceAxisOf(node: Node, scope: Scope, state: Stack) returns (declarations: seq<Decl>)
      requires node.Element?
      ensures declarations == NamespaceAxis(env, node, scope, state.items)
    {
      var candidates := CandidatesOf(node, scope);
      declarations := [];
      var i := 0;
      while i < |candidates|
        invariant i <= |candidates|
        invariant declarations + NotRendered(candidates[i..], state.items) == NotRendered(candidates, state.items)
      {
        assert candidates[i..][1..] == candidates[i + 1..];
        if Rendered(state.items, candidates[i].prefix) != candidates[i].uri {
          declarations := declarations + [candidates[i]];
        }
        i := i + 1;
      }
    }

    /** The attributes, sorted by namespace URI then local name. */
    method AttributeAxisOf(path: Path, node: Node) returns (attributes: seq<Attr>)
      requires node.Element?
      ensures attributes == AttributeAxis(env, path, node)
    {
      attributes := node.attrs;
      if env.algorithm.Inclusive? && path == env.nodes.apex {
        var i := 0;
        while i < |env.inherited|
          invariant i <= |env.inherited|
          invariant Inherit(attributes, env.inherited[i..]) == Inherit(node.attrs, env.inherited)
        {
          assert env.inherited[i..][1..] == env.inherited[i + 1..];
          var a := env.inherited[i];
          if !exists b :: b in attributes && b.ns == XML_NAMESPACE && b.local == a.local {
            attributes := attributes + [a.(ns := XML_NAMESPACE)];
          }
          i := i + 1;
        }
      }
      attributes := SortAttrs(attributes);
    }

    method DeclarationsInto(declarations: seq<Decl>)
      modifies this`out
      ensures out == old(out) + PrintDecls(declarations)
    {
      var i := 0;
      while i < |declarations|
        invariant i <= |declarations|
        invariant out + PrintDecls(declarations[i..]) == old(out) + PrintDecls(declarations)
      {
        assert declarations[i..][1..] == declarations[i + 1..];
        Regroup(out, PrintPair(DeclName(declarations[i].prefix), declarations[i].uri), PrintDecls(declarations[i + 1..]));
        PairInto(DeclName(declarations[i].prefix), declarations[i].uri);
        i := i + 1;
      }
    }

    method AttributesInto(attributes: seq<Attr>)
      modifies this`out
      ensures out == old(out) + PrintAttrs(CAttrs(attributes))
    {
      var i := 0;
      while i < |attributes|
        invariant i <= |attributes|
        invariant out + PrintAttrs(CAttrs(attributes[i..])) == old(out) + PrintAttrs(CAttrs(attributes))
      {
        assert attributes[i..][1..] == attributes[i + 1..];
        Regroup(out, PrintPair(attributes[i].qname, attributes[i].value), PrintAttrs(CAttrs(attributes[i + 1..])));
        PairInto(attributes[i].qname, attributes[i].value);
        i := i + 1;
      }
    }

    method StartTagInto(qname: string, declarations: seq<Decl>, attributes: seq<Attr>)
      modifies this`out
      ensures out == old(out) + PrintStart(qname, declarations, CAttrs(attributes))
    {
      ghost var before := out;
      out := out + "<" + qname;
      ghost var begun := out;
      DeclarationsInto(declarations);
      AttributesInto(attributes);
      Regroup(begun, PrintDecls(declarations), PrintAttrs(CAttrs(attributes)));
      out := out + ">";
      StartTagRegroup(before, qname, PrintDecls(declarations) + PrintAttrs(CAttrs(attributes)));
    }

    method EndTagInto(qname: string)
      modifies this`out
      ensures out == old(out) + PrintEnd(qname)
    {
      out := out + "</";
      out := out + qname;
      out := out + ">";
    }

    method RenderElement(path: Path, node: Node, outer: Scope, state: Stack)
      requires node.Element?
      modifies this`out, state
      ensures state.items == old(state.items)
      ensures out == old(out) + Print(CanonElement(env, path, node, outer, old(state.items)))
      decreases node, 1
    {
      var scope := Extend(node.decls, outer);
      var declarations := NamespaceAxisOf(node, scope, state);
      var attributes := AttributeAxisOf(path, node);

      StartTagInto(node.qname, declarations, attributes);

      var depth := |state.items|;
      state.items := state.items + declarations;
      RenderKids(path, node, scope, state);
      assert state.items[..depth] == old(state.items);
      state.items := state.items[..depth];

      EndTagInto(node.qname);
      ElementStep(old(out), env, path, node, outer, old(state.items));
    }

    method RenderKids(path: Path, node: Node, scope: Scope, state: Stack)
      requires node.Element?
      modifies this`out, state
      ensures state.items == old(state.items)
      ensures out == old(out) + PrintAll(CanonKids(env, path, node.children, 0, scope, old(state.items)))
      decreases node, 0
    {
      var k := 0;
      ghost var all := CanonKids(env, path, node.children, 0, scope, state.items);
      while k < |node.children|
        invariant k <= |node.children|
        invariant state.items == old(state.items)
        invariant out + PrintAll(CanonKids(env, path, node.children[k..], k, scope, state.items))
               == old(out) + PrintAll(all)
      {
        KidsStep(out, env, path, node.children, k, scope, state.items);
        RenderNode(path + [k], node.children[k], scope, state);
        k := k + 1;
      }
      assert node.children[k..] == [];
    }

    method RenderNode(path: Path, node: Node, outer: Scope, state: Stack)
      modifies this`out, state
      ensures state.items == old(state.items)
      ensures out == old(out) + PrintAll(CanonNode(env, path, node, outer, old(state.items)))
      decreases node, 2
    {
      if path in env.nodes.excluded {
        return;
      }
      if node.Element? {
        RenderElement(path, node, outer, state);
      } else if node.Text? {
        EscapeTextInto(node.text);
      } else if node.Comment? {
        if env.algorithm.comments && !env.nodes.commentsExcluded {
          RenderMisc(CComment(node.text));
        }
      } else if node.PI? {
        RenderMisc(CPI(node.target, node.value));
      }
    }

    /** One child of the document node, with its newline. */
    method RenderTopLevel(child: Node, k: nat, seenElement: bool, state: Stack)
      requires state.items == []
      modifies this`out, state
      ensures state.items == []
      ensures out == old(out) + TopLevelPiece(env, child, k, seenElement)
    {
      if [k] in env.nodes.excluded {
        return;
      }
      if child.Element? {
        RenderElement([k], child, BASE_SCOPE, state);
      } else if child.Comment? || child.PI? {
        if child.Comment? && !(env.algorithm.comments && !env.nodes.commentsExcluded) {
          return;
        }
        var misc := if child.Comment? then CComment(child.text) else CPI(child.target, child.value);
        if seenElement {
          out := out + "\n";
          RenderMisc(misc);
        } else {
          RenderMisc(misc);
          out := out + "\n";
        }
      }
    }

    /** Render a whole node set. */
    method RenderSet(doc: Node)
      requires Valid(doc, env.nodes.apex) && (At(doc, env.nodes.apex).Root? || At(doc, env.nodes.apex).Element?)
      requires env == EnvOf(doc, env.nodes, env.algorithm, env.prefixes)
      modifies this`out
      ensures out == old(out) + Octets(doc, env.nodes, env.algorithm, env.prefixes)
    {
      var apex := At(doc, env.nodes.apex);
      var state := new Stack();
      if apex.Root? {
        var seenElement := false;
        var k := 0;
        while k < |apex.children|
          invariant k <= |apex.children| && state.items == []
          invariant out + PrintTopLevel(env, apex.children[k..], k, seenElement)
                 == old(out) + PrintTopLevel(env, apex.children, 0, false)
        {
          TopLevelStep(out, env, apex.children, k, seenElement);
          RenderTopLevel(apex.children[k], k, seenElement, state);
          if [k] !in env.nodes.excluded && apex.children[k].Element? {
            seenElement := true;
          }
          k := k + 1;
        }
        return;
      }
      RenderElement(env.nodes.apex, apex, ScopeAbove(doc, env.nodes.apex, BASE_SCOPE), state);
    }
  }

  lemma {:induction false} PrintAllConcat(a: seq<Canon>, b: seq<Canon>)
    ensures PrintAll(a + b) == PrintAll(a) + PrintAll(b)
  {
    if a == [] {
      assert a + b == b;
    } else {
      assert (a + b)[1..] == a[1..] + b;
      PrintAllConcat(a[1..], b);
    }
  }

  /** The backend: a function from a node set to octets. */
  method Canonicalize(doc: Node, nodes: NodeSet, algorithm: Algorithm, prefixes: seq<string>)
    returns (octets: string)
    requires Valid(doc, nodes.apex) && (At(doc, nodes.apex).Root? || At(doc, nodes.apex).Element?)
    ensures octets == Octets(doc, nodes, algorithm, prefixes)
  {
    var renderer := new Renderer(EnvOf(doc, nodes, algorithm, prefixes));
    renderer.RenderSet(doc);
    octets := renderer.out;
  }

  // ------------------------------------------- one iteration of each loop

  lemma StartTagRegroup(before: string, qname: string, middle: string)
    ensures before + ("<" + qname + middle + ">") == before + "<" + qname + middle + ">"
  {}

  lemma EscapeTextStep(before: string, text: string, i: nat)
    requires i < |text|
    ensures before + EscapeText(text[i..]) == before + EscapeTextChar(text[i]) + EscapeText(text[i + 1..])
  {
    assert text[i..][1..] == text[i + 1..];
    Regroup(before, EscapeTextChar(text[i]), EscapeText(text[i + 1..]));
  }

  lemma EscapeAttributeStep(before: string, value: string, i: nat)
    requires i < |value|
    ensures before + EscapeAttribute(value[i..])
         == before + EscapeAttributeChar(value[i]) + EscapeAttribute(value[i + 1..])
  {
    assert value[i..][1..] == value[i + 1..];
    Regroup(before, EscapeAttributeChar(value[i]), EscapeAttribute(value[i + 1..]));
  }

  lemma ElementStep(before: string, env: Env, path: Path, node: Node, outer: Scope, state: NsStack)
    requires node.Element?
    ensures var scope := Extend(node.decls, outer);
            var decls := NamespaceAxis(env, node, scope, state);
            before + Print(CanonElement(env, path, node, outer, state))
            == before + PrintStart(node.qname, decls, CAttrs(AttributeAxis(env, path, node)))
               + PrintAll(CanonKids(env, path, node.children, 0, scope, state + decls)) + PrintEnd(node.qname)
  {
    var scope := Extend(node.decls, outer);
    var decls := NamespaceAxis(env, node, scope, state);
    var start := PrintStart(node.qname, decls, CAttrs(AttributeAxis(env, path, node)));
    var inner := PrintAll(CanonKids(env, path, node.children, 0, scope, state + decls));
    Regroup(before, start + inner, PrintEnd(node.qname));
    Regroup(before, start, inner);
  }

  lemma KidsStep(before: string, env: Env, path: Path, kids: seq<Node>, k: nat, scope: Scope, state: NsStack)
    requires k < |kids|
    ensures before + PrintAll(CanonKids(env, path, kids[k..], k, scope, state))
         == before + PrintAll(CanonNode(env, path + [k], kids[k], scope, state))
            + PrintAll(CanonKids(env, path, kids[k + 1..], k + 1, scope, state))
  {
    assert kids[k..][1..] == kids[k + 1..];
    var first := CanonNode(env, path + [k], kids[k], scope, state);
    var rest := CanonKids(env, path, kids[k + 1..], k + 1, scope, state);
    PrintAllConcat(first, rest);
    Regroup(before, PrintAll(first), PrintAll(rest));
  }

  /** What the document-level loop writes for one child. */
  function TopLevelPiece(env: Env, child: Node, k: nat, seen: bool): string {
    if [k] in env.nodes.excluded then ""
    else if child.Element? then Print(CanonElement(env, [k], child, BASE_SCOPE, []))
    else if child.PI? then
      if seen then "\n" + PrintMisc(CPI(child.target, child.value)) else PrintMisc(CPI(child.target, child.value)) + "\n"
    else if child.Comment? && ShowsComments(env) then
      if seen then "\n" + PrintMisc(CComment(child.text)) else PrintMisc(CComment(child.text)) + "\n"
    else ""
  }

  lemma TopLevelStep(before: string, env: Env, kids: seq<Node>, k: nat, seen: bool)
    requires k < |kids|
    ensures var now := seen || (kids[k].Element? && [k] !in env.nodes.excluded);
            before + PrintTopLevel(env, kids[k..], k, seen)
            == before + TopLevelPiece(env, kids[k], k, seen) + PrintTopLevel(env, kids[k + 1..], k + 1, now)
  {
    assert kids[k..][1..] == kids[k + 1..];
    var now := seen || (kids[k].Element? && [k] !in env.nodes.excluded);
    var rest := PrintTopLevel(env, kids[k + 1..], k + 1, now);
    assert PrintTopLevel(env, kids[k..], k, seen) == TopLevelPiece(env, kids[k], k, seen) + rest;
    Regroup(before, TopLevelPiece(env, kids[k], k, seen), rest);
  }
}
