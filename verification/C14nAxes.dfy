/**
 Which declarations an element renders.

 The rule of section 2.3 of Canonical XML 1.0 and section 3 of Exclusive XML
 Canonicalization 1.0, as an if-and-only-if: a declaration is rendered exactly
 when its prefix takes part at the element and its URI in scope is not the one
 the output already has in force. The stack is therefore faithful: for every
 prefix that takes part, what the output has in force below the start tag is what
 the source has in scope.
 */
module C14nAxes {
  import opened Strings
  import opened XmlTree
  import opened C14n

  predicate Distinct(decls: seq<Decl>) {
    forall i, j :: 0 <= i < j < |decls| ==> decls[i].prefix != decls[j].prefix
  }

  /** `xml` and the XML namespace are bound to each other only. */
  predicate XmlReserved(decls: seq<Decl>) {
    forall d :: d in decls ==> (d.prefix == "xml" <==> d.uri == XML_NAMESPACE)
  }

  predicate ProperScope(scope: Scope) {
    Distinct(scope) && XmlReserved(scope)
  }

  predicate AscendingDecls(m: seq<Decl>) {
    forall i, j :: 0 <= i < j < |m| ==> LexLess(m[i].prefix, m[j].prefix)
  }

  // ---------------------------------------------------------------- lookups

  lemma {:induction false} LookupFinds(scope: Scope, d: Decl)
    requires Distinct(scope) && d in scope
    ensures Lookup(scope, d.prefix) == d.uri
  {
    if scope[0] != d {
      assert d in scope[1..];
      LookupFinds(scope[1..], d);
    }
  }

  lemma {:induction false} LookupMisses(scope: Scope, prefix: string)
    ensures Declares(scope, prefix) ==> Decl(prefix, Lookup(scope, prefix)) in scope
    ensures !Declares(scope, prefix) ==> Lookup(scope, prefix) == ""
  {
    if scope != [] {
      assert scope[0] in scope;
      LookupMisses(scope[1..], prefix);
      if Declares(scope[1..], prefix) {
        var d :| d in scope[1..] && d.prefix == prefix;
        assert d in scope;
      }
      if Declares(scope, prefix) && scope[0].prefix != prefix {
        var d :| d in scope && d.prefix == prefix;
        assert d in scope[1..];
      }
    }
  }

  lemma {:induction false} UndeclaredExact(decls: seq<Decl>, outer: Scope)
    ensures forall d :: d in Undeclared(decls, outer) <==> d in outer && !Declares(decls, d.prefix)
    ensures Distinct(outer) ==> Distinct(Undeclared(decls, outer))
  {
    if outer != [] {
      UndeclaredExact(decls, outer[1..]);
      var rest := Undeclared(decls, outer[1..]);
      if Distinct(outer) {
        forall j | 0 <= j < |rest|
          ensures outer[0].prefix != rest[j].prefix
        {
          assert rest[j] in outer[1..];
        }
      }
    }
  }

  /** The scope inside an element is proper, and its own declarations come before its parent's. */
  lemma ExtendLookup(decls: seq<Decl>, outer: Scope, prefix: string)
    requires Distinct(decls) && Distinct(outer)
    ensures Distinct(Extend(decls, outer))
    ensures Lookup(Extend(decls, outer), prefix)
         == if Declares(decls, prefix) then Lookup(decls, prefix) else Lookup(outer, prefix)
    ensures Declares(Extend(decls, outer), prefix) <==> Declares(decls, prefix) || Declares(outer, prefix)
  {
    UndeclaredExact(decls, outer);
    var scope := Extend(decls, outer);
    var rest := Undeclared(decls, outer);
    forall i, j | 0 <= i < j < |scope|
      ensures scope[i].prefix != scope[j].prefix
    {
      if i < |decls| <= j {
        assert scope[j] == rest[j - |decls|] && scope[j] in rest;
        assert decls[i] in decls;
      }
    }
    LookupMisses(decls, prefix);
    LookupMisses(outer, prefix);
    LookupMisses(scope, prefix);
    if Declares(decls, prefix) {
      LookupFinds(scope, Decl(prefix, Lookup(decls, prefix)));
    } else if Declares(outer, prefix) {
      var d := Decl(prefix, Lookup(outer, prefix));
      assert d in rest && d in scope;
      LookupFinds(scope, d);
    }
  }

  /** What the output has in force after more declarations are pushed. */
  lemma {:induction false} RenderedAfter(state: NsStack, decls: seq<Decl>, prefix: string)
    requires Distinct(decls)
    ensures Rendered(state + decls, prefix)
         == if Declares(decls, prefix) then Lookup(decls, prefix) else Rendered(state, prefix)
  {
    if decls == [] {
      assert state + decls == state;
    } else {
      var last := decls[|decls| - 1];
      var most := decls[..|decls| - 1];
      assert decls == most + [last];
      assert (state + decls)[..|state + decls| - 1] == state + most;
      RenderedAfter(state, most, prefix);
      LookupMisses(decls, prefix);
      LookupMisses(most, prefix);
      if last.prefix == prefix {
        assert last in decls;
        LookupFinds(decls, last);
      } else if Declares(most, prefix) {
        LookupFinds(decls, Decl(prefix, Lookup(most, prefix)));
      } else {
        assert !Declares(decls, prefix);
      }
    }
  }

  // ------------------------------------------------------------- candidates

  lemma {:induction false} PutDeclIsInsert(m: seq<Decl>, d: Decl)
    requires AscendingDecls(m)
    ensures AscendingDecls(PutDecl(m, d))
    ensures forall x :: x in PutDecl(m, d) <==> x == d || (x in m && x.prefix != d.prefix)
  {
    if m == [] {
    } else if LexLess(d.prefix, m[0].prefix) {
      forall j | 0 <= j < |m|
        ensures LexLess(d.prefix, m[j].prefix) && d.prefix != m[j].prefix
      {
        if j > 0 { LexTransitive(d.prefix, m[0].prefix, m[j].prefix); }
        LexTrichotomy(d.prefix, m[j].prefix);
      }
    } else if d.prefix == m[0].prefix {
      forall j | 0 < j < |m|
        ensures d.prefix != m[j].prefix
      {
        LexTrichotomy(d.prefix, m[j].prefix);
      }
      assert m == [m[0]] + m[1..];
    } else {
      PutDeclIsInsert(m[1..], d);
      LexTrichotomy(d.prefix, m[0].prefix);
      var rest := PutDecl(m[1..], d);
      forall j | 0 <= j < |rest|
        ensures LexLess(m[0].prefix, rest[j].prefix)
      {
        assert rest[j] in rest;
      }
      assert m == [m[0]] + m[1..];
    }
  }

  lemma {:induction false} VisibleDeclsExact(names: seq<string>, scope: Scope, m: seq<Decl>)
    requires AscendingDecls(m)
    ensures AscendingDecls(VisibleDecls(names, scope, m))
    ensures forall x :: x in VisibleDecls(names, scope, m) <==>
              if x.prefix in names && x.prefix != "xml" then x.uri == Lookup(scope, x.prefix) else x in m
  {
    if names != [] {
      var next := if names[0] == "xml" then m else PutDecl(m, Decl(names[0], Lookup(scope, names[0])));
      if names[0] != "xml" { PutDeclIsInsert(m, Decl(names[0], Lookup(scope, names[0]))); }
      VisibleDeclsExact(names[1..], scope, next);
      assert names == [names[0]] + names[1..];
    }
  }

  lemma {:induction false} ScopeDeclsExact(scope: Scope, m: seq<Decl>)
    requires ProperScope(scope) && AscendingDecls(m)
    ensures AscendingDecls(ScopeDecls(scope, m))
    ensures forall x :: x in ScopeDecls(scope, m) <==>
              if x.prefix != "xml" && Declares(scope, x.prefix) then x in scope else x in m
  {
    if scope != [] {
      var next := if scope[0] == Decl("xml", XML_NAMESPACE) then m else PutDecl(m, scope[0]);
      PutDeclIsInsert(m, scope[0]);
      ScopeDeclsExact(scope[1..], next);
      assert scope[0] in scope;
      forall x
        ensures x in ScopeDecls(scope, m) <==>
                  if x.prefix != "xml" && Declares(scope, x.prefix) then x in scope else x in m
      {
        if Declares(scope[1..], x.prefix) {
          var d :| d in scope[1..] && d.prefix == x.prefix;
          assert d in scope;
        } else if Declares(scope, x.prefix) {
          var d :| d in scope && d.prefix == x.prefix;
          assert d == scope[0];
        }
      }
    }
  }

  lemma {:induction false} AttrPrefixesExact(attrs: seq<Attr>, names: seq<string>, x: string)
    requires Ascending(names)
    ensures Ascending(AttrPrefixes(attrs, names))
    ensures x in AttrPrefixes(attrs, names)
       <==> x in names || (x != "" && exists a :: a in attrs && QnamePrefix(a.qname) == x)
  {
    if attrs != [] {
      var p := QnamePrefix(attrs[0].qname);
      PutIsInsert(names, p);
      AttrPrefixesExact(attrs[1..], if p == "" then names else Put(names, p), x);
      assert attrs == [attrs[0]] + attrs[1..];
    }
  }

  function ListedName(token: string): string {
    if token == "#default" then "" else token
  }

  lemma {:induction false} ListedPrefixesExact(prefixes: seq<string>, names: seq<string>, x: string)
    requires Ascending(names)
    ensures Ascending(ListedPrefixes(prefixes, names))
    ensures x in ListedPrefixes(prefixes, names) <==> x in names || exists t :: t in prefixes && ListedName(t) == x
  {
    if prefixes != [] {
      PutIsInsert(names, ListedName(prefixes[0]));
      ListedPrefixesExact(prefixes[1..], Put(names, ListedName(prefixes[0])), x);
      assert prefixes == [prefixes[0]] + prefixes[1..];
    }
  }

  /** The prefixes an element visibly uses: its own and its qualified attributes'. */
  predicate VisiblyUsed(node: Node, prefix: string)
    requires node.Element?
  {
    prefix == QnamePrefix(node.qname)
    || (prefix != "" && exists a :: a in node.attrs && QnamePrefix(a.qname) == prefix)
  }

  predicate Listed(prefixes: seq<string>, prefix: string) {
    exists t :: t in prefixes && ListedName(t) == prefix
  }

  /** Whether a prefix takes part in the namespace axis of an element. */
  predicate TakesPart(env: Env, node: Node, scope: Scope, prefix: string)
    requires node.Element?
  {
    prefix != "xml" &&
    if env.algorithm.Exclusive? then VisiblyUsed(node, prefix) || Listed(env.prefixes, prefix)
    else prefix == "" || Declares(scope, prefix)
  }

  lemma CandidatesExact(env: Env, node: Node, scope: Scope)
    requires node.Element? && ProperScope(scope)
    ensures AscendingDecls(Candidates(env, node, scope))
    ensures forall d :: d in Candidates(env, node, scope)
                   <==> TakesPart(env, node, scope, d.prefix) && d.uri == Lookup(scope, d.prefix)
  {
    if env.algorithm.Exclusive? {
      var own := [QnamePrefix(node.qname)];
      forall x
        ensures x in Visible(env, node) <==> VisiblyUsed(node, x) || Listed(env.prefixes, x)
      {
        AttrPrefixesExact(node.attrs, own, x);
        ListedPrefixesExact(env.prefixes, AttrPrefixes(node.attrs, own), x);
      }
      VisibleDeclsExact(Visible(env, node), scope, []);
    } else {
      ScopeDeclsExact(scope, []);
      var m := ScopeDecls(scope, []);
      PutDeclIsInsert(m, Decl("", ""));
      forall x: Decl
        ensures x in m <==> x.prefix != "xml" && Declares(scope, x.prefix) && x.uri == Lookup(scope, x.prefix)
      {
        LookupMisses(scope, x.prefix);
        if x in scope { LookupFinds(scope, x); }
      }
      LookupMisses(scope, "");
      assert Declares(scope, "") ==> Decl("", Lookup(scope, "")) in m;
      if Declares(m, "") {
        var d :| d in m && d.prefix == "";
        assert Declares(scope, "");
      }
    }
  }

  lemma {:induction false} NotRenderedExact(candidates: seq<Decl>, state: NsStack)
    ensures forall d :: d in NotRendered(candidates, state)
                   <==> d in candidates && Rendered(state, d.prefix) != d.uri
    ensures AscendingDecls(candidates) ==> AscendingDecls(NotRendered(candidates, state))
  {
    if candidates != [] {
      NotRenderedExact(candidates[1..], state);
      var rest := NotRendered(candidates[1..], state);
      if AscendingDecls(candidates) {
        forall j | 0 <= j < |rest|
          ensures LexLess(candidates[0].prefix, rest[j].prefix)
        {
          assert rest[j] in rest;
          assert rest[j] in candidates[1..];
        }
      }
      assert candidates == [candidates[0]] + candidates[1..];
    }
  }

  lemma AscendingIsDistinct(m: seq<Decl>)
    requires AscendingDecls(m)
    ensures Distinct(m)
  {
    forall i, j | 0 <= i < j < |m|
      ensures m[i].prefix != m[j].prefix
    {
      LexTrichotomy(m[i].prefix, m[j].prefix);
    }
  }

  /** A declaration is rendered exactly when its prefix takes part and the output does not already
      have its URI in force; declarations come in prefix order, the default namespace first. */
  lemma AxisExact(env: Env, node: Node, scope: Scope, state: NsStack)
    requires node.Element? && ProperScope(scope)
    ensures AscendingDecls(NamespaceAxis(env, node, scope, state))
    ensures forall d :: d in NamespaceAxis(env, node, scope, state)
                   <==> TakesPart(env, node, scope, d.prefix) && d.uri == Lookup(scope, d.prefix)
                        && Rendered(state, d.prefix) != d.uri
  {
    CandidatesExact(env, node, scope);
    NotRenderedExact(Candidates(env, node, scope), state);
  }

  /** Below an element's start tag the output binds every prefix that takes part to its URI in the
      source, and leaves every other prefix as it was. */
  lemma StackFaithful(env: Env, node: Node, scope: Scope, state: NsStack, prefix: string)
    requires node.Element? && ProperScope(scope)
    ensures Rendered(state + NamespaceAxis(env, node, scope, state), prefix)
         == if TakesPart(env, node, scope, prefix) then Lookup(scope, prefix) else Rendered(state, prefix)
  {
    var axis := NamespaceAxis(env, node, scope, state);
    AxisExact(env, node, scope, state);
    AscendingIsDistinct(axis);
    RenderedAfter(state, axis, prefix);
    LookupMisses(axis, prefix);
    if !Declares(axis, prefix) {
      assert Decl(prefix, Lookup(scope, prefix)) !in axis;
    }
  }
}
