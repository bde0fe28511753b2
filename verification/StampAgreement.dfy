/**
 The two sides of a container timestamp agree.

 For every timestamp a run writes, the verifier works out the scope the writer
 meant, finds nothing the format requires left out, and recomputes exactly the
 octets the token was requested over, with every element and every token of the
 run in place. One thing can keep a document timestamp from this: the verifier
 looks a profile's `OBJREF` up as it is written, while the parser drops a
 leading `#`. `ObjrefFits` says exactly when that does not matter.
 */
module StampAgreement {
  import opened Wrappers
  import opened XmlTree
  import opened C14n
  import opened Ids
  import opened Dossier
  import opened Growth
  import opened GrownLayout
  import opened Names
  import opened SignatureXml
  import opened Planner
  import opened References
  import opened ReferenceParsing
  import opened PlanTheorems
  import opened Run
  import opened Scope
  import opened Acceptance
  import opened OlderSignatures
  import opened ContainerStamps
  import opened StampXml
  import opened StampPlanner
  import opened StampRun
  import opened StampTheorems

  // --------------------------------------------------------- written and read

  lemma XadesStep(a: Node, rest: seq<Node>, name: string)
    ensures XadesKids([a] + rest, name) == (if IsXades(a, name) then [a] else []) + XadesKids(rest, name)
  {
    hide IsXades;
    assert ([a] + rest)[1..] == rest;
  }

  /** How a XAdES or a `ds:` child of a timestamp is read. */
  lemma XadesReads(local: string, attrs: seq<Attr>, kids: seq<Node>)
    ensures var n := XadesElement(local, attrs, kids);
            && n.Element? && n.local == local && n.ns == XADES && n.attrs == attrs && n.children == kids
            && (forall name :: IsXades(n, name) <==> name == local)
  {
    hide OpenTag;
    assert XADES == XADES_NAMESPACES[0];
  }

  lemma DsReads(local: string, attrs: seq<Attr>, kids: seq<Node>)
    ensures var n := DsElement(local, attrs, kids);
            && n.Element? && n.local == local && n.ns == XMLDSIG && n.attrs == attrs && n.children == kids
            && (forall name :: !IsXades(n, name))
  {
    hide OpenTag;
    NotXades();
  }

  lemma NotXades()
    ensures XMLDSIG !in XADES_NAMESPACES
  {
    assert XMLDSIG[7] == 'w';
    assert XADES_NAMESPACES[0][7] == XADES_NAMESPACES[1][7] == XADES_NAMESPACES[2][7] == XADES_NAMESPACES[3][7] == 'u';
  }

  lemma IncludeReads(id: string)
    requires id != ""
    ensures var n := IncludeNode(id); var uri := OrEmpty(AttributeOf(n, "URI"));
            && IsXades(n, "Include") && !IsXades(n, "EncapsulatedTimeStamp") && !SelectsOtherwise(n)
            && n.Element? && !IsNamed(n, XMLDSIG, "CanonicalizationMethod")
            && |uri| >= 2 && uri[0] == '#' && uri[1..] == id
  {
    XadesReads("Include", [Named("URI", "#" + id)], []);
    var n := IncludeNode(id);
    hide XadesElement, IsXades;
    OneAttribute(n, "URI", "#" + id);
  }

  lemma TokenReads(token: string)
    ensures var n := TokenNode(token);
            && IsXades(n, "EncapsulatedTimeStamp") && !IsXades(n, "Include") && !SelectsOtherwise(n) && n.Element?
            && TextOf(Kids(n)) == token
  {
    XadesReads("EncapsulatedTimeStamp", [], Raw(token));
    hide XadesElement, IsXades;
    var kids := Raw(token);
    assert kids[1..] == [];
    assert TextOf(kids) == token + "";
  }

  lemma CertificatesRead(values: seq<string>)
    ensures XadesKids(StampCertificates(values), "Include") == [] && XadesKids(StampCertificates(values), "EncapsulatedTimeStamp") == []
    ensures forall kid :: kid in StampCertificates(values) ==> !SelectsOtherwise(kid)
  {
    if values != [] {
      XadesReads("CertificateValues", [], Certificates(values));
      var n := XadesElement("CertificateValues", [], Certificates(values));
      hide XadesElement, IsXades, Certificates;
      assert [n][1..] == [];
    }
  }

  lemma MethodReads()
    ensures var n := Digesting("CanonicalizationMethod", C14N_EXCLUSIVE);
            && !IsXades(n, "Include") && !IsXades(n, "EncapsulatedTimeStamp") && !SelectsOtherwise(n) && n.Element?
            && IsNamed(n, XMLDSIG, "CanonicalizationMethod") && n.children == []
            && AttributeOf(n, "Algorithm") == Some(C14N_EXCLUSIVE)
  {
    DsReads("CanonicalizationMethod", [Named("Algorithm", C14N_EXCLUSIVE)], []);
    var n := Digesting("CanonicalizationMethod", C14N_EXCLUSIVE);
    hide DsElement, IsXades;
    OneAttribute(n, "Algorithm", C14N_EXCLUSIVE);
  }

  /** The children of a timestamp over two elements. */
  lemma FourOrFive(stamping: Stamping, a: string, b: string, token: string)
    ensures StampKids(stamping, [a, b], token)
         == [Digesting("CanonicalizationMethod", C14N_EXCLUSIVE)]
            + ([IncludeNode(a)] + ([IncludeNode(b)] + ([TokenNode(token)] + StampCertificates(stamping.certificateValues))))
  {
    hide Digesting, IncludeNode, TokenNode, StampCertificates;
    assert [a, b][1..] == [b] && [b][1..] == [];
    assert IncludeNodes([b]) == [IncludeNode(b)];
    assert IncludeNodes([a, b]) == [IncludeNode(a)] + [IncludeNode(b)];
  }

  /** What the verifier reads off a timestamp the writer wrote. */
  predicate ReadsAs(node: Node, a: string, b: string, token: string) {
    && Includes(node) == [IncludeNode(a), IncludeNode(b)]
    && XadesKids(Kids(node), "EncapsulatedTimeStamp") == [TokenNode(token)]
    && (forall kid :: kid in Kids(node) ==> !SelectsOtherwise(kid))
    && MethodOf(node) == Some((Exclusive(false), []))
  }

  /** How one child of a timestamp is read. */
  predicate KidReads(kid: Node, includes: bool, holdsToken: bool) {
    && (IsXades(kid, "Include") <==> includes) && (IsXades(kid, "EncapsulatedTimeStamp") <==> holdsToken) && !SelectsOtherwise(kid)
  }

  lemma EachReads(a: string, b: string, token: string)
    requires a != "" && b != ""
    ensures KidReads(Digesting("CanonicalizationMethod", C14N_EXCLUSIVE), false, false)
    ensures KidReads(IncludeNode(a), true, false) && KidReads(IncludeNode(b), true, false) && KidReads(TokenNode(token), false, true)
  {
    hide Digesting, IncludeNode, TokenNode, IsXades, SelectsOtherwise, AttributeOf, IsNamed, TextOf;
    MethodReads();
    IncludeReads(a);
    IncludeReads(b);
    TokenReads(token);
  }

  lemma KidsRead(m: Node, x: Node, y: Node, z: Node, rest: seq<Node>)
    requires KidReads(m, false, false) && KidReads(x, true, false) && KidReads(y, true, false) && KidReads(z, false, true)
    requires XadesKids(rest, "Include") == [] && XadesKids(rest, "EncapsulatedTimeStamp") == []
    requires forall kid :: kid in rest ==> !SelectsOtherwise(kid)
    ensures var kids := [m] + ([x] + ([y] + ([z] + rest)));
            && XadesKids(kids, "Include") == [x, y] && XadesKids(kids, "EncapsulatedTimeStamp") == [z]
            && forall kid :: kid in kids ==> !SelectsOtherwise(kid)
  {
    hide IsXades, SelectsOtherwise, XadesKids;
    FiveRead(m, x, y, z, rest, "Include");
    FiveRead(m, x, y, z, rest, "EncapsulatedTimeStamp");
  }

  lemma StampIsRead(plan: StampPlan, stamping: Stamping, a: string, b: string, token: string)
    requires plan.includes == [a, b] && a != "" && b != ""
    ensures ReadsAs(StampNode(plan, stamping, token), a, b, token)
  {
    hide Digesting, IncludeNode, TokenNode, StampCertificates, StampKids, StampNode, KidReads, SelectsOtherwise, XadesKids, MethodOf;
    var node := StampNode(plan, stamping, token);
    StampMade(plan, stamping, token);
    FourOrFive(stamping, a, b, token);
    var method', x, y, z, rest := Digesting("CanonicalizationMethod", C14N_EXCLUSIVE), IncludeNode(a), IncludeNode(b), TokenNode(token),
                                  StampCertificates(stamping.certificateValues);
    EachReads(a, b, token);
    CertificatesRead(stamping.certificateValues);
    KidsRead(method', x, y, z, rest);
    MethodIsRead(node, [x] + ([y] + ([z] + rest)));
  }

  lemma MethodIsRead(node: Node, rest: seq<Node>)
    requires node.Element? && node.children == [Digesting("CanonicalizationMethod", C14N_EXCLUSIVE)] + rest
    ensures MethodOf(node) == Some((Exclusive(false), []))
  {
    hide Digesting, IsXades, SelectsOtherwise, IsNamed, MethodOf, AttributeOf;
    MethodReads();
    MethodFound(node, Digesting("CanonicalizationMethod", C14N_EXCLUSIVE), rest);
  }

  lemma FiveRead(m: Node, x: Node, y: Node, z: Node, rest: seq<Node>, name: string)
    requires XadesKids(rest, name) == []
    ensures XadesKids([m] + ([x] + ([y] + ([z] + rest))), name)
         == (if IsXades(m, name) then [m] else []) + ((if IsXades(x, name) then [x] else [])
            + ((if IsXades(y, name) then [y] else []) + ((if IsXades(z, name) then [z] else []) + [])))
  {
    hide IsXades, XadesKids;
    XadesStep(z, rest, name);
    XadesStep(y, [z] + rest, name);
    XadesStep(x, [y] + ([z] + rest), name);
    XadesStep(m, [x] + ([y] + ([z] + rest)), name);
  }

  lemma MethodFound(node: Node, m: Node, rest: seq<Node>)
    requires node.Element? && node.children == [m] + rest && IsNamed(m, XMLDSIG, "CanonicalizationMethod")
    requires m.children == [] && AttributeOf(m, "Algorithm") == Some(C14N_EXCLUSIVE)
    ensures MethodOf(node) == Some((Exclusive(false), []))
  {
    hide AttributeOf, IsNamed;
    NamedStep(m, rest, "CanonicalizationMethod");
    assert KidNamed(m, EXC_C14N, "InclusiveNamespaces") == None;
    ExclusiveIsKnown();
  }

  lemma ExclusiveIsKnown()
    ensures AlgorithmOf(C14N_EXCLUSIVE) == Some(Exclusive(false))
  {
    assert C14N_EXCLUSIVE[18] == '2' && C14N_EXCLUSIVE[21] == '1';
    assert |C14N_INCLUSIVE| != |C14N_EXCLUSIVE| && |C14N_INCLUSIVE_WITH_COMMENTS| != |C14N_EXCLUSIVE|;
  }

  lemma BothResolve(ids: map<string, Path>, a: string, b: string, s: Path, t: Path)
    requires a != "" && b != "" && a in ids && ids[a] == s && b in ids && ids[b] == t
    ensures ResolveIncludes(ids, [IncludeNode(a), IncludeNode(b)]) == Ok([s, t])
  {
    hide IncludeNode, IsXades, SelectsOtherwise, AttributeOf;
    IncludeReads(a);
    IncludeReads(b);
    var x, y := IncludeNode(a), IncludeNode(b);
    assert [x, y][1..] == [y] && [y][1..] == [];
    assert ResolveIncludes(ids, [y]) == Ok([t] + []);
    assert [s] + [t] == [s, t] && [t] + [] == [t];
  }

  // -------------------------------------------------------------- preparation

  /** Nothing in the way: the octets are those of the two elements, in the order of the includes. */
  predicate PreparesAs(prepared: Prepared, scope: ContainerScope, decoded: Option<string>, imprint: string) {
    prepared == if decoded.Some? then Prepared(scope, decoded.value, imprint, None) else Unprepared(scope, NoToken)
  }

  lemma OneToken(decode: Decoder, token: string)
    ensures Tokens(decode, [TokenNode(token)]) == if decode(token).Some? then [decode(token).value] else []
  {
    hide TokenNode;
    TokenReads(token);
    assert [TokenNode(token)][1..] == [];
  }

  lemma TwoOctets(w: Node, s: Path, t: Path)
    requires IsElement(w, s) && IsElement(w, t)
    ensures AllTargets(w, [s, t]) && ImprintOver(w, [s, t], Exclusive(false), []) == Canonical(w, s) + Canonical(w, t)
  {
    hide Octets;
    assert [s, t][1..] == [t] && [t][1..] == [];
    assert AllTargets(w, [t]) && AllTargets(w, [s, t]) && AllTargets(w, []);
    assert ImprintOver(w, [t], Exclusive(false), []) == Canonical(w, t) + "";
    assert Canonical(w, t) + "" == Canonical(w, t);
  }

  lemma ReadAndPrepared(w: Node, ids: map<string, Path>, namespace: string, decode: Decoder, stamp: Path, scope: ContainerScope,
                        nodes: seq<Path>, a: string, s: Path, b: string, t: Path, token: string)
    requires Valid(w, stamp) && ReadsAs(At(w, stamp), a, b, token)
    requires a != "" && b != "" && a in ids && ids[a] == s && b in ids && ids[b] == t && IsElement(w, s) && IsElement(w, t)
    ensures var missing := FirstUncovered(MustCover(w, ids, namespace, scope, nodes), [s, t]);
            var prepared := Prepare(w, ids, namespace, decode, stamp, scope, nodes);
            && (missing.Some? ==> prepared == Unprepared(scope, Uncovered(missing.value)))
            && (missing.None? ==> PreparesAs(prepared, scope, decode(token), Canonical(w, s) + Canonical(w, t)))
  {
    hide FirstUncovered, MustCover, Includes, XadesKids, MethodOf, SelectsOtherwise, Octets, ImprintOver, IncludeNode, TokenNode, ResolveIncludes,
         Tokens, Canonical, Valid, At, AllTargets;
    BothResolve(ids, a, b, s, t);
    OneToken(decode, token);
    TwoOctets(w, s, t);
  }

  // ------------------------------------------------------------------ coverage

  lemma TwoCoveredByTwo(r: Option<Path>, x: string, q: Option<Path>, y: string, resolved: seq<Path>)
    ensures var missing := FirstUncovered([(r, x), (q, y)], resolved);
            && (r.Some? && !Included(resolved, r.value) ==> missing == Some(x))
            && ((r.None? || Included(resolved, r.value)) ==>
                  missing == if q.Some? && !Included(resolved, q.value) then Some(y) else None)
  {
    hide Included;
    assert [(r, x), (q, y)][1..] == [(q, y)] && [(q, y)][1..] == [];
    assert FirstUncovered([(q, y)], resolved) == if q.Some? && !Included(resolved, q.value) then Some(y) else None;
  }

  lemma IncludedItself(resolved: seq<Path>, p: Path)
    requires p in resolved
    ensures Included(resolved, p)
  {}

  /** The element the profile's `OBJREF` names as it stands, if it names any, is one of the two covered
      elements or inside one. */
  predicate ObjrefFits(doc: Node, ids: map<string, Path>, namespace: string, document: Path, profile: Path, payload: Path)
    requires Valid(doc, document)
  {
    var named := NamedPayload(doc, ids, namespace, document);
    named.Some? ==> Included([profile, payload], named.value)
  }

  /** Timestamp `i`'s container and its two included elements, as planning has them. */
  ghost predicate OverTwo(doc: Node, plans: seq<StampPlan>, i: nat, a: string, s: Path, b: string, t: Path) {
    && GoodStamps(doc, plans) && IdMap(doc).Some? && i < |plans| && StampPlaces(plans)[i] in StampPlaces(plans)
    && a != "" && b != "" && Aims(doc, plans, i, a, s, b, t)
  }

  /** Whatever the scope, what the verifier makes of timestamp `i` depends on its coverage alone. */
  lemma StampPrepared(doc: Node, plans: seq<StampPlan>, stamping: Stamping, tokens: seq<string>, i: nat, a: string, s: Path,
                      b: string, t: Path, decode: Decoder, scope: ContainerScope, nodes: seq<Path>)
    requires OverTwo(doc, plans, i, a, s, b, t) && |tokens| == |plans|
    requires IdMap(StampedDocument(doc, plans, stamping, tokens)).Some?
    ensures var w, place := StampedDocument(doc, plans, stamping, tokens), NextKid(doc, plans[i].container);
            var ids := IdMap(w).value;
            && Valid(w, place)
            && var missing := FirstUncovered(MustCover(w, ids, stamping.namespace, scope, nodes), [s, t]);
               var prepared := Prepare(w, ids, stamping.namespace, decode, place, scope, nodes);
               && (missing.Some? ==> prepared == Unprepared(scope, Uncovered(missing.value)))
               && (missing.None? ==> PreparesAs(prepared, scope, decode(tokens[i]), Canonical(doc, s) + Canonical(doc, t)))
  {
    hide Grown, FirstUncovered, MustCover, Prepare, StampNode, ReadsAs, Canonical, IdMap, ById, NextKid, Spot, Imprint, PreparesAs;
    var w, place := StampedDocument(doc, plans, stamping, tokens), NextKid(doc, plans[i].container);
    StampFound(doc, plans, stamping, tokens, i);
    StampIsRead(plans[i], stamping, a, b, tokens[i]);
    StampedKeepsId(doc, plans, stamping, tokens, a, s);
    StampedKeepsId(doc, plans, stamping, tokens, b, t);
    BelowOne(doc, plans, i, s);
    BelowOne(doc, plans, i, t);
    StampedOctets(doc, plans, stamping, tokens, s);
    StampedOctets(doc, plans, stamping, tokens, t);
    ReadAndPrepared(w, IdMap(w).value, stamping.namespace, decode, place, scope, nodes, a, s, b, t, tokens[i]);
  }

  // ------------------------------------------------------- document timestamps

  lemma {:induction false} IndexOfAt(ps: seq<Path>, i: nat)
    requires i < |ps| && forall j :: 0 <= j < i ==> ps[j] != ps[i]
    ensures IndexOf(ps, ps[i]) == Some(i)
  {
    if i > 0 {
      assert ps[0] != ps[i];
      assert ps[1..][i - 1] == ps[i];
      IndexOfAt(ps[1..], i - 1);
    }
  }

  /** The verifier numbers the documents as the parser does. */
  lemma DocumentNumbered(doc: Node, allowed: seq<string>, maxDocuments: nat, dossier: Dossier, d: Document)
    requires ParseDossier(doc, allowed, maxDocuments) == Ok(dossier) && doc.Root? && "" !in allowed && d in dossier.documents
    ensures IndexOf(DocumentNodes(doc, dossier.namespace), d.node) == Some(d.index)
    ensures d.index < |DocumentNodes(doc, dossier.namespace)| && DocumentNodes(doc, dossier.namespace)[d.index] == d.node
  {
    hide ParseDossier, ChildrenNamed, RootElement, Modelled, WithProfile, Disjoint, IdMap;
    var profile, documents := AcceptedDossier(doc, allowed, maxDocuments, dossier);
    var nodes := DocumentNodes(doc, dossier.namespace);
    assert nodes == NodesOf(dossier.documents);
    NodesOfAt(dossier.documents);
    var m := MemberAt(dossier.documents, d);
    forall j | 0 <= j < m
      ensures nodes[j] != nodes[m]
    {
      DocumentsApart(doc, allowed, maxDocuments, dossier, j, m);
      NotApart(nodes[j], nodes[m]);
    }
    IndexOfAt(nodes, m);
  }

  lemma NotApart(p: Path, q: Path)
    requires Disjoint(p, q)
    ensures p != q
  {}

  lemma DocumentIsDeep(doc: Node, dossier: Dossier, profile: Path, documents: Path, d: Document)
    requires Layout(doc, dossier, RootElement(doc), profile, documents) && doc.Root? && Modelled(doc, documents, dossier.namespace, d)
    ensures d.node != RootElement(doc) && IsNamed(At(doc, d.node), dossier.namespace, "Document")
  {
    hide IsNamed;
    ChildrenNamedExact(doc, RootElement(doc), dossier.namespace, "Documents", documents);
    ChildrenNamedExact(doc, documents, dossier.namespace, "Document", d.node);
  }

  /** A document's timestamp is a timestamp of that document. */
  lemma InItsDocument(doc: Node, allowed: seq<string>, maxDocuments: nat, dossier: Dossier, plans: seq<StampPlan>, stamping: Stamping,
                      tokens: seq<string>, i: nat, d: Document)
    requires ParseDossier(doc, allowed, maxDocuments) == Ok(dossier) && doc.Root? && "" !in allowed && d in dossier.documents
    requires Spots(doc, StampPlaces(plans)) && |tokens| == |plans| && i < |plans| && StampPlaces(plans)[i] in StampPlaces(plans)
    requires plans[i].container == d.node
    ensures var w, place := StampedDocument(doc, plans, stamping, tokens), NextKid(doc, d.node);
            var nodes := DocumentNodes(w, dossier.namespace);
            && Valid(w, place) && ScopeOfStamp(w, dossier.namespace, nodes, place) == Some(OnDocument(d.index))
            && nodes == DocumentNodes(doc, dossier.namespace)
  {
    hide ParseDossier, Grown, RootElement, Modelled, DocumentNodes, IsNamed, SameHead, StampNode, Layout, IdMap;
    var w, place := StampedDocument(doc, plans, stamping, tokens), NextKid(doc, d.node);
    var profile, documents := AcceptedDossier(doc, allowed, maxDocuments, dossier);
    var m := MemberAt(dossier.documents, d);
    DocumentIsDeep(doc, dossier, profile, documents, d);
    KidsInPlace(doc, StampPlaces(plans), Stamps(plans, stamping, tokens));
    StampedRoot(doc, plans, stamping, tokens);
    StampedDocuments(doc, plans, stamping, tokens, dossier.namespace);
    DocumentNumbered(doc, allowed, maxDocuments, dossier, d);
    GrownHead(doc, StampPlaces(plans), Stamps(plans, stamping, tokens), d.node);
    SameHeadSameName(At(w, d.node), At(doc, d.node), dossier.namespace, "Document");
    assert Parent(place) == d.node;
  }

  /** Every profile's `OBJREF` names something, once a leading `#` is dropped. */
  lemma ProfileResolves(doc: Node, allowed: seq<string>, maxDocuments: nat, dossier: Dossier, profile: Path)
    requires ParseDossier(doc, allowed, maxDocuments) == Ok(dossier)
    requires IsElement(doc, profile) && IsNamed(At(doc, profile), dossier.namespace, "DocumentProfile")
    requires AttributeOf(At(doc, profile), "OBJREF").Some?
    ensures IdMap(doc).Some? && NormalizeReference(AttributeOf(At(doc, profile), "OBJREF").value) in IdMap(doc).value
  {
    hide IdMap, IsNamed, RequireId, RequireObjref, ParseDocuments, RootElement, RequiredChild;
    ElementListed(doc, profile);
    var ids := IdMap(doc).value;
    assert ProfileRefsResolve(doc, dossier.namespace, ids);
    assert ProfileRefResolves(doc, profile, dossier.namespace, ids);
  }

  lemma StampIdsStart(plan: StampPlan, doc: Node, namespace: string, a: string, b: string)
    requires StampBuilt(doc, namespace, plan, a, b)
    ensures plan.id != "" && plan.id[0] != '#'
  {
    hide CheckId, IncludesKid, HasTimestamp, CoversAncestorOrSelf, Decimal, ById;
    var k: nat :| plan.id == Candidate(StampBase(plan.documentIndex), k);
    assert StampBase(plan.documentIndex)[0] == 't';
  }

  /** No identifier of the run starts with `#`. */
  predicate NoHashIds(plans: seq<StampPlan>) {
    forall x :: x in StampIds(plans) ==> x != "" && x[0] != '#'
  }

  lemma RunHasNoHash(doc: Node, dossier: Dossier, scope: SignScope, plans: seq<StampPlan>, targets: seq<Document>)
    requires StampsFor(doc, dossier, scope, plans, targets)
    ensures NoHashIds(plans)
  {
    hide StampBuilt, ChildId, InOrder, RootElement;
    forall x | x in StampIds(plans)
      ensures x != "" && x[0] != '#'
    {
      var i :| 0 <= i < |plans| && StampIds(plans)[i] == x;
      if scope == DossierScope {
        var root := RootElement(doc);
        StampIdsStart(plans[0], doc, dossier.namespace, ChildId(doc, root, dossier.namespace, "DossierProfile").value,
                      ChildId(doc, root, dossier.namespace, "Documents").value);
      } else {
        assert StampsDocument(doc, dossier.namespace, targets[i], plans[i]);
        StampIdsStart(plans[i], doc, dossier.namespace, ChildId(doc, targets[i].node, dossier.namespace, "DocumentProfile").value,
                      targets[i].objectRef);
      }
    }
  }

  /** What an `OBJREF` names as it stands, it names in the timestamped document too, and nothing new. */
  lemma SamePayloadName(doc: Node, allowed: seq<string>, maxDocuments: nat, dossier: Dossier, plans: seq<StampPlan>, stamping: Stamping,
                        tokens: seq<string>, document: Path)
    requires ParseDossier(doc, allowed, maxDocuments) == Ok(dossier) && IdMap(doc).Some? && NoHashIds(plans) && Valid(doc, document)
    requires Spots(doc, StampPlaces(plans)) && |tokens| == |plans| && IdMap(StampedDocument(doc, plans, stamping, tokens)).Some?
    ensures var w := StampedDocument(doc, plans, stamping, tokens);
            && Valid(w, document)
            && NamedPayload(w, IdMap(w).value, dossier.namespace, document)
               == NamedPayload(doc, IdMap(doc).value, dossier.namespace, document)
  {
    hide ParseDossier, Grown, IdMap, SameHead, StampNode, IsNamed, AttributeOf, Spots, ChildrenNamed, StampIds;
    var w := StampedDocument(doc, plans, stamping, tokens);
    StampedChildren(doc, plans, stamping, tokens, document, dossier.namespace, "DocumentProfile");
    var found := ChildNamed(doc, document, dossier.namespace, "DocumentProfile");
    if found.Some? {
      var profile := found.value;
      ChildrenNamedExact(doc, document, dossier.namespace, "DocumentProfile", profile);
      NamedIsElement(At(doc, profile), dossier.namespace, "DocumentProfile");
      GrownHead(doc, StampPlaces(plans), Stamps(plans, stamping, tokens), profile);
      SameObjref(At(w, profile), At(doc, profile));
      var objref := AttributeOf(At(doc, profile), "OBJREF");
      if objref.Some? {
        ProfileResolves(doc, allowed, maxDocuments, dossier, profile);
        StampedMap(doc, plans, stamping, tokens, objref.value);
        if objref.value in IdMap(doc).value { StampedKeepsEntry(doc, plans, stamping, tokens, objref.value); }
      }
    }
  }

  lemma SameObjref(a: Node, b: Node)
    requires SameHead(a, b)
    ensures AttributeOf(a, "OBJREF") == AttributeOf(b, "OBJREF")
  {
    SameHeadSameAttrs(a, b);
  }

  const PAYLOAD: string := "the document's payload ds:Object"

  /** What a document timestamp must cover is covered, except where the `OBJREF` leads elsewhere. */
  lemma DocumentCovered(doc: Node, allowed: seq<string>, maxDocuments: nat, dossier: Dossier, plans: seq<StampPlan>, stamping: Stamping,
                        tokens: seq<string>, d: Document, profile: Path, payload: Path)
    requires ParseDossier(doc, allowed, maxDocuments) == Ok(dossier) && doc.Root? && "" !in allowed && d in dossier.documents
    requires Spots(doc, StampPlaces(plans)) && |tokens| == |plans| && IdMap(StampedDocument(doc, plans, stamping, tokens)).Some?
    requires NoHashIds(plans) && IdMap(doc).Some? && Valid(doc, d.node)
    requires ChildNamed(doc, d.node, dossier.namespace, "DocumentProfile") == Some(profile) && ById(doc, d.objectRef) == Some(payload)
    ensures var w := StampedDocument(doc, plans, stamping, tokens);
            FirstUncovered(MustCover(w, IdMap(w).value, dossier.namespace, OnDocument(d.index), DocumentNodes(doc, dossier.namespace)),
                           [profile, payload])
            == if ObjrefFits(doc, IdMap(doc).value, dossier.namespace, d.node, profile, payload) then None else Some(PAYLOAD)
  {
    hide ParseDossier, Grown, IdMap, StampNode, ChildrenNamed, ChildNamed, Modelled, DocumentNodes, NamedPayload, Included, Spots, NoHashIds,
         FirstUncovered, Layout, ById;
    var w := StampedDocument(doc, plans, stamping, tokens);
    var p, documents := AcceptedDossier(doc, allowed, maxDocuments, dossier);
    var m := MemberAt(dossier.documents, d);
    DocumentNumbered(doc, allowed, maxDocuments, dossier, d);
    StampedChildren(doc, plans, stamping, tokens, d.node, dossier.namespace, "DocumentProfile");
    StampedChildren(doc, plans, stamping, tokens, d.node, XMLDSIG, "Object");
    SamePayloadName(doc, allowed, maxDocuments, dossier, plans, stamping, tokens, d.node);
    OnlyObject(doc, documents, dossier.namespace, d);
    IncludedItself([profile, payload], profile);
    IncludedItself([profile, payload], payload);
    TwoCoveredByTwo(Some(profile), "the document's es:DocumentProfile", PayloadOf(w, IdMap(w).value, dossier.namespace, d.node), PAYLOAD,
                    [profile, payload]);
  }

  /** The document's only `ds:Object` is the one its identifier names. */
  lemma OnlyObject(doc: Node, documents: Path, namespace: string, d: Document)
    requires IdMap(doc).Some? && Modelled(doc, documents, namespace, d) && ById(doc, d.objectRef).Some?
    ensures ChildNamed(doc, d.node, XMLDSIG, "Object") == ById(doc, d.objectRef)
  {
    hide ById, IdMap, ChildrenNamed, IdOf;
    PayloadFound(doc, documents, namespace, d);
  }

  /** The scope the writer meant. */
  function ScopeOfPlan(plan: StampPlan): ContainerScope {
    match plan.documentIndex
    case Some(i) => OnDocument(i)
    case None => OnDossier
  }

  /** The document's `OBJREF`, as written, leads nowhere but to what the timestamp covers. */
  predicate Fits(doc: Node, namespace: string, plan: StampPlan) {
    plan.documentIndex.Some? ==>
      && |plan.includes| == 2 && ById(doc, plan.includes[0]).Some? && ById(doc, plan.includes[1]).Some?
      && IdMap(doc).Some? && Valid(doc, plan.container)
      && ObjrefFits(doc, IdMap(doc).value, namespace, plan.container, ById(doc, plan.includes[0]).value, ById(doc, plan.includes[1]).value)
  }

  /** What the verifier makes of the timestamp at `place`, the token being `token` and its octets `octets`. */
  predicate Agreed(w: Node, namespace: string, decode: Decoder, place: Path, scope: ContainerScope, token: string, octets: string,
                   fits: bool) {
    && IdMap(w).Some? && Valid(w, place)
    && var prepared := PrepareOne(w, IdMap(w).value, namespace, decode, place);
       if fits then PreparesAs(prepared, scope, decode(token), octets) else prepared == Unprepared(scope, Uncovered(PAYLOAD))
  }

  lemma AgreedBecause(w: Node, namespace: string, decode: Decoder, place: Path, scope: ContainerScope, nodes: seq<Path>,
                      s: Path, t: Path, token: string, octets: string, fits: bool)
    requires IdMap(w).Some? && Valid(w, place) && nodes == DocumentNodes(w, namespace)
    requires ScopeOfStamp(w, namespace, nodes, place) == Some(scope)
    requires FirstUncovered(MustCover(w, IdMap(w).value, namespace, scope, nodes), [s, t]) == if fits then None else Some(PAYLOAD)
    requires var missing := FirstUncovered(MustCover(w, IdMap(w).value, namespace, scope, nodes), [s, t]);
             var prepared := Prepare(w, IdMap(w).value, namespace, decode, place, scope, nodes);
             && (missing.Some? ==> prepared == Unprepared(scope, Uncovered(missing.value)))
             && (missing.None? ==> PreparesAs(prepared, scope, decode(token), octets))
    ensures Agreed(w, namespace, decode, place, scope, token, octets, fits)
  {
    hide IdMap, Valid, DocumentNodes, ScopeOfStamp, FirstUncovered, MustCover, Prepare, PreparesAs;
  }

  lemma BuiltAims(doc: Node, namespace: string, plans: seq<StampPlan>, i: nat, a: string, b: string)
    requires GoodStamps(doc, plans) && IdMap(doc).Some? && i < |plans| && StampBuilt(doc, namespace, plans[i], a, b)
    ensures ById(doc, a).Some? && ById(doc, b).Some? && Spot(doc, plans[i].container)
    ensures IsElement(doc, ById(doc, a).value) && IsElement(doc, ById(doc, b).value)
    ensures OverTwo(doc, plans, i, a, ById(doc, a).value, b, ById(doc, b).value)
  {
    hide HasTimestamp, CoversAncestorOrSelf, Candidate, StampBase, Spots;
    ByIdExact(doc, a);
    ByIdExact(doc, b);
    hide ById;
    assert StampPlaces(plans)[i] in StampPlaces(plans);
  }

  lemma DocumentAgrees(doc: Node, allowed: seq<string>, maxDocuments: nat, dossier: Dossier, plans: seq<StampPlan>, stamping: Stamping,
                       tokens: seq<string>, i: nat, d: Document, decode: Decoder)
    returns (octets: string)
    requires ParseDossier(doc, allowed, maxDocuments) == Ok(dossier) && doc.Root? && "" !in allowed && d in dossier.documents
    requires GoodStamps(doc, plans) && IdMap(doc).Some? && |tokens| == |plans| && i < |plans| && stamping.namespace == dossier.namespace
    requires IdMap(StampedDocument(doc, plans, stamping, tokens)).Some? && NoHashIds(plans)
    requires StampsDocument(doc, dossier.namespace, d, plans[i])
    ensures forall other: seq<string> :: |other| == |plans| ==>
              Imprint(StampedDocument(doc, plans, stamping, other), plans[i].includes) == Ok(octets)
    ensures Spot(doc, plans[i].container)
    ensures Agreed(StampedDocument(doc, plans, stamping, tokens), dossier.namespace, decode, NextKid(doc, plans[i].container),
                   ScopeOfPlan(plans[i]), tokens[i], octets, Fits(doc, dossier.namespace, plans[i]))
  {
    hide ParseDossier, Grown, IdMap, StampNode, ChildrenNamed, ChildNamed, DocumentNodes, Spots, NoHashIds, FirstUncovered, Layout, ById, Imprint,
         Canonical, Aims, StampBuilt, ChildId, MustCover, Prepare, ScopeOfStamp, Agreed, ObjrefFits, NextKid, PreparesAs, Modelled;
    var namespace := dossier.namespace;
    var a, b := ChildId(doc, d.node, namespace, "DocumentProfile").value, d.objectRef;
    var p, documents := AcceptedDossier(doc, allowed, maxDocuments, dossier);
    BuiltAims(doc, namespace, plans, i, a, b);
    var w, place := StampedDocument(doc, plans, stamping, tokens), NextKid(doc, plans[i].container);
    var s, t := ById(doc, a).value, ById(doc, b).value;
    ChildIdFound(doc, d.node, namespace, "DocumentProfile");
    octets := Canonical(doc, s) + Canonical(doc, t);
    forall other: seq<string> | |other| == |plans|
      ensures Imprint(StampedDocument(doc, plans, stamping, other), plans[i].includes) == Ok(octets)
    {
      StampedImprint(doc, plans, stamping, other, i, a, s, b, t);
    }
    InItsDocument(doc, allowed, maxDocuments, dossier, plans, stamping, tokens, i, d);
    DocumentCovered(doc, allowed, maxDocuments, dossier, plans, stamping, tokens, d, s, t);
    StampPrepared(doc, plans, stamping, tokens, i, a, s, b, t, decode, OnDocument(d.index), DocumentNodes(w, namespace));
    assert plans[i].includes == [a, b] by { BuiltIncludes(doc, namespace, plans[i], a, b); }
    AgreedBecause(w, namespace, decode, place, OnDocument(d.index), DocumentNodes(w, namespace), s, t, tokens[i], octets,
                  Fits(doc, namespace, plans[i]));
  }

  lemma BuiltIncludes(doc: Node, namespace: string, plan: StampPlan, a: string, b: string)
    requires StampBuilt(doc, namespace, plan, a, b)
    ensures plan.includes == [a, b]
  {}

  // -------------------------------------------------------- dossier timestamps

  lemma DossierAgrees(doc: Node, allowed: seq<string>, maxDocuments: nat, dossier: Dossier, plans: seq<StampPlan>, stamping: Stamping,
                      tokens: seq<string>, decode: Decoder)
    returns (octets: string)
    requires ParseDossier(doc, allowed, maxDocuments) == Ok(dossier) && doc.Root? && "" !in allowed
    requires GoodStamps(doc, plans) && IdMap(doc).Some? && |tokens| == |plans| == 1 && stamping.namespace == dossier.namespace
    requires IdMap(StampedDocument(doc, plans, stamping, tokens)).Some?
    requires StampsDossier(doc, dossier.namespace, plans[0])
    ensures forall other: seq<string> :: |other| == |plans| ==>
              Imprint(StampedDocument(doc, plans, stamping, other), plans[0].includes) == Ok(octets)
    ensures Spot(doc, plans[0].container)
    ensures Agreed(StampedDocument(doc, plans, stamping, tokens), dossier.namespace, decode, NextKid(doc, plans[0].container),
                   ScopeOfPlan(plans[0]), tokens[0], octets, Fits(doc, dossier.namespace, plans[0]))
  {
    hide ParseDossier, Grown, IdMap, StampNode, ChildrenNamed, ChildNamed, DocumentNodes, Spots, FirstUncovered, Layout, ById, Imprint,
         Canonical, Aims, StampBuilt, ChildId, Prepare, Agreed, ObjrefFits, PreparesAs, Modelled, RootElement, Included;
    var namespace, root := dossier.namespace, RootElement(doc);
    var a, b := ChildId(doc, root, namespace, "DossierProfile").value, ChildId(doc, root, namespace, "Documents").value;
    var p, documents := AcceptedDossier(doc, allowed, maxDocuments, dossier);
    BuiltAims(doc, namespace, plans, 0, a, b);
    var w, place := StampedDocument(doc, plans, stamping, tokens), NextKid(doc, plans[0].container);
    var s, t := ById(doc, a).value, ById(doc, b).value;
    ChildIdFound(doc, root, namespace, "DossierProfile");
    ChildIdFound(doc, root, namespace, "Documents");
    octets := Canonical(doc, s) + Canonical(doc, t);
    forall other: seq<string> | |other| == |plans|
      ensures Imprint(StampedDocument(doc, plans, stamping, other), plans[0].includes) == Ok(octets)
    {
      StampedImprint(doc, plans, stamping, other, 0, a, s, b, t);
    }
    StampedRoot(doc, plans, stamping, tokens);
    StampedChildren(doc, plans, stamping, tokens, root, namespace, "DossierProfile");
    StampedChildren(doc, plans, stamping, tokens, root, namespace, "Documents");
    StampPrepared(doc, plans, stamping, tokens, 0, a, s, b, t, decode, OnDossier, DocumentNodes(w, namespace));
    IncludedItself([s, t], s);
    IncludedItself([s, t], t);
    TwoCoveredByTwo(Some(s), "the es:DossierProfile", Some(t), "the es:Documents element", [s, t]);
    assert Parent(place) == root;
    AgreedBecause(w, namespace, decode, place, OnDossier, DocumentNodes(w, namespace), s, t, tokens[0], octets, true);
  }

  // -------------------------------------------------------------- the theorem

  /** One timestamp of a finished run: its token was requested over exactly the octets the verifier
      recomputes in the finished document. */
  ghost predicate StampStands(doc: Node, w: Node, dossier: Dossier, plan: StampPlan, i: nat, token: string, authority: Authority,
                              decode: Decoder, octets: string) {
    && Spot(doc, plan.container)
    && authority(i, octets) == Some(token)
    && Imprint(w, plan.includes) == Ok(octets)
    && Agreed(w, dossier.namespace, decode, NextKid(doc, plan.container), ScopeOfPlan(plan), token, octets,
              Fits(doc, dossier.namespace, plan))
  }

  lemma EitherAgrees(doc: Node, allowed: seq<string>, maxDocuments: nat, dossier: Dossier, scope: SignScope, plans: seq<StampPlan>,
                     targets: seq<Document>, stamping: Stamping, tokens: seq<string>, i: nat, decode: Decoder)
    returns (octets: string)
    requires ParseDossier(doc, allowed, maxDocuments) == Ok(dossier) && doc.Root? && "" !in allowed
    requires GoodStamps(doc, plans) && IdMap(doc).Some? && |tokens| == |plans| && i < |plans| && stamping.namespace == dossier.namespace
    requires IdMap(StampedDocument(doc, plans, stamping, tokens)).Some? && NoHashIds(plans)
    requires StampsFor(doc, dossier, scope, plans, targets)
    ensures forall other: seq<string> :: |other| == |plans| ==>
              Imprint(StampedDocument(doc, plans, stamping, other), plans[i].includes) == Ok(octets)
    ensures Spot(doc, plans[i].container)
    ensures Agreed(StampedDocument(doc, plans, stamping, tokens), dossier.namespace, decode, NextKid(doc, plans[i].container),
                   ScopeOfPlan(plans[i]), tokens[i], octets, Fits(doc, dossier.namespace, plans[i]))
  {
    hide ParseDossier, Grown, IdMap, StampNode, Spots, Imprint, Agreed, StampsDocument, StampsDossier, NoHashIds, Fits, Spot, NextKid,
         ScopeOfPlan, InOrder;
    if scope == DossierScope {
      octets := DossierAgrees(doc, allowed, maxDocuments, dossier, plans, stamping, tokens, decode);
    } else {
      assert targets[i] in targets;
      octets := DocumentAgrees(doc, allowed, maxDocuments, dossier, plans, stamping, tokens, i, targets[i], decode);
    }
  }

  /** Container timestamps agree on both sides: in the finished document the verifier finds the scope the
      writer meant and recomputes the octets the token was requested over, if and only if the document's
      `OBJREF` as written leads nowhere else. */
  lemma ContainerStampsAgree(doc: Node, allowed: seq<string>, maxDocuments: nat, dossier: Dossier, request: StampRequest,
                             plans: seq<StampPlan>, authority: Authority, tokens: seq<string>, decode: Decoder, i: nat)
    returns (octets: string)
    requires ParseDossier(doc, allowed, maxDocuments) == Ok(dossier) && doc.Root? && "" !in allowed
    requires PlanStamps(doc, dossier, request) == Ok(plans) && TokensFor(doc, allowed, maxDocuments, request, authority) == Ok(tokens)
    requires i < |plans| && NoStampTaken(doc, plans)
    ensures Spots(doc, StampPlaces(plans)) && |tokens| == |plans|
    ensures StampStands(doc, StampedDocument(doc, plans, StampingOf(request, dossier.namespace), tokens), dossier, plans[i], i,
                        tokens[i], authority, decode, octets)
  {
    hide ParseDossier, PlanStamps, Grown, IdMap, StampNode, Spots, Imprint, Agreed, StampsDocument, StampsDossier, NoHashIds, Fits, Spot,
         NextKid, GoodStamps, NoStampTaken, ScopeOfPlan, InOrder, Imprints, RequestTokens, StampsFor;
    var stamping := StampingOf(request, dossier.namespace);
    var profile, documents := AcceptedDossier(doc, allowed, maxDocuments, dossier);
    var targets := StampsPlanned(doc, allowed, maxDocuments, dossier, request);
    StampsAreGood(doc, allowed, maxDocuments, dossier, request.scope, plans, targets);
    RunHasNoHash(doc, dossier, request.scope, plans, targets);
    StampedIdSpace(doc, plans, stamping, tokens);
    octets := EitherAgrees(doc, allowed, maxDocuments, dossier, request.scope, plans, targets, stamping, tokens, i, decode);
    RequestedOver(doc, plans, stamping, authority, tokens, i, octets);
  }

  /** The token was requested over the imprint in the skeleton document. */
  lemma RequestedOver(doc: Node, plans: seq<StampPlan>, stamping: Stamping, authority: Authority, tokens: seq<string>, i: nat,
                      octets: string)
    requires Spots(doc, StampPlaces(plans)) && i < |plans| && RunStamps(doc, plans, stamping, authority) == Ok(tokens)
    requires Imprint(StampedDocument(doc, plans, stamping, StampHoles(plans)), plans[i].includes) == Ok(octets)
    ensures authority(i, octets) == Some(tokens[i])
  {
    hide Grown, Imprint, StampNode, Spots;
    var w := StampedDocument(doc, plans, stamping, StampHoles(plans));
    ImprintsAt(w, plans);
    TokensAt(Imprints(w, plans).value, authority, 0);
  }

  /** Where the `OBJREF` is written without `#`, it always fits. */
  lemma PlainObjrefFits(doc: Node, allowed: seq<string>, maxDocuments: nat, dossier: Dossier, d: Document, plan: StampPlan)
    requires ParseDossier(doc, allowed, maxDocuments) == Ok(dossier) && doc.Root? && "" !in allowed && d in dossier.documents
    requires StampsDocument(doc, dossier.namespace, d, plan)
    requires var named := ChildNamed(doc, d.node, dossier.namespace, "DocumentProfile");
             named.Some? ==> IsElement(doc, named.value)
                             && AttributeOf(At(doc, named.value), "OBJREF") == Some(d.objectRef)
    ensures Fits(doc, dossier.namespace, plan)
  {
    hide ParseDossier, IdMap, ChildrenNamed, ById, StampBuilt, ChildId, Modelled, Layout, IsNamed, AttributeOf, ChildNamed;
    var namespace := dossier.namespace;
    var p, documents := AcceptedDossier(doc, allowed, maxDocuments, dossier);
    var m := MemberAt(dossier.documents, d);
    var a := ChildId(doc, d.node, namespace, "DocumentProfile").value;
    BuiltIncludes(doc, namespace, plan, a, d.objectRef);
    BuiltFinds(doc, namespace, plan, a, d.objectRef);
    var s, t := ById(doc, a).value, ById(doc, d.objectRef).value;
    ByIdExact(doc, d.objectRef);
    ByIdIsTheMap(doc, d.objectRef, t);
    IncludedItself([s, t], t);
  }

  lemma BuiltFinds(doc: Node, namespace: string, plan: StampPlan, a: string, b: string)
    requires StampBuilt(doc, namespace, plan, a, b)
    ensures ById(doc, a).Some? && ById(doc, b).Some?
  {
    hide HasTimestamp, CoversAncestorOrSelf, Candidate, StampBase, ById;
  }

  /** Every timestamp of the run is among those the verifier collects, unless its limit cuts the list. */
  lemma StampIsCollected(doc: Node, plans: seq<StampPlan>, stamping: Stamping, tokens: seq<string>, i: nat, limit: nat)
    requires Spots(doc, StampPlaces(plans)) && |tokens| == |plans| && i < |plans| && doc.Root? && RootElement(doc) != []
    requires Spot(doc, plans[i].container) && RootElement(doc) <= plans[i].container && stamping.namespace != ""
    requires var w, root := StampedDocument(doc, plans, stamping, tokens), RootElement(doc);
             Valid(w, root) && |StampsIn(w, stamping.namespace, Elements(At(w, root), root))| <= limit
    ensures NextKid(doc, plans[i].container) in StampPaths(StampedDocument(doc, plans, stamping, tokens), stamping.namespace, limit)
  {
    hide Grown, Spots, StampNode, RootElement, NextKid;
    var w, root := StampedDocument(doc, plans, stamping, tokens), RootElement(doc);
    var place := NextKid(doc, plans[i].container);
    StampedRoot(doc, plans, stamping, tokens);
    assert StampPlaces(plans)[i] in StampPlaces(plans);
    KidsInPlace(doc, StampPlaces(plans), Stamps(plans, stamping, tokens));
    StampIsNamed(plans[i], stamping, tokens[i]);
    assert root <= place by { BelowPrefix(doc, plans[i].container, root); }
    StampsInExact(w, stamping.namespace, Elements(At(w, root), root));
    ElementsExact(At(w, root), root, place);
    assert place == root + place[|root|..];
    AtConcat(w, root, place[|root|..]);
  }

  lemma BelowPrefix(doc: Node, q: Path, root: Path)
    requires Spot(doc, q) && root <= q
    ensures root <= NextKid(doc, q)
  {}
}
