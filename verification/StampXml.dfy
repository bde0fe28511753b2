/**
 The `es:TimeStamp` element, as a tree with its text.

 The token that does not exist yet stands in it as a placeholder; filling that
 placeholder in the text gives the text of the element with the token.
 */
module StampXml {
  import opened Wrappers
  import opened Strings
  import opened XmlTree
  import opened IdSpace
  import opened References
  import opened SourceText
  import opened Splicing
  import opened Growth
  import opened Placeholders
  import opened Names
  import opened SignatureXml
  import opened SignatureFilling
  import opened SignatureIds
  import opened Passes

  /** `container` is the element the timestamp goes into, `includes` the `Id`s its token covers. */
  datatype StampPlan = StampPlan(id: string, documentIndex: Option<nat>, container: Path, includes: seq<string>)

  /** What every timestamp of one run carries; the certificates are in Base64. */
  datatype Stamping = Stamping(namespace: string, certificateValues: seq<string>)

  function IncludeNode(id: string): Node {
    XadesElement("Include", [Named("URI", "#" + id)], [])
  }

  function IncludeNodes(ids: seq<string>): seq<Node> {
    if ids == [] then [] else [IncludeNode(ids[0])] + IncludeNodes(ids[1..])
  }

  function TokenNode(token: string): Node {
    XadesElement("EncapsulatedTimeStamp", [], Raw(token))
  }

  function StampCertificates(values: seq<string>): seq<Node> {
    if values == [] then [] else [XadesElement("CertificateValues", [], Certificates(values))]
  }

  function StampKids(stamping: Stamping, includes: seq<string>, token: string): seq<Node> {
    [Digesting("CanonicalizationMethod", C14N_EXCLUSIVE)] + IncludeNodes(includes)
    + ([TokenNode(token)] + StampCertificates(stamping.certificateValues))
  }

  function StampDecls(namespace: string): seq<Decl> {
    [Decl("es", namespace), Decl("ds", XMLDSIG), Decl("xades", XADES)]
  }

  function StampNode(plan: StampPlan, stamping: Stamping, token: string): Node {
    Make("es", stamping.namespace, "TimeStamp", StampDecls(stamping.namespace), [Named("Id", plan.id)],
         StampKids(stamping, plan.includes, token))
  }

  function StampHole(id: string): string {
    Hole(MARK + "container-timestamp:" + id)
  }

  // ----------------------------------------------------------------- filling

  predicate TidyStamping(stamping: Stamping) {
    && CheckNamespace(stamping.namespace) && HoleFree(stamping.namespace)
    && forall c :: c in stamping.certificateValues ==> IsPlain(c)
  }

  predicate TidyStamp(plan: StampPlan) {
    IsPlain(plan.id) && forall x :: x in plan.includes ==> IsPlain(x)
  }

  lemma StampHoleIsOurs(id: string)
    requires IsPlain(id)
    ensures OurHole(StampHole(id)) && IsHole(StampHole(id)) && StampHole(id) != ""
  {
    PlainHoleName(MARK + "container-timestamp:", id);
    Begins("container-timestamp:" + id);
    assert MARK + "container-timestamp:" + id == MARK + ("container-timestamp:" + id);
  }

  lemma {:induction false} IncludesInert(ids: seq<string>, h: string)
    requires (forall x :: x in ids ==> IsPlain(x)) && IsHole(h)
    ensures InertAll(IncludeNodes(ids), h) && (IncludeNodes(ids) == [] || !IncludeNodes(ids)[|IncludeNodes(ids)| - 1].Text?)
  {
    hide Make, Inert, InertAll, IsPlain, IsHole, XadesElement, PlainAttrs;
    if ids == [] {
      assert InertAll([], h) by { NothingInert(h); }
    } else {
      assert ids[0] in ids && forall x :: x in ids[1..] ==> x in ids;
      IncludesInert(ids[1..], h);
      LiteralsArePlain();
      OneAttr("URI", "#", ids[0]);
      NothingInert(h);
      InertXades("Include", [Named("URI", "#" + ids[0])], [], h);
      IsXadesElement("Include", [Named("URI", "#" + ids[0])], []);
      InertOne(IncludeNode(ids[0]), h);
      InertConcat([IncludeNode(ids[0])], IncludeNodes(ids[1..]), h);
    }
  }

  lemma NothingInert(h: string)
    ensures InertAll([], h)
  {}

  lemma StampCertificatesInert(values: seq<string>, h: string)
    requires (forall c :: c in values ==> IsPlain(c)) && IsHole(h)
    ensures InertAll(StampCertificates(values), h)
  {
    hide Make, Inert, InertAll, IsPlain, IsHole, Certificates, XadesElement, PlainAttrs;
    NothingInert(h);
    if values != [] {
      CertificatesInert(values, h);
      NoAttrs();
      InertXades("CertificateValues", [], Certificates(values), h);
      InertOne(XadesElement("CertificateValues", [], Certificates(values)), h);
    }
  }

  lemma StampKidsFill(stamping: Stamping, includes: seq<string>, h: string, v: string)
    requires (forall x :: x in includes ==> IsPlain(x)) && (forall c :: c in stamping.certificateValues ==> IsPlain(c)) && IsHole(h)
    ensures Fills(StampKids(stamping, includes, h), h, v, StampKids(stamping, includes, v))
  {
    hide Make, Inert, InertAll, IsPlain, IsHole, XadesElement, PlainAttrs, Raw, Fills, FillsTo, Digesting, StampCertificates, Slot;
    ConstantsArePlain();
    DigestingInert("CanonicalizationMethod", C14N_EXCLUSIVE, h);
    DigestingIsElement("CanonicalizationMethod", C14N_EXCLUSIVE);
    IncludesInert(includes, h);
    var first := Digesting("CanonicalizationMethod", C14N_EXCLUSIVE);
    InertOne(first, h);
    InertConcat([first], IncludeNodes(includes), h);
    var front := [first] + IncludeNodes(includes);
    InertAllFill(front, h, v);
    NoAttrs();
    assert Slot(h, h) by { SelfSlot(h); }
    RawFills(h, h, v);
    FillsXades("EncapsulatedTimeStamp", [], Raw(h), h, v, Raw(v));
    StampCertificatesInert(stamping.certificateValues, h);
    InertAllFill(StampCertificates(stamping.certificateValues), h, v);
    FillsCons(TokenNode(h), StampCertificates(stamping.certificateValues), h, v, TokenNode(v), StampCertificates(stamping.certificateValues));
    assert !front[|front| - 1].Text?;
    FillsConcat(front, [TokenNode(h)] + StampCertificates(stamping.certificateValues), h, v,
                front, [TokenNode(v)] + StampCertificates(stamping.certificateValues));
  }

  lemma SelfSlot(h: string)
    ensures Slot(h, h)
  {}

  /** The other two declarations of the start tag. */
  function FixedDecls(): seq<Decl> {
    [Decl("ds", XMLDSIG), Decl("xades", XADES)]
  }

  lemma TwoDecls(p: string, a: string, q: string, b: string)
    requires EscapeAttributeValue(a) == a && EscapeAttributeValue(b) == b && NoAt(p) && NoAt(a) && NoAt(q) && NoAt(b)
    ensures NoAt(DeclText([Decl(p, a), Decl(q, b)]))
  {
    hide EscapeAttributeValue;
    DeclPieces(q, b);
    var tail := DeclText([Decl(q, b)]);
    assert [Decl(p, a), Decl(q, b)][1..] == [Decl(q, b)];
  }

  lemma NoAtPrefixes()
    ensures NoAt("ds") && NoAt("xades")
  {}

  lemma FixedDeclsNoAt()
    ensures NoAt(DeclText(FixedDecls()))
  {
    hide IsPlain, EscapeAttributeValue, DeclText, NoAt;
    NamespacesArePlain();
    NoAtPrefixes();
    PlainIsWritten(XMLDSIG);
    PlainIsWritten(XADES);
    TwoDecls("ds", XMLDSIG, "xades", XADES);
  }

  lemma RestOfDecls(ns: string)
    requires EscapeAttributeValue(ns) == ns
    ensures DeclText(StampDecls(ns)) == " xmlns:es=\"" + ns + ("\"" + DeclText(FixedDecls()))
  {
    hide EscapeAttributeValue;
    FirstDecl("es", ns, FixedDecls());
    assert StampDecls(ns) == [Decl("es", ns)] + FixedDecls();
    assert " xmlns:" + "es" + "=\"" == " xmlns:es=\"";
  }

  lemma FirstDecl(p: string, ns: string, rest: seq<Decl>)
    requires EscapeAttributeValue(ns) == ns
    ensures DeclText([Decl(p, ns)] + rest) == " xmlns:" + p + "=\"" + ns + ("\"" + DeclText(rest))
  {
    assert ([Decl(p, ns)] + rest)[1..] == rest;
  }

  /** What stands on either side of the namespace in the start tag. */
  const BEFORE_NAMESPACE: string := "<es:TimeStamp xmlns:es=\""

  function AfterNamespace(id: string): string {
    "\"" + DeclText(FixedDecls()) + AttrText([Named("Id", id)]) + ">"
  }

  lemma StampOpenTag(ns: string, id: string)
    requires EscapeAttributeValue(ns) == ns && IsPlain(id)
    ensures OpenTag("es:TimeStamp", StampDecls(ns), [Named("Id", id)], false) == BEFORE_NAMESPACE + ns + AfterNamespace(id)
    ensures NoAt(BEFORE_NAMESPACE) && NoAt(AfterNamespace(id))
  {
    hide DeclText, AttrText, EscapeAttributeValue, StampDecls, IsPlain, FixedDecls;
    RestOfDecls(ns);
    FixedDeclsNoAt();
    OneIdPlain(id);
    PlainAttrText([Named("Id", id)]);
    TagJoin("<es:TimeStamp", " xmlns:es=\"", ns, "\"" + DeclText(FixedDecls()), AttrText([Named("Id", id)]));
    assert "<" + "es:TimeStamp" == "<es:TimeStamp";
  }

  lemma OneIdPlain(id: string)
    requires IsPlain(id)
    ensures PlainAttrs([Named("Id", id)])
  {}

  lemma TagJoin(a: string, b: string, ns: string, c: string, d: string)
    ensures a + (b + ns + c) + d + ">" == (a + b) + ns + (c + d + ">")
  {}

  lemma StampMade(plan: StampPlan, stamping: Stamping, token: string)
    ensures var node := StampNode(plan, stamping, token);
            && node.Element? && node.close == "</es:TimeStamp>" && node.children == StampKids(stamping, plan.includes, token)
            && node.open == OpenTag("es:TimeStamp", StampDecls(stamping.namespace), [Named("Id", plan.id)], false)
            && node == StampNode(plan, stamping, "").(children := node.children)
  {
    hide OpenTag, StampKids;
    SomeKids(stamping, plan.includes, token);
    SomeKids(stamping, plan.includes, "");
    assert "es" + ":" + "TimeStamp" == "es:TimeStamp";
    assert "</" + "es:TimeStamp" + ">" == "</es:TimeStamp>";
  }

  lemma EndTagText(h: string)
    requires IsHole(h)
    ensures TagText("</es:TimeStamp>", h)
  {
    hide IsHole, Contains;
    PlainInert("</es:TimeStamp>", h);
  }

  lemma StartTagText(ns: string, id: string, h: string)
    requires OurHole(h) && HoleFree(ns) && NoAt(BEFORE_NAMESPACE) && NoAt(AfterNamespace(id))
    ensures TagText(BEFORE_NAMESPACE + ns + AfterNamespace(id), h)
  {
    hide HoleFree, Contains, AfterNamespace, NoAt, OurHole;
    AroundNamespace(id);
    DeclaringTag(BEFORE_NAMESPACE, ns, AfterNamespace(id), h);
    TagEnds(BEFORE_NAMESPACE, ns, AfterNamespace(id));
  }

  lemma StampTags(plan: StampPlan, stamping: Stamping, token: string, h: string)
    requires IsPlain(plan.id) && TidyStamping(stamping) && OurHole(h)
    ensures var node := StampNode(plan, stamping, token);
            node.Element? && TagText(node.open, h) && TagText(node.close, h)
  {
    NamespaceIsWritten(stamping.namespace);
    hide StampNode, EscapeAttributeValue, StampDecls, StampKids, HoleFree, IsPlain, IsHole, CheckNamespace, OpenTag, AfterNamespace,
         NoAt, TagText;
    StampOpenTag(stamping.namespace, plan.id);
    StampMade(plan, stamping, token);
    StartTagText(stamping.namespace, plan.id, h);
    EndTagText(h);
  }

  lemma AroundNamespace(id: string)
    ensures var a, b := BEFORE_NAMESPACE, AfterNamespace(id);
            a != "" && a[|a| - 1] == '"' && a[0] == '<' && b != "" && b[0] == '"' && b[|b| - 1] == '>'
  {}

  lemma TagEnds(a: string, s: string, b: string)
    requires a != "" && a[0] == '<' && b != "" && b[|b| - 1] == '>'
    ensures var t := a + s + b; |t| > 1 && t[0] == '<' && t[|t| - 1] == '>'
  {}

  lemma SomeKids(stamping: Stamping, includes: seq<string>, token: string)
    ensures StampKids(stamping, includes, token) != []
  {}

  lemma StampFills(plan: StampPlan, stamping: Stamping, h: string, token: string)
    requires TidyStamp(plan) && TidyStamping(stamping) && OurHole(h)
    ensures FillsTo(StampNode(plan, stamping, h), h, token, StampNode(plan, stamping, token)) && StampNode(plan, stamping, h).Element?
  {
    hide StampNode, StampKids, HoleFree, Contains, IsPlain, CheckNamespace, TagText;
    StampTags(plan, stamping, h, h);
    StampKidsFill(stamping, plan.includes, h, token);
    StampMade(plan, stamping, h);
    StampMade(plan, stamping, token);
  }

  lemma OneValue(node: Node, h: string, v: string, next: Node)
    requires h != "" && Source(node) != "" && Replace(Source(node), h, v) == Source(next)
    ensures LeadsTo(node, [Substitution(h, v)], next)
  {
    hide Source, Replace;
    var values := [Substitution(h, v)];
    assert values[1..] == [] && values[0] == Substitution(h, v);
    assert forall s :: s in values ==> s == Substitution(h, v);
    assert FillFragment(Source(node), values) == FillFragment(Replace(Source(node), h, v), values[1..]);
  }

  /** Filling the token's placeholder in the text of the element gives the text of the filled element. */
  lemma StampLeads(plan: StampPlan, stamping: Stamping, token: string)
    requires TidyStamp(plan) && TidyStamping(stamping)
    ensures LeadsTo(StampNode(plan, stamping, StampHole(plan.id)), [Substitution(StampHole(plan.id), token)],
                    StampNode(plan, stamping, token))
  {
    hide StampNode, IsPlain, StampHole, CleanFor, Fill, TidyStamping, OurHole, LeadsTo;
    var h := StampHole(plan.id);
    StampHoleIsOurs(plan.id);
    StampFills(plan, stamping, h, token);
    FillIsReplace(StampNode(plan, stamping, h), h, token);
    StampHasText(plan, stamping, h);
    OneValue(StampNode(plan, stamping, h), h, token, StampNode(plan, stamping, token));
  }

  lemma StampHasText(plan: StampPlan, stamping: Stamping, token: string)
    ensures Source(StampNode(plan, stamping, token)) != ""
  {
    hide StampNode, StampKids, SourceAll;
    StampMade(plan, stamping, token);
  }

  // -------------------------------------------------------------- identifiers

  lemma {:induction false} NoIdsInIncludes(ids: seq<string>)
    ensures IdBagOf(IncludeNodes(ids)) == NO_IDS
  {
    hide IdBag, AttrBag, Make, XadesElement;
    if ids != [] {
      NoIdsInIncludes(ids[1..]);
      XadesBag("Include", [Named("URI", "#" + ids[0])], []);
      NoAttrBag();
      OtherAttrBag("URI", "#" + ids[0]);
      ConsBag(IncludeNode(ids[0]), IncludeNodes(ids[1..]));
    }
  }

  lemma NoIdsInEvidence(values: seq<string>, token: string)
    ensures IdBagOf([TokenNode(token)] + StampCertificates(values)) == NO_IDS
  {
    hide IdBag, IdBagOf, AttrBag, Make, XadesElement, Raw, Certificates;
    LeafBag("EncapsulatedTimeStamp", token);
    ConsBag(TokenNode(token), StampCertificates(values));
    NoAttrBag();
    CertificatesBag(values);
    XadesBag("CertificateValues", [], Certificates(values));
    KidsBag(XadesElement("CertificateValues", [], Certificates(values)));
  }

  /** A timestamp carries its own identifier and no other. */
  lemma StampBag(plan: StampPlan, stamping: Stamping, token: string)
    ensures IdBag(StampNode(plan, stamping, token)) == multiset{plan.id}
  {
    hide IdBag, IdBagOf, AttrBag, Make, XadesElement, StampCertificates, IncludeNodes, Digesting, TokenNode, StampDecls;
    var front, tail := IncludeNodes(plan.includes), [TokenNode(token)] + StampCertificates(stamping.certificateValues);
    var first := Digesting("CanonicalizationMethod", C14N_EXCLUSIVE);
    DigestingBag("CanonicalizationMethod", C14N_EXCLUSIVE);
    NoIdsInIncludes(plan.includes);
    NoIdsInEvidence(stamping.certificateValues, token);
    ConsBag(first, front);
    BagOfConcat([first] + front, tail);
    OneIdBag(plan.id);
    MakeBag("es", stamping.namespace, "TimeStamp", StampDecls(stamping.namespace), [Named("Id", plan.id)],
            StampKids(stamping, plan.includes, token));
  }
}
