/**
 Filling the placeholders of a signature element gives the same element with
 other values: what a pass does to the text, it does to the `Filling`.
 */
module SignatureFilling {
  import opened Strings
  import opened XmlTree
  import opened References
  import opened Splicing
  import opened Placeholders
  import opened Names
  import opened SignatureXml

  /** What may be written around the placeholders: Base64 and checked names, and a namespace and a
      signing time that hold no placeholder text. */
  predicate TidySigning(signing: Signing) {
    && IsPlain(signing.certificate) && IsPlain(signing.certificateDigest)
    && (forall c :: c in signing.certificateValues ==> IsPlain(c))
    && HoleFree(EscapeTextValue(signing.signingTime))
    && CheckNamespace(signing.namespace) && HoleFree(signing.namespace)
  }

  predicate TidyReference(r: PlannedReference) {
    && IsPlain(r.id) && IsPlain(r.uri)
    && (r.referenceType.Some? ==> IsPlain(r.referenceType.value))
    && (r.mimeType.Some? ==> IsPlain(r.mimeType.value))
  }

  predicate TidyReferences(refs: seq<PlannedReference>) {
    forall r :: r in refs ==> TidyReference(r)
  }

  // ------------------------------------------------------------ static parts

  lemma ExclusiveIsPlain()
    ensures IsPlain(C14N_EXCLUSIVE)
  {}

  lemma HashIsPlain()
    ensures IsPlain(SHA256)
  {}

  lemma ConstantsArePlain()
    ensures IsPlain(C14N_EXCLUSIVE) && IsPlain(SHA256)
  {
    hide IsPlain;
    ExclusiveIsPlain();
    HashIsPlain();
  }

  lemma MoreAlgorithmsPlain()
    ensures IsPlain("http://www.w3.org/2001/04/xmldsig-more#") && IsPlain("rsa-sha256") && IsPlain("ecdsa-sha256")
    ensures IsPlain("http://www.w3.org/2007/05/xmldsig-more#") && IsPlain("sha256-rsa-MGF1")
  {}

  lemma AlgorithmsArePlain(algorithm: SignatureAlgorithm)
    ensures IsPlain(AlgorithmUri(algorithm))
  {
    hide IsPlain;
    MoreAlgorithmsPlain();
    PlainJoin("http://www.w3.org/2001/04/xmldsig-more#", "rsa-sha256");
    PlainJoin("http://www.w3.org/2001/04/xmldsig-more#", "ecdsa-sha256");
    PlainJoin("http://www.w3.org/2007/05/xmldsig-more#", "sha256-rsa-MGF1");
    assert AlgorithmUri(RsaPssSha256) == "http://www.w3.org/2007/05/xmldsig-more#" + "sha256-rsa-MGF1";
    assert AlgorithmUri(RsaSha256) == "http://www.w3.org/2001/04/xmldsig-more#" + "rsa-sha256";
    assert AlgorithmUri(EcdsaP256Sha256) == "http://www.w3.org/2001/04/xmldsig-more#" + "ecdsa-sha256";
  }

  lemma NamespacesArePlain()
    ensures IsPlain(XMLDSIG) && IsPlain(XADES)
  {
    DsigIsPlain();
    hide IsPlain;
    XadesIsPlain();
  }

  lemma DsigIsPlain()
    ensures IsPlain(XMLDSIG)
  {}

  lemma XadesIsPlain()
    ensures IsPlain(XADES)
  {}

  lemma OneAttr(name: string, front: string, id: string)
    requires NoAt(name) && IsPlain(front) && IsPlain(id)
    ensures PlainAttrs([Named(name, front + id)])
  {}

  lemma InertDs(local: string, attrs: seq<Attr>, kids: seq<Node>, h: string)
    requires NoAt(local) && PlainAttrs(attrs) && IsHole(h) && InertAll(kids, h)
    ensures Inert(DsElement(local, attrs, kids), h)
  {
    InertMake("ds", XMLDSIG, local, attrs, kids, h);
  }

  lemma InertXades(local: string, attrs: seq<Attr>, kids: seq<Node>, h: string)
    requires NoAt(local) && PlainAttrs(attrs) && IsHole(h) && InertAll(kids, h)
    ensures Inert(XadesElement(local, attrs, kids), h)
  {
    InertMake("xades", XADES, local, attrs, kids, h);
  }

  lemma InertText(s: string, raw: string, h: string)
    requires !Contains(raw, h)
    ensures InertAll([Text(s, raw)], h)
  {
    assert [Text(s, raw)][1..] == [];
  }

  lemma PlainRaw(s: string, h: string)
    requires IsPlain(s) && IsHole(h)
    ensures InertAll(Raw(s), h)
  {
    PlainIsWritten(s);
    PlainInert(s, h);
    InertText(s, s, h);
  }

  lemma DigestingInert(name: string, uri: string, h: string)
    requires NoAt(name) && IsPlain(uri) && IsHole(h)
    ensures Inert(Digesting(name, uri), h)
  {
    hide Make, Inert, IsPlain, IsHole;
    InertDs(name, [Named("Algorithm", uri)], [], h);
  }

  lemma TransformsInert(h: string)
    requires IsHole(h)
    ensures Inert(TransformsNode(), h)
  {
    hide Make, Inert, InertAll, IsPlain, IsHole, DsElement, Digesting;
    ConstantsArePlain();
    DigestingInert("Transform", C14N_EXCLUSIVE, h);
    InertOne(Digesting("Transform", C14N_EXCLUSIVE), h);
    InertDs("Transforms", [], [Digesting("Transform", C14N_EXCLUSIVE)], h);
  }

  lemma MethodsInert(algorithm: SignatureAlgorithm, h: string)
    requires IsHole(h)
    ensures InertAll(Methods(algorithm), h)
  {
    hide Make, Inert, InertAll, IsPlain, IsHole, AlgorithmUri;
    ConstantsArePlain();
    AlgorithmsArePlain(algorithm);
    DigestingInert("CanonicalizationMethod", C14N_EXCLUSIVE, h);
    DigestingInert("SignatureMethod", AlgorithmUri(algorithm), h);
    DigestingIsElement("CanonicalizationMethod", C14N_EXCLUSIVE);
    InertTwo(Methods(algorithm)[0], Methods(algorithm)[1], h);
  }

  lemma KeyInfoInert(certificate: string, h: string)
    requires IsPlain(certificate) && IsHole(h)
    ensures Inert(KeyInfoNode(certificate), h)
  {
    hide Make, Inert, InertAll, IsPlain, IsHole, DsElement, Raw;
    PlainRaw(certificate, h);
    var leaf := DsElement("X509Certificate", [], Raw(certificate));
    InertDs("X509Certificate", [], Raw(certificate), h);
    InertOne(leaf, h);
    InertDs("X509Data", [], [leaf], h);
    InertOne(DsElement("X509Data", [], [leaf]), h);
    InertDs("KeyInfo", [], [DsElement("X509Data", [], [leaf])], h);
  }

  /** A namespace declaration's tag: the URI sits between quotes, which no placeholder holds. */
  lemma DeclaringTag(before: string, uri: string, after: string, h: string)
    requires OurHole(h) && NoAt(before) && NoAt(after) && HoleFree(uri)
    requires before != "" && before[|before| - 1] == '"' && after != "" && after[0] == '"'
    ensures !Contains(before + uri + after, h)
  {
    HoleFreeHasNone(uri, h);
    PlainInert(before, h);
    PlainInert(after, h);
    InertJoin(before, uri, h);
    InertJoin(before + uri, after, h);
  }

  lemma {:induction false} NamespaceIsWritten(s: string)
    requires forall c :: c in s ==> c != '<' && c != '>' && c != '"' && c != '\'' && c != '&' && !IsControl(c)
    ensures EscapeAttributeValue(s) == s
  {
    if s != "" {
      assert forall c :: c in s[1..] ==> c in s;
      assert s[0] in s && s == [s[0]] + s[1..];
      NamespaceIsWritten(s[1..]);
    }
  }

  /** The start tag of an element with one declaration and one attribute. */
  lemma OpenTagText(prefix: string, local: string, uri: string, name: string, value: string)
    requires EscapeAttributeValue(uri) == uri && EscapeAttributeValue(value) == value
    ensures OpenTag(prefix + ":" + local, [Decl(prefix, uri)], [Named(name, value)], false)
         == "<" + prefix + ":" + local + " xmlns:" + prefix + "=\"" + uri + ("\" " + name + "=\"" + value + "\">")
  {
    DeclPieces(prefix, uri);
    AttrPieces(name, value);
    hide DeclText, AttrText, EscapeAttributeValue;
    var front, middle, attr := "<" + prefix + ":" + local, " xmlns:" + prefix + "=\"", name + "=\"" + value;
    assert "<" + (prefix + ":" + local) == front;
    TagPieces(front, middle, uri, attr);
    assert "\" " + name + "=\"" + value + "\">" == "\" " + attr + "\">";
    assert "<" + prefix + ":" + local + " xmlns:" + prefix + "=\"" == front + middle;
  }

  lemma DeclPieces(prefix: string, uri: string)
    requires EscapeAttributeValue(uri) == uri
    ensures DeclText([Decl(prefix, uri)]) == (" xmlns:" + prefix + "=\"") + uri + "\""
  {
    var decls := [Decl(prefix, uri)];
    assert decls[1..] == [];
  }

  lemma AttrPieces(name: string, value: string)
    requires EscapeAttributeValue(value) == value
    ensures AttrText([Named(name, value)]) == " " + (name + "=\"" + value) + "\""
  {
    var attrs := [Named(name, value)];
    assert attrs[1..] == [];
    assert " " + name + "=\"" + value + "\"" + "" == " " + (name + "=\"" + value) + "\"";
  }

  lemma TagPieces(front: string, decl: string, uri: string, attr: string)
    ensures front + (decl + uri + "\"") + (" " + attr + "\"") + ">" == front + decl + uri + ("\" " + attr + "\">")
  {}

  /** Both tags of an element that declares its own prefix. */
  lemma DeclaringTags(prefix: string, ns: string, local: string, name: string, value: string, kids: seq<Node>, h: string)
    requires NoAt(prefix) && NoAt(local) && NoAt(name) && IsPlain(value) && OurHole(h) && kids != []
    requires EscapeAttributeValue(ns) == ns && HoleFree(ns)
    ensures var node := Make(prefix, ns, local, [Decl(prefix, ns)], [Named(name, value)], kids);
            TagText(node.open, h) && TagText(node.close, h)
  {
    hide OpenTag, DeclText, AttrText, EscapeAttributeValue, HoleFree, Contains, IsPlain, IsHole;
    var node := Make(prefix, ns, local, [Decl(prefix, ns)], [Named(name, value)], kids);
    var before, after := "<" + prefix + ":" + local + " xmlns:" + prefix + "=\"", "\" " + name + "=\"" + value + "\">";
    PlainIsWritten(value);
    OpenTagText(prefix, local, ns, name, value);
    assert node.open == before + ns + after;
    DeclaringTag(before, ns, after, h);
    PlainInert(node.close, h);
  }

  lemma InertDeclaring(prefix: string, ns: string, local: string, name: string, value: string, kids: seq<Node>, h: string)
    requires NoAt(prefix) && NoAt(local) && NoAt(name) && IsPlain(value) && OurHole(h) && kids != []
    requires EscapeAttributeValue(ns) == ns && HoleFree(ns) && InertAll(kids, h)
    ensures Inert(Make(prefix, ns, local, [Decl(prefix, ns)], [Named(name, value)], kids), h)
  {
    hide OpenTag, IsPlain, IsHole, EscapeAttributeValue, HoleFree, Contains;
    DeclaringTags(prefix, ns, local, name, value, kids, h);
  }

  lemma MakeIsElement(prefix: string, ns: string, local: string, decls: seq<Decl>, attrs: seq<Attr>, kids: seq<Node>)
    ensures Make(prefix, ns, local, decls, attrs, kids).Element?
  {}

  lemma ProfileInert(id: string, namespace: string, h: string)
    requires IsPlain(id) && CheckNamespace(namespace) && HoleFree(namespace) && OurHole(h)
    ensures Inert(ProfileNode(id, namespace), h)
  {
    NamespaceIsWritten(namespace);
    LiteralsArePlain();
    hide Make, Inert, InertAll, IsPlain, IsHole, EscapeAttributeValue, HoleFree, CheckNamespace, Raw;
    PlainRaw("signature", h);
    PlainRaw("openSzigno", h);
    InertMake("es", namespace, "Type", [], Raw("signature"), h);
    InertMake("es", namespace, "Generator", [], Raw("openSzigno"), h);
    var kind, generator := Make("es", namespace, "Type", [], [], Raw("signature")),
                           Make("es", namespace, "Generator", [], [], Raw("openSzigno"));
    MakeIsElement("es", namespace, "Type", [], [], Raw("signature"));
    InertTwo(kind, generator, h);
    PlainJoin("sigprof-", id);
    InertDeclaring("es", namespace, "SignatureProfile", "Id", ProfileId(id), [kind, generator], h);
  }

  lemma LiteralsArePlain()
    ensures IsPlain("signature") && IsPlain("openSzigno")
    ensures IsPlain("sigprof-") && IsPlain("profile-") && IsPlain("xades-") && IsPlain("signed-props-") && IsPlain("#")
  {}

  lemma PlainJoin(a: string, b: string)
    requires IsPlain(a) && IsPlain(b)
    ensures IsPlain(a + b)
  {}

  lemma ProfileObjectInert(id: string, namespace: string, h: string)
    requires IsPlain(id) && CheckNamespace(namespace) && HoleFree(namespace) && OurHole(h)
    ensures Inert(ProfileObjectNode(id, namespace), h)
  {
    hide Make, Inert, InertAll, IsPlain, IsHole, HoleFree, CheckNamespace, ProfileNode, DsElement, PlainAttrs;
    ProfileInert(id, namespace, h);
    InertOne(ProfileNode(id, namespace), h);
    LiteralsArePlain();
    OneAttr("Id", "profile-", id);
    InertDs("Object", [Named("Id", ProfileObjectId(id))], [ProfileNode(id, namespace)], h);
  }

  lemma CertificateBindingInert(digest: string, h: string)
    requires IsPlain(digest) && IsHole(h)
    ensures Inert(CertificateBinding(digest), h)
  {
    hide Make, Inert, InertAll, IsPlain, IsHole, XadesElement, Raw;
    ConstantsArePlain();
    PlainRaw(digest, h);
    DigestingInert("DigestMethod", SHA256, h);
    InertDs("DigestValue", [], Raw(digest), h);
    var method', value := Digesting("DigestMethod", SHA256), DsElement("DigestValue", [], Raw(digest));
    assert !method'.Text? by { DigestingIsElement("DigestMethod", SHA256); }
    InertTwo(method', value, h);
    var pair := [method', value];
    InertXades("CertDigest", [], pair, h);
    InertOne(XadesElement("CertDigest", [], pair), h);
    InertXades("Cert", [], [XadesElement("CertDigest", [], pair)], h);
    var cert := XadesElement("Cert", [], [XadesElement("CertDigest", [], pair)]);
    InertOne(cert, h);
    InertXades("SigningCertificateV2", [], [cert], h);
  }

  lemma DigestingIsElement(name: string, uri: string)
    ensures Digesting(name, uri).Element?
  {}

  lemma SignaturePropertiesInert(signing: Signing, h: string)
    requires TidySigning(signing) && OurHole(h)
    ensures Inert(SignatureProperties(signing), h)
  {
    hide Make, Inert, InertAll, IsPlain, IsHole, Contains, CertificateBinding, EscapeTextValue, CheckNamespace;
    HoleFreeHasNone(EscapeTextValue(signing.signingTime), h);
    var time, binding := XadesElement("SigningTime", [], Escaped(signing.signingTime)), CertificateBinding(signing.certificateDigest);
    InertText(signing.signingTime, EscapeTextValue(signing.signingTime), h);
    InertXades("SigningTime", [], Escaped(signing.signingTime), h);
    CertificateBindingInert(signing.certificateDigest, h);
    assert time.Element? by { IsXadesElement("SigningTime", [], Escaped(signing.signingTime)); }
    InertTwo(time, binding, h);
    InertXades("SignedSignatureProperties", [], [time, binding], h);
  }

  lemma IsXadesElement(local: string, attrs: seq<Attr>, kids: seq<Node>)
    ensures XadesElement(local, attrs, kids).Element?
  {}

  lemma FormatInert(r: PlannedReference, mime: string, h: string)
    requires IsPlain(r.id) && IsPlain(mime) && IsHole(h)
    ensures Inert(Format(r, mime), h) && Format(r, mime).Element?
  {
    hide Make, Inert, InertAll, IsPlain, IsHole, Contains, EscapeTextValue, PlainAttrs;
    PlainIsWritten(mime);
    PlainRaw(mime, h);
    InertXades("MimeType", [], Raw(mime), h);
    InertOne(XadesElement("MimeType", [], Raw(mime)), h);
    LiteralsArePlain();
    OneAttr("ObjectReference", "#", r.id);
    InertXades("DataObjectFormat", [Named("ObjectReference", "#" + r.id)], [XadesElement("MimeType", [], Raw(mime))], h);
    IsXadesElement("DataObjectFormat", [Named("ObjectReference", "#" + r.id)], [XadesElement("MimeType", [], Raw(mime))]);
  }

  lemma {:induction false} FormatsInert(refs: seq<PlannedReference>, h: string)
    requires TidyReferences(refs) && IsHole(h)
    ensures InertAll(Formats(refs), h)
  {
    hide Inert, Format, IsPlain, IsHole;
    if refs != [] {
      assert refs[0] in refs;
      FormatsInert(refs[1..], h);
      if refs[0].mimeType.Some? {
        var first := Format(refs[0], refs[0].mimeType.value);
        FormatInert(refs[0], refs[0].mimeType.value, h);
        InertOne(first, h);
        InertConcat([first], Formats(refs[1..]), h);
      } else {
        assert Formats(refs) == Formats(refs[1..]);
      }
    }
  }

  lemma SignedPropertiesInert(id: string, signing: Signing, refs: seq<PlannedReference>, h: string)
    requires IsPlain(id) && TidySigning(signing) && TidyReferences(refs) && OurHole(h)
    ensures Inert(SignedPropertiesNode(id, signing, refs), h)
  {
    hide Make, Inert, InertAll, IsPlain, IsHole, SignatureProperties, Formats, TidySigning, XadesElement, PlainAttrs;
    SignaturePropertiesInert(signing, h);
    FormatsInert(refs, h);
    var first := SignatureProperties(signing);
    InertOne(first, h);
    if Formats(refs) != [] {
      var objects := XadesElement("SignedDataObjectProperties", [], Formats(refs));
      assert PlainAttrs([]) by { NoAttrs(); }
      InertXades("SignedDataObjectProperties", [], Formats(refs), h);
      SignaturePropertiesElement(signing);
      InertTwo(first, objects, h);
      assert [first] + [objects] == [first, objects];
    } else {
      assert [first] + [] == [first];
    }
    LiteralsArePlain();
    OneAttr("Id", "signed-props-", id);
    InertXades("SignedProperties", [Named("Id", SignedPropertiesId(id))],
               [first] + (if Formats(refs) == [] then [] else [XadesElement("SignedDataObjectProperties", [], Formats(refs))]), h);
  }

  lemma NoAttrs()
    ensures PlainAttrs([])
  {}

  lemma SignaturePropertiesElement(signing: Signing)
    ensures SignatureProperties(signing).Element?
  {}

  lemma {:induction false} CertificatesInert(values: seq<string>, h: string)
    requires (forall c :: c in values ==> IsPlain(c)) && IsHole(h)
    ensures InertAll(Certificates(values), h)
  {
    hide Make, Inert, IsPlain, IsHole, Raw;
    if values != [] {
      CertificatesInert(values[1..], h);
      PlainRaw(values[0], h);
      var first := XadesElement("EncapsulatedX509Certificate", [], Raw(values[0]));
      InertXades("EncapsulatedX509Certificate", [], Raw(values[0]), h);
      InertOne(first, h);
      IsXadesElement("EncapsulatedX509Certificate", [], Raw(values[0]));
      InertConcat([first], Certificates(values[1..]), h);
    }
  }

  lemma CertificateKidsInert(signing: Signing, h: string)
    requires TidySigning(signing) && IsHole(h)
    ensures InertAll(CertificateKids(signing), h)
  {
    hide Make, Inert, IsPlain, IsHole, Certificates, HoleFree, CheckNamespace;
    var values := signing.certificateValues;
    if values != [] {
      CertificatesInert(values, h);
      InertXades("CertificateValues", [], Certificates(values), h);
      InertOne(XadesElement("CertificateValues", [], Certificates(values)), h);
    }
  }

  // ------------------------------------------------------- the filled parts

  /** A value position while `h` is being filled: the placeholder itself, or text without it. */
  predicate Slot(d: string, h: string) {
    d == h || !Contains(d, h)
  }

  function Swap(d: string, h: string, v: string): string {
    if d == h then v else d
  }

  function SwapAll(ds: seq<string>, h: string, v: string): (r: seq<string>)
    ensures |r| == |ds|
  {
    if ds == [] then [] else [Swap(ds[0], h, v)] + SwapAll(ds[1..], h, v)
  }

  function SwapIn(f: Filling, h: string, v: string): Filling {
    Filling(SwapAll(f.digests, h, v), Swap(f.value, h, v), Swap(f.token, h, v))
  }

  predicate Slots(f: Filling, h: string) {
    (forall d :: d in f.digests ==> Slot(d, h)) && Slot(f.value, h) && Slot(f.token, h)
  }

  /** A child list: clean for `h`, and what filling makes of it. */
  predicate Fills(kids: seq<Node>, h: string, v: string, filled: seq<Node>) {
    CleanAll(kids, h) && FillAll(kids, h, v) == filled && |kids| == |filled|
  }

  predicate FillsTo(node: Node, h: string, v: string, filled: Node) {
    CleanFor(node, h) && Fill(node, h, v) == filled
  }

  lemma FillsMake(prefix: string, ns: string, local: string, attrs: seq<Attr>, kids: seq<Node>, h: string, v: string,
                  filled: seq<Node>)
    requires NoAt(prefix) && NoAt(local) && PlainAttrs(attrs) && IsHole(h) && Fills(kids, h, v, filled)
    ensures FillsTo(Make(prefix, ns, local, [], attrs, kids), h, v, Make(prefix, ns, local, [], attrs, filled))
  {
    PlainTags(prefix, ns, local, attrs, kids, h);
  }

  lemma FillsOne(node: Node, h: string, v: string, filled: Node)
    requires FillsTo(node, h, v, filled)
    ensures Fills([node], h, v, [filled])
  {
    assert [node][1..] == [];
  }

  lemma {:induction false} FillsConcat(a: seq<Node>, b: seq<Node>, h: string, v: string, fa: seq<Node>, fb: seq<Node>)
    requires Fills(a, h, v, fa) && Fills(b, h, v, fb) && (a == [] || !a[|a| - 1].Text?)
    ensures Fills(a + b, h, v, fa + fb)
  {
    if a == [] {
      assert a + b == b && fa + fb == fb;
    } else {
      assert (a + b)[1..] == a[1..] + b;
      FillsConcat(a[1..], b, h, v, fa[1..], fb);
      assert fa + fb == [fa[0]] + (fa[1..] + fb);
    }
  }

  lemma FillsCons(node: Node, rest: seq<Node>, h: string, v: string, filled: Node, after: seq<Node>)
    requires FillsTo(node, h, v, filled) && Fills(rest, h, v, after) && !node.Text?
    ensures Fills([node] + rest, h, v, [filled] + after)
  {
    assert ([node] + rest)[1..] == rest;
  }

  lemma InertFills(node: Node, h: string, v: string)
    requires Inert(node, h)
    ensures FillsTo(node, h, v, node)
  {
    InertStays(node, h, v);
  }

  lemma InertAllFill(kids: seq<Node>, h: string, v: string)
    requires InertAll(kids, h)
    ensures Fills(kids, h, v, kids)
  {
    InertAllStay(kids, h, v);
  }

  lemma RawFills(d: string, h: string, v: string)
    requires Slot(d, h)
    ensures Fills(Raw(d), h, v, Raw(Swap(d, h, v)))
  {
    assert Raw(d)[1..] == [];
  }

  lemma FillsDs(local: string, attrs: seq<Attr>, kids: seq<Node>, h: string, v: string, filled: seq<Node>)
    requires NoAt(local) && PlainAttrs(attrs) && IsHole(h) && Fills(kids, h, v, filled)
    ensures FillsTo(DsElement(local, attrs, kids), h, v, DsElement(local, attrs, filled))
    ensures DsElement(local, attrs, kids).Element?
  {
    FillsMake("ds", XMLDSIG, local, attrs, kids, h, v, filled);
  }

  lemma FillsXades(local: string, attrs: seq<Attr>, kids: seq<Node>, h: string, v: string, filled: seq<Node>)
    requires NoAt(local) && PlainAttrs(attrs) && IsHole(h) && Fills(kids, h, v, filled)
    ensures FillsTo(XadesElement(local, attrs, kids), h, v, XadesElement(local, attrs, filled))
    ensures XadesElement(local, attrs, kids).Element?
  {
    FillsMake("xades", XADES, local, attrs, kids, h, v, filled);
  }

  lemma ReferenceAttrsPlain(r: PlannedReference)
    requires TidyReference(r)
    ensures PlainAttrs(ReferenceAttrs(r))
  {
    hide IsPlain;
  }

  lemma ReferenceFills(r: PlannedReference, d: string, h: string, v: string)
    requires TidyReference(r) && IsHole(h) && Slot(d, h)
    ensures FillsTo(ReferenceNode(r, d), h, v, ReferenceNode(r, Swap(d, h, v))) && ReferenceNode(r, d).Element?
  {
    hide Make, DsElement, FillsTo, Fills, PlainAttrs, IsPlain, IsHole, TransformsNode, Digesting, Raw, Slot, Swap, ReferenceAttrs;
    var now := Swap(d, h, v);
    var transforms, method' := TransformsNode(), Digesting("DigestMethod", SHA256);
    var a, b := DsElement("DigestValue", [], Raw(d)), DsElement("DigestValue", [], Raw(now));
    NoAttrs();
    RawFills(d, h, v);
    FillsDs("DigestValue", [], Raw(d), h, v, Raw(now));
    FillsOne(a, h, v, b);
    ConstantsArePlain();
    DigestingInert("DigestMethod", SHA256, h);
    DigestingIsElement("DigestMethod", SHA256);
    InertFills(method', h, v);
    FillsCons(method', [a], h, v, method', [b]);
    TransformsInert(h);
    InertFills(transforms, h, v);
    assert transforms.Element? by { TransformsElement(); }
    FillsCons(transforms, [method'] + [a], h, v, transforms, [method'] + [b]);
    assert [transforms] + ([method'] + [a]) == [transforms, method', a];
    assert [transforms] + ([method'] + [b]) == [transforms, method', b];
    ReferenceAttrsPlain(r);
    FillsDs("Reference", ReferenceAttrs(r), [transforms, method', a], h, v, [transforms, method', b]);
  }

  lemma TransformsElement()
    ensures TransformsNode().Element?
  {}

  lemma {:induction false} ReferencesFill(refs: seq<PlannedReference>, ds: seq<string>, h: string, v: string)
    requires |refs| == |ds| && TidyReferences(refs) && IsHole(h) && forall d :: d in ds ==> Slot(d, h)
    ensures Fills(ReferenceNodes(refs, ds), h, v, ReferenceNodes(refs, SwapAll(ds, h, v)))
  {
    hide ReferenceNode, FillsTo, TidyReference, IsHole, Slot, Swap;
    if refs != [] {
      assert refs[0] in refs && ds[0] in ds;
      ReferenceFills(refs[0], ds[0], h, v);
      ReferencesFill(refs[1..], ds[1..], h, v);
      FillsCons(ReferenceNode(refs[0], ds[0]), ReferenceNodes(refs[1..], ds[1..]), h, v,
                ReferenceNode(refs[0], Swap(ds[0], h, v)), ReferenceNodes(refs[1..], SwapAll(ds[1..], h, v)));
      assert SwapAll(ds, h, v)[1..] == SwapAll(ds[1..], h, v);
    }
  }

  lemma MethodsAreElements(algorithm: SignatureAlgorithm)
    ensures |Methods(algorithm)| == 2 && Methods(algorithm)[1].Element?
  {}

  lemma SignedInfoFills(algorithm: SignatureAlgorithm, refs: seq<PlannedReference>, ds: seq<string>, h: string, v: string)
    requires |refs| == |ds| && TidyReferences(refs) && IsHole(h) && forall d :: d in ds ==> Slot(d, h)
    ensures FillsTo(SignedInfoNode(algorithm, refs, ds), h, v, SignedInfoNode(algorithm, refs, SwapAll(ds, h, v)))
    ensures SignedInfoNode(algorithm, refs, ds).Element?
  {
    hide Make, DsElement, FillsTo, Fills, PlainAttrs, IsHole, Slot, Methods, ReferenceNodes, TidyReferences;
    MethodsInert(algorithm, h);
    MethodsAreElements(algorithm);
    InertAllFill(Methods(algorithm), h, v);
    ReferencesFill(refs, ds, h, v);
    var now := ReferenceNodes(refs, SwapAll(ds, h, v));
    FillsConcat(Methods(algorithm), ReferenceNodes(refs, ds), h, v, Methods(algorithm), now);
    NoAttrs();
    FillsDs("SignedInfo", [], Methods(algorithm) + ReferenceNodes(refs, ds), h, v, Methods(algorithm) + now);
  }

  lemma TimeStampFills(token: string, h: string, v: string)
    requires IsHole(h) && Slot(token, h)
    ensures FillsTo(TimeStampNode(token), h, v, TimeStampNode(Swap(token, h, v))) && TimeStampNode(token).Element?
  {
    hide Make, XadesElement, FillsTo, Fills, PlainAttrs, IsHole, Slot, Swap, Raw;
    var now := Swap(token, h, v);
    NoAttrs();
    RawFills(token, h, v);
    FillsXades("EncapsulatedTimeStamp", [], Raw(token), h, v, Raw(now));
    var a, b := XadesElement("EncapsulatedTimeStamp", [], Raw(token)), XadesElement("EncapsulatedTimeStamp", [], Raw(now));
    FillsOne(a, h, v, b);
    FillsXades("SignatureTimeStamp", [], [a], h, v, [b]);
  }

  lemma EvidenceFills(signing: Signing, token: string, h: string, v: string)
    requires TidySigning(signing) && IsHole(h) && Slot(token, h)
    ensures Fills(Evidence(signing, token), h, v, Evidence(signing, Swap(token, h, v)))
  {
    hide TimeStampNode, CertificateKids, FillsTo, Fills, IsHole, Slot, Swap, TidySigning;
    CertificateKidsInert(signing, h);
    InertAllFill(CertificateKids(signing), h, v);
    if signing.timestamped {
      TimeStampFills(token, h, v);
      FillsCons(TimeStampNode(token), CertificateKids(signing), h, v, TimeStampNode(Swap(token, h, v)), CertificateKids(signing));
    } else {
      assert [] + CertificateKids(signing) == CertificateKids(signing);
    }
  }

  lemma UnsignedFills(signing: Signing, token: string, h: string, v: string)
    requires TidySigning(signing) && IsHole(h) && Slot(token, h)
    ensures Fills(Unsigned(signing, token), h, v, Unsigned(signing, Swap(token, h, v)))
  {
    hide Make, XadesElement, FillsTo, PlainAttrs, IsHole, Slot, Swap, Evidence, TidySigning;
    var before, after := Evidence(signing, token), Evidence(signing, Swap(token, h, v));
    EvidenceFills(signing, token, h, v);
    if before != [] {
      var a, b := XadesElement("UnsignedSignatureProperties", [], before), XadesElement("UnsignedSignatureProperties", [], after);
      NoAttrs();
      FillsXades("UnsignedSignatureProperties", [], before, h, v, after);
      FillsOne(a, h, v, b);
      FillsXades("UnsignedProperties", [], [a], h, v, [b]);
      FillsOne(XadesElement("UnsignedProperties", [], [a]), h, v, XadesElement("UnsignedProperties", [], [b]));
    }
  }

  /** An element that declares one of the fixed namespaces. */
  lemma FillsDeclaring(prefix: string, ns: string, local: string, name: string, value: string, kids: seq<Node>, h: string,
                       v: string, filled: seq<Node>)
    requires NoAt(prefix) && IsPlain(ns) && NoAt(local) && NoAt(name) && IsPlain(value) && OurHole(h)
    requires Fills(kids, h, v, filled) && kids != []
    ensures FillsTo(Make(prefix, ns, local, [Decl(prefix, ns)], [Named(name, value)], kids), h, v,
                    Make(prefix, ns, local, [Decl(prefix, ns)], [Named(name, value)], filled))
  {
    hide OpenTag, IsPlain, IsHole, EscapeAttributeValue, Contains;
    PlainIsWritten(ns);
    PlainHasNoHole(ns);
    DeclaringTags(prefix, ns, local, name, value, kids, h);
  }

  lemma PlainHasNoHole(s: string)
    requires NoAt(s)
    ensures HoleFree(s)
  {
    assert ("@@" + MARK)[0] == '@';
    forall i | 0 <= i <= |s|
      ensures !("@@" + MARK <= s[i..])
    {
      if i < |s| { assert s[i..][0] in s; }
    }
  }

  lemma QualifyingFills(id: string, signing: Signing, refs: seq<PlannedReference>, token: string, h: string, v: string)
    requires IsPlain(id) && TidySigning(signing) && TidyReferences(refs) && OurHole(h) && Slot(token, h)
    ensures FillsTo(QualifyingObjectNode(id, signing, refs, token), h, v,
                    QualifyingObjectNode(id, signing, refs, Swap(token, h, v)))
  {
    hide Make, DsElement, XadesElement, FillsTo, Fills, PlainAttrs, IsPlain, IsHole, Slot, Swap, SignedPropertiesNode,
         Unsigned, TidySigning, TidyReferences;
    var now := Swap(token, h, v);
    var signed := SignedPropertiesNode(id, signing, refs);
    SignedPropertiesInert(id, signing, refs, h);
    SignedPropertiesElement(id, signing, refs);
    InertFills(signed, h, v);
    UnsignedFills(signing, token, h, v);
    FillsCons(signed, Unsigned(signing, token), h, v, signed, Unsigned(signing, now));
    LiteralsArePlain();
    NamespacesArePlain();
    PlainJoin("#", id);
    FillsDeclaring("xades", XADES, "QualifyingProperties", "Target", "#" + id, [signed] + Unsigned(signing, token), h, v,
                   [signed] + Unsigned(signing, now));
    var node, filled := QualifyingNode(id, signing, refs, token), QualifyingNode(id, signing, refs, now);
    FillsOne(node, h, v, filled);
    OneAttr("Id", "xades-", id);
    FillsDs("Object", [Named("Id", QualifyingObjectId(id))], [node], h, v, [filled]);
  }

  lemma SignedPropertiesElement(id: string, signing: Signing, refs: seq<PlannedReference>)
    ensures SignedPropertiesNode(id, signing, refs).Element?
  {
    hide Formats, SignatureProperties, OpenTag;
  }

  lemma StaticKids(id: string, signing: Signing, h: string, v: string)
    requires IsPlain(id) && TidySigning(signing) && OurHole(h)
    ensures FillsTo(KeyInfoNode(signing.certificate), h, v, KeyInfoNode(signing.certificate))
    ensures FillsTo(ProfileObjectNode(id, signing.namespace), h, v, ProfileObjectNode(id, signing.namespace))
    ensures KeyInfoNode(signing.certificate).Element? && ProfileObjectNode(id, signing.namespace).Element?
  {
    hide OpenTag, Inert, FillsTo, IsPlain, IsHole, HoleFree, CheckNamespace, ProfileNode;
    KeyInfoInert(signing.certificate, h);
    InertFills(KeyInfoNode(signing.certificate), h, v);
    ProfileObjectInert(id, signing.namespace, h);
    InertFills(ProfileObjectNode(id, signing.namespace), h, v);
  }

  lemma FillsFive(a: Node, b: Node, c: Node, d: Node, e: Node, h: string, v: string, a': Node, b': Node, e': Node)
    requires FillsTo(a, h, v, a') && FillsTo(b, h, v, b') && FillsTo(c, h, v, c) && FillsTo(d, h, v, d) && FillsTo(e, h, v, e')
    requires a.Element? && b.Element? && c.Element? && d.Element?
    ensures Fills([a, b, c, d, e], h, v, [a', b', c, d, e'])
  {
    hide FillsTo, Fills;
    FillsOne(e, h, v, e');
    FillsCons(d, [e], h, v, d, [e']);
    FillsCons(c, [d] + [e], h, v, c, [d] + [e']);
    FillsCons(b, [c] + ([d] + [e]), h, v, b', [c] + ([d] + [e']));
    FillsCons(a, [b] + ([c] + ([d] + [e])), h, v, a', [b'] + ([c] + ([d] + [e'])));
    assert [a] + ([b] + ([c] + ([d] + [e]))) == [a, b, c, d, e];
    assert [a'] + ([b'] + ([c] + ([d] + [e']))) == [a', b', c, d, e'];
  }

  lemma SignatureKidsFill(id: string, signing: Signing, refs: seq<PlannedReference>, f: Filling, h: string, v: string)
    requires |refs| == |f.digests| && IsPlain(id) && TidySigning(signing) && TidyReferences(refs)
    requires OurHole(h) && Slots(f, h)
    ensures Fills(SignatureKids(id, signing, refs, f), h, v, SignatureKids(id, signing, refs, SwapIn(f, h, v)))
  {
    hide Make, FillsTo, Fills, IsPlain, IsHole, Slot, Swap, KeyInfoNode, ProfileObjectNode, QualifyingObjectNode,
         SignedInfoNode, TidySigning, TidyReferences, Raw, PlainAttrs;
    var g := SwapIn(f, h, v);
    NoAttrs();
    SignedInfoFills(signing.algorithm, refs, f.digests, h, v);
    RawFills(f.value, h, v);
    FillsDs("SignatureValue", [], Raw(f.value), h, v, Raw(g.value));
    StaticKids(id, signing, h, v);
    QualifyingFills(id, signing, refs, f.token, h, v);
    FillsFive(SignedInfoNode(signing.algorithm, refs, f.digests), SignatureValueNode(f.value), KeyInfoNode(signing.certificate),
              ProfileObjectNode(id, signing.namespace), QualifyingObjectNode(id, signing, refs, f.token), h, v,
              SignedInfoNode(signing.algorithm, refs, g.digests), SignatureValueNode(g.value),
              QualifyingObjectNode(id, signing, refs, g.token));
  }

  /** Filling one placeholder in the whole element. */
  lemma SignatureFills(id: string, signing: Signing, refs: seq<PlannedReference>, f: Filling, h: string, v: string)
    requires |refs| == |f.digests| && IsPlain(id) && TidySigning(signing) && TidyReferences(refs)
    requires OurHole(h) && Slots(f, h)
    ensures FillsTo(SignatureNode(id, signing, refs, f), h, v, SignatureNode(id, signing, refs, SwapIn(f, h, v)))
  {
    hide Make, FillsTo, Fills, IsPlain, IsHole, Slots, TidySigning, TidyReferences;
    SignatureKidsFill(id, signing, refs, f, h, v);
    NamespacesArePlain();
    FillsDeclaring("ds", XMLDSIG, "Signature", "Id", id, SignatureKids(id, signing, refs, f), h, v,
                   SignatureKids(id, signing, refs, SwapIn(f, h, v)));
  }

  // ----------------------------------------------------------- whole passes

  function SwapMany(f: Filling, values: seq<Substitution>): (g: Filling)
    ensures |g.digests| == |f.digests|
    decreases |values|
  {
    if values == [] then f else SwapMany(SwapIn(f, values[0].placeholder, values[0].value), values[1..])
  }

  lemma SwapKeepsSlots(f: Filling, h: string, v: string, g: string)
    requires Slots(f, g) && '@' !in v && IsHole(g)
    ensures Slots(SwapIn(f, h, v), g)
  {
    PlainInert(v, g);
    SwapMembers(f.digests, h, v);
  }

  lemma {:induction false} SwapMembers(ds: seq<string>, h: string, v: string)
    ensures forall d :: d in SwapAll(ds, h, v) ==> d == v || d in ds
  {
    if ds != [] { SwapMembers(ds[1..], h, v); }
  }

  /** A whole pass. */
  lemma {:induction false} PassSwaps(id: string, signing: Signing, refs: seq<PlannedReference>, f: Filling,
                                     values: seq<Substitution>)
    requires |refs| == |f.digests| && IsPlain(id) && TidySigning(signing) && TidyReferences(refs)
    requires ProperValues(values) && forall s :: s in values ==> OurHole(s.placeholder) && Slots(f, s.placeholder)
    ensures forall s :: s in values ==> CleanFor(SignatureNode(id, signing, refs, f), s.placeholder)
    ensures FillMany(SignatureNode(id, signing, refs, f), values) == SignatureNode(id, signing, refs, SwapMany(f, values))
    decreases |values|
  {
    hide SignatureNode, Slots, Swap, IsPlain, TidySigning, TidyReferences, OurHole, IsHole, CleanFor, Fill;
    forall s | s in values
      ensures CleanFor(SignatureNode(id, signing, refs, f), s.placeholder)
    {
      SignatureFills(id, signing, refs, f, s.placeholder, s.value);
    }
    if values != [] {
      var s, rest := values[0], values[1..];
      assert s in values && forall g :: g in rest ==> g in values;
      SignatureFills(id, signing, refs, f, s.placeholder, s.value);
      forall g | g in rest
        ensures Slots(SwapIn(f, s.placeholder, s.value), g.placeholder)
      {
        SwapKeepsSlots(f, s.placeholder, s.value, g.placeholder);
      }
      PassSwaps(id, signing, refs, SwapIn(f, s.placeholder, s.value), rest);
    }
  }
}
