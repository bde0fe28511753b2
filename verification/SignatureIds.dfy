/** The identifiers a signature element carries are exactly the ones its plan accounts for. */
module SignatureIds {
  import opened XmlTree
  import opened IdSpace
  import opened References
  import opened Names
  import opened SignatureXml

  function RefIdsOf(refs: seq<PlannedReference>): seq<string> {
    if refs == [] then [] else [refs[0].id] + RefIdsOf(refs[1..])
  }

  /** Every identifier of a signature. */
  function IdsIn(id: string, refs: seq<PlannedReference>): seq<string> {
    [id, SignedPropertiesId(id), QualifyingObjectId(id), ProfileId(id), ProfileObjectId(id)] + RefIdsOf(refs)
  }

  const NO_IDS: multiset<string> := multiset{}

  lemma MakeBag(prefix: string, ns: string, local: string, decls: seq<Decl>, attrs: seq<Attr>, kids: seq<Node>)
    ensures IdBag(Make(prefix, ns, local, decls, attrs, kids)) == AttrBag(attrs) + IdBagOf(kids)
  {
    hide OpenTag;
  }

  lemma DsBag(local: string, attrs: seq<Attr>, kids: seq<Node>)
    ensures IdBag(DsElement(local, attrs, kids)) == AttrBag(attrs) + IdBagOf(kids)
  {
    MakeBag("ds", XMLDSIG, local, [], attrs, kids);
  }

  lemma XadesBag(local: string, attrs: seq<Attr>, kids: seq<Node>)
    ensures IdBag(XadesElement(local, attrs, kids)) == AttrBag(attrs) + IdBagOf(kids)
  {
    MakeBag("xades", XADES, local, [], attrs, kids);
  }

  lemma NoAttrBag()
    ensures AttrBag([]) == NO_IDS && IdBagOf([]) == NO_IDS
  {}

  lemma OneIdBag(id: string)
    ensures AttrBag([Named("Id", id)]) == multiset{id}
  {
    assert [Named("Id", id)][1..] == [];
  }

  lemma OtherAttrBag(name: string, value: string)
    requires name != "Id" && name != "ID" && name != "id"
    ensures AttrBag([Named(name, value)]) == NO_IDS
  {
    assert [Named(name, value)][1..] == [];
  }

  lemma KidsBag(a: Node)
    ensures IdBagOf([a]) == IdBag(a)
  {
    hide IdBag;
    assert [a][1..] == [];
  }

  lemma TwoKidsBag(a: Node, b: Node)
    ensures IdBagOf([a, b]) == IdBag(a) + IdBag(b)
  {
    hide IdBag;
    assert [a, b][1..] == [b];
    KidsBag(b);
  }

  lemma ConsBag(a: Node, rest: seq<Node>)
    ensures IdBagOf([a] + rest) == IdBag(a) + IdBagOf(rest)
  {
    hide IdBag;
    assert ([a] + rest)[1..] == rest;
  }

  lemma TextBag(s: string, raw: string)
    ensures IdBagOf([Text(s, raw)]) == NO_IDS
  {
    assert [Text(s, raw)][1..] == [];
  }

  lemma ReferenceAttrBag(r: PlannedReference)
    ensures AttrBag(ReferenceAttrs(r)) == multiset{r.id}
  {
    var attrs := ReferenceAttrs(r);
    var uri := [Named("URI", r.uri)];
    OtherAttrBag("URI", r.uri);
    match r.referenceType {
      case Some(t) =>
        OtherAttrBag("Type", t);
        assert attrs[1..] == uri + [Named("Type", t)];
        assert attrs[1..][1..] == [Named("Type", t)];
      case None =>
        assert attrs[1..] == uri;
    }
  }

  lemma DigestingBag(name: string, uri: string)
    ensures IdBag(Digesting(name, uri)) == NO_IDS
  {
    hide IdBag, IdBagOf, AttrBag, Make;
    DsBag(name, [Named("Algorithm", uri)], []);
    NoAttrBag();
    OtherAttrBag("Algorithm", uri);
  }

  lemma LeafBag(local: string, s: string)
    ensures IdBag(DsElement(local, [], Raw(s))) == NO_IDS && IdBag(XadesElement(local, [], Raw(s))) == NO_IDS
  {
    hide IdBag, IdBagOf, AttrBag, Make;
    DsBag(local, [], Raw(s));
    XadesBag(local, [], Raw(s));
    NoAttrBag();
    TextBag(s, s);
  }

  lemma ReferenceBag(r: PlannedReference, digest: string)
    ensures IdBag(ReferenceNode(r, digest)) == multiset{r.id}
  {
    hide IdBag, IdBagOf, AttrBag, Make, Digesting, DsElement, ReferenceAttrs, Raw;
    DigestingBag("Transform", C14N_EXCLUSIVE);
    DigestingBag("DigestMethod", SHA256);
    NoAttrBag();
    KidsBag(Digesting("Transform", C14N_EXCLUSIVE));
    DsBag("Transforms", [], [Digesting("Transform", C14N_EXCLUSIVE)]);
    LeafBag("DigestValue", digest);
    var method', value := Digesting("DigestMethod", SHA256), DsElement("DigestValue", [], Raw(digest));
    TwoKidsBag(method', value);
    ConsBag(TransformsNode(), [method', value]);
    ReferenceAttrBag(r);
    assert [TransformsNode()] + [method', value] == [TransformsNode(), method', value];
    DsBag("Reference", ReferenceAttrs(r), [TransformsNode(), method', value]);
  }

  lemma {:induction false} ReferencesBag(refs: seq<PlannedReference>, ds: seq<string>)
    requires |refs| == |ds|
    ensures IdBagOf(ReferenceNodes(refs, ds)) == multiset(RefIdsOf(refs))
  {
    hide IdBag, ReferenceNode;
    if refs != [] {
      ReferenceBag(refs[0], ds[0]);
      ReferencesBag(refs[1..], ds[1..]);
      ConsBag(ReferenceNode(refs[0], ds[0]), ReferenceNodes(refs[1..], ds[1..]));
    }
  }

  lemma SignedInfoBag(algorithm: SignatureAlgorithm, refs: seq<PlannedReference>, ds: seq<string>)
    requires |refs| == |ds|
    ensures IdBag(SignedInfoNode(algorithm, refs, ds)) == multiset(RefIdsOf(refs))
  {
    hide IdBag, IdBagOf, AttrBag, Make, Digesting, DsElement, ReferenceNodes;
    ReferencesBag(refs, ds);
    DigestingBag("CanonicalizationMethod", C14N_EXCLUSIVE);
    DigestingBag("SignatureMethod", AlgorithmUri(algorithm));
    TwoKidsBag(Methods(algorithm)[0], Methods(algorithm)[1]);
    BagOfConcat(Methods(algorithm), ReferenceNodes(refs, ds));
    NoAttrBag();
    DsBag("SignedInfo", [], Methods(algorithm) + ReferenceNodes(refs, ds));
  }

  lemma KeyInfoBag(certificate: string)
    ensures IdBag(KeyInfoNode(certificate)) == NO_IDS
  {
    hide IdBag, IdBagOf, AttrBag, Make, DsElement, Raw;
    LeafBag("X509Certificate", certificate);
    var leaf := DsElement("X509Certificate", [], Raw(certificate));
    KidsBag(leaf);
    NoAttrBag();
    DsBag("X509Data", [], [leaf]);
    KidsBag(DsElement("X509Data", [], [leaf]));
    DsBag("KeyInfo", [], [DsElement("X509Data", [], [leaf])]);
  }

  lemma ProfileObjectBag(id: string, namespace: string)
    ensures IdBag(ProfileObjectNode(id, namespace)) == multiset{ProfileObjectId(id), ProfileId(id)}
  {
    hide IdBag, IdBagOf, AttrBag, Make, DsElement, ProfileId, ProfileObjectId;
    var kind, generator := Make("es", namespace, "Type", [], [], Raw("signature")),
                           Make("es", namespace, "Generator", [], [], Raw("openSzigno"));
    NoAttrBag();
    TextBag("signature", "signature");
    TextBag("openSzigno", "openSzigno");
    MakeBag("es", namespace, "Type", [], [], Raw("signature"));
    MakeBag("es", namespace, "Generator", [], [], Raw("openSzigno"));
    TwoKidsBag(kind, generator);
    OneIdBag(ProfileId(id));
    MakeBag("es", namespace, "SignatureProfile", [Decl("es", namespace)], [Named("Id", ProfileId(id))], [kind, generator]);
    OneIdBag(ProfileObjectId(id));
    KidsBag(ProfileNode(id, namespace));
    DsBag("Object", [Named("Id", ProfileObjectId(id))], [ProfileNode(id, namespace)]);
  }

  lemma SignaturePropertiesBag(signing: Signing)
    ensures IdBag(SignatureProperties(signing)) == NO_IDS
  {
    hide IdBag, IdBagOf, AttrBag, Make, DsElement, XadesElement, Raw;
    NoAttrBag();
    var time := XadesElement("SigningTime", [], Escaped(signing.signingTime));
    TextBag(signing.signingTime, EscapeTextValue(signing.signingTime));
    XadesBag("SigningTime", [], Escaped(signing.signingTime));
    LeafBag("DigestValue", signing.certificateDigest);
    DigestingBag("DigestMethod", SHA256);
    var pair := [Digesting("DigestMethod", SHA256), DsElement("DigestValue", [], Raw(signing.certificateDigest))];
    TwoKidsBag(pair[0], pair[1]);
    XadesBag("CertDigest", [], pair);
    var digest := XadesElement("CertDigest", [], pair);
    KidsBag(digest);
    XadesBag("Cert", [], [digest]);
    KidsBag(XadesElement("Cert", [], [digest]));
    XadesBag("SigningCertificateV2", [], [XadesElement("Cert", [], [digest])]);
    TwoKidsBag(time, CertificateBinding(signing.certificateDigest));
    XadesBag("SignedSignatureProperties", [], [time, CertificateBinding(signing.certificateDigest)]);
  }

  lemma {:induction false} FormatsBag(refs: seq<PlannedReference>)
    ensures IdBagOf(Formats(refs)) == NO_IDS
  {
    hide IdBag, AttrBag, Make, XadesElement;
    if refs != [] {
      FormatsBag(refs[1..]);
      match refs[0].mimeType {
        case Some(mime) =>
          TextBag(mime, EscapeTextValue(mime));
          NoAttrBag();
          XadesBag("MimeType", [], Escaped(mime));
          KidsBag(XadesElement("MimeType", [], Escaped(mime)));
          OtherAttrBag("ObjectReference", "#" + refs[0].id);
          XadesBag("DataObjectFormat", [Named("ObjectReference", "#" + refs[0].id)], [XadesElement("MimeType", [], Escaped(mime))]);
          ConsBag(Format(refs[0], mime), Formats(refs[1..]));
        case None =>
          assert Formats(refs) == Formats(refs[1..]);
      }
    }
  }

  lemma SignedPropertiesBag(id: string, signing: Signing, refs: seq<PlannedReference>)
    ensures IdBag(SignedPropertiesNode(id, signing, refs)) == multiset{SignedPropertiesId(id)}
  {
    hide IdBag, IdBagOf, AttrBag, Make, XadesElement, SignatureProperties, Formats, SignedPropertiesId;
    NoAttrBag();
    SignaturePropertiesBag(signing);
    FormatsBag(refs);
    var objects := XadesElement("SignedDataObjectProperties", [], Formats(refs));
    XadesBag("SignedDataObjectProperties", [], Formats(refs));
    KidsBag(objects);
    var more := if Formats(refs) == [] then [] else [objects];
    assert IdBagOf(more) == NO_IDS;
    ConsBag(SignatureProperties(signing), more);
    OneIdBag(SignedPropertiesId(id));
    XadesBag("SignedProperties", [Named("Id", SignedPropertiesId(id))], [SignatureProperties(signing)] + more);
  }

  lemma {:induction false} CertificatesBag(values: seq<string>)
    ensures IdBagOf(Certificates(values)) == NO_IDS
  {
    hide IdBag, AttrBag, Make, XadesElement, Raw;
    if values != [] {
      CertificatesBag(values[1..]);
      LeafBag("EncapsulatedX509Certificate", values[0]);
      ConsBag(XadesElement("EncapsulatedX509Certificate", [], Raw(values[0])), Certificates(values[1..]));
    }
  }

  lemma UnsignedBag(signing: Signing, token: string)
    ensures IdBagOf(Unsigned(signing, token)) == NO_IDS
  {
    hide IdBag, IdBagOf, AttrBag, Make, XadesElement, Raw, Certificates;
    NoAttrBag();
    LeafBag("EncapsulatedTimeStamp", token);
    var leaf := XadesElement("EncapsulatedTimeStamp", [], Raw(token));
    KidsBag(leaf);
    XadesBag("SignatureTimeStamp", [], [leaf]);
    KidsBag(TimeStampNode(token));
    CertificatesBag(signing.certificateValues);
    XadesBag("CertificateValues", [], Certificates(signing.certificateValues));
    KidsBag(XadesElement("CertificateValues", [], Certificates(signing.certificateValues)));
    BagOfConcat(if signing.timestamped then [TimeStampNode(token)] else [], CertificateKids(signing));
    var properties := XadesElement("UnsignedSignatureProperties", [], Evidence(signing, token));
    XadesBag("UnsignedSignatureProperties", [], Evidence(signing, token));
    KidsBag(properties);
    XadesBag("UnsignedProperties", [], [properties]);
    KidsBag(XadesElement("UnsignedProperties", [], [properties]));
  }

  lemma QualifyingObjectBag(id: string, signing: Signing, refs: seq<PlannedReference>, token: string)
    ensures IdBag(QualifyingObjectNode(id, signing, refs, token)) == multiset{QualifyingObjectId(id), SignedPropertiesId(id)}
  {
    hide IdBag, IdBagOf, AttrBag, Make, DsElement, SignedPropertiesNode, Unsigned, SignedPropertiesId, QualifyingObjectId;
    SignedPropertiesBag(id, signing, refs);
    UnsignedBag(signing, token);
    ConsBag(SignedPropertiesNode(id, signing, refs), Unsigned(signing, token));
    OtherAttrBag("Target", "#" + id);
    MakeBag("xades", XADES, "QualifyingProperties", [Decl("xades", XADES)], [Named("Target", "#" + id)],
            [SignedPropertiesNode(id, signing, refs)] + Unsigned(signing, token));
    KidsBag(QualifyingNode(id, signing, refs, token));
    OneIdBag(QualifyingObjectId(id));
    DsBag("Object", [Named("Id", QualifyingObjectId(id))], [QualifyingNode(id, signing, refs, token)]);
  }

  lemma FiveKidsBag(a: Node, b: Node, c: Node, d: Node, e: Node)
    ensures IdBagOf([a, b, c, d, e]) == IdBag(a) + (IdBag(b) + (IdBag(c) + (IdBag(d) + IdBag(e))))
  {
    hide IdBag, IdBagOf;
    TwoKidsBag(d, e);
    ConsBag(c, [d, e]);
    ConsBag(b, [c] + [d, e]);
    ConsBag(a, [b] + ([c] + [d, e]));
    assert [a] + ([b] + ([c] + [d, e])) == [a, b, c, d, e];
  }

  lemma FiveBag(a: string, b: string, c: string, d: string, e: string)
    ensures multiset([a, b, c, d, e]) == multiset{a} + multiset{b} + multiset{c} + multiset{d} + multiset{e}
  {
    assert [a, b, c, d, e] == [a] + [b] + [c] + [d] + [e];
    assert multiset([a] + [b] + [c] + [d] + [e]) == multiset([a]) + multiset([b]) + multiset([c]) + multiset([d]) + multiset([e]);
  }

  lemma Reorder(a: multiset<string>, b: multiset<string>, c: multiset<string>, d: multiset<string>, e: multiset<string>,
                refs: multiset<string>)
    ensures (a + b + c + d + e) + refs == a + (refs + (NO_IDS + (NO_IDS + ((e + d) + (c + b)))))
  {
    forall x ensures ((a + b + c + d + e) + refs)[x] == (a + (refs + (NO_IDS + (NO_IDS + ((e + d) + (c + b))))))[x] {}
  }

  lemma PairBag(a: string, b: string)
    ensures multiset{a, b} == multiset{a} + multiset{b}
  {}

  lemma BagSum(a: string, b: string, c: string, d: string, e: string, refs: seq<string>)
    ensures multiset([a, b, c, d, e] + refs)
         == multiset{a} + (multiset(refs) + (NO_IDS + (NO_IDS + (multiset{e, d} + multiset{c, b}))))
  {
    FiveBag(a, b, c, d, e);
    PairBag(e, d);
    PairBag(c, b);
    Reorder(multiset{a}, multiset{b}, multiset{c}, multiset{d}, multiset{e}, multiset(refs));
    var first := [a, b, c, d, e];
    assert multiset(first + refs) == multiset(first) + multiset(refs);
  }

  /** The bag of the whole element. */
  lemma SignatureBag(id: string, signing: Signing, refs: seq<PlannedReference>, f: Filling)
    requires |refs| == |f.digests|
    ensures IdBag(SignatureNode(id, signing, refs, f)) == multiset(IdsIn(id, refs))
  {
    hide IdBag, IdBagOf, AttrBag, Make, DsElement, SignedInfoNode, KeyInfoNode, ProfileObjectNode, QualifyingObjectNode,
         SignedPropertiesId, QualifyingObjectId, ProfileId, ProfileObjectId, RefIdsOf, Raw;
    SignedInfoBag(signing.algorithm, refs, f.digests);
    LeafBag("SignatureValue", f.value);
    KeyInfoBag(signing.certificate);
    ProfileObjectBag(id, signing.namespace);
    QualifyingObjectBag(id, signing, refs, f.token);
    FiveKidsBag(SignedInfoNode(signing.algorithm, refs, f.digests), SignatureValueNode(f.value), KeyInfoNode(signing.certificate),
                ProfileObjectNode(id, signing.namespace), QualifyingObjectNode(id, signing, refs, f.token));
    OneIdBag(id);
    MakeBag("ds", XMLDSIG, "Signature", [Decl("ds", XMLDSIG)], [Named("Id", id)], SignatureKids(id, signing, refs, f));
    BagSum(id, SignedPropertiesId(id), QualifyingObjectId(id), ProfileId(id), ProfileObjectId(id), RefIdsOf(refs));
  }
}
