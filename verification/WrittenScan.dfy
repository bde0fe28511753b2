/**
 What the signer writes is markup the scan counts right: every element of a
 signature is written with its own tags, and no value it holds begins a tag.
 */
module WrittenScan {
  import opened Wrappers
  import opened XmlTree
  import opened C14nReader
  import opened SignatureXml
  import opened Names
  import opened References
  import opened TreeScan
  import Scan

  // --------------------------------------------------------------------- tags

  /** No bracket outside quotes, and every quote is closed. */
  predicate Balanced(s: string) {
    Scan.Bracketless(s, None) && Scan.OpenQuote(s, None).None?
  }

  lemma {:induction false} QuoteJoin(a: string, b: string, quote: Option<char>)
    ensures Scan.OpenQuote(a + b, quote) == Scan.OpenQuote(b, Scan.OpenQuote(a, quote))
    ensures Scan.Bracketless(a + b, quote) <==> Scan.Bracketless(a, quote) && Scan.Bracketless(b, Scan.OpenQuote(a, quote))
  {
    if a == "" {
      assert a + b == b;
    } else {
      assert (a + b)[1..] == a[1..] + b;
      var next := match quote
                  case Some(open) => if a[0] == open then None else quote
                  case None => if a[0] == '"' || a[0] == '\'' then Some(a[0]) else None;
      QuoteJoin(a[1..], b, next);
    }
  }

  lemma BalancedJoin(a: string, b: string)
    requires Balanced(a) && Balanced(b)
    ensures Balanced(a + b)
  {
    QuoteJoin(a, b, None);
  }

  /** A text with neither quotes nor a closing bracket. */
  lemma {:induction false} PlainBalanced(s: string)
    requires '"' !in s && '\'' !in s && '>' !in s
    ensures Balanced(s)
  {
    if s != "" {
      assert s[0] in s && forall c :: c in s[1..] ==> c in s;
      PlainBalanced(s[1..]);
    }
  }

  lemma {:induction false} InsideQuotes(s: string)
    requires '"' !in s
    ensures Scan.Bracketless(s, Some('"')) && Scan.OpenQuote(s, Some('"')) == Some('"')
  {
    if s != "" {
      assert s[0] in s && forall c :: c in s[1..] ==> c in s;
      InsideQuotes(s[1..]);
    }
  }

  lemma QuotedBalanced(s: string)
    requires '"' !in s
    ensures Balanced("\"" + s + "\"")
  {
    InsideQuotes(s);
    QuoteJoin("\"" + s, "\"", None);
    QuoteJoin("\"", s, None);
    assert "\""[1..] == "";
  }

  lemma {:induction false} EscapedHasNoQuote(s: string)
    ensures '"' !in EscapeAttributeValue(s)
  {
    if s != "" { EscapedHasNoQuote(s[1..]); }
  }

  lemma {:induction false} EscapedHasNoBracket(s: string)
    ensures '<' !in EscapeTextValue(s)
  {
    if s != "" { EscapedHasNoBracket(s[1..]); }
  }

  lemma NameBalanced(name: string)
    requires IsName(name)
    ensures Balanced(name)
  {
    PlainBalanced(name);
  }

  lemma PairBalanced(before: string, name: string, value: string)
    requires (before == " " || before == " xmlns:") && IsName(name)
    ensures Balanced(before + name + "=\"" + EscapeAttributeValue(value) + "\"")
  {
    hide IsName, Balanced;
    EscapedHasNoQuote(value);
    var quoted := "\"" + EscapeAttributeValue(value) + "\"";
    QuotedBalanced(EscapeAttributeValue(value));
    NameBalanced(name);
    PlainBalanced(before);
    PlainBalanced("=");
    BalancedJoin(before, name);
    BalancedJoin(before + name, "=");
    BalancedJoin(before + name + "=", quoted);
    assert before + name + "=" + quoted == before + name + "=\"" + EscapeAttributeValue(value) + "\"";
  }

  lemma {:induction false} DeclsBalanced(decls: seq<Decl>)
    requires forall d :: d in decls ==> IsName(d.prefix)
    ensures Balanced(DeclText(decls))
  {
    hide Balanced, IsName;
    if decls == [] {
      PlainBalanced("");
    } else {
      assert decls[0] in decls && forall d :: d in decls[1..] ==> d in decls;
      DeclsBalanced(decls[1..]);
      PairBalanced(" xmlns:", decls[0].prefix, decls[0].uri);
      BalancedJoin(" xmlns:" + decls[0].prefix + "=\"" + EscapeAttributeValue(decls[0].uri) + "\"", DeclText(decls[1..]));
    }
  }

  lemma {:induction false} AttrsBalanced(attrs: seq<Attr>)
    requires forall a :: a in attrs ==> IsName(a.qname)
    ensures Balanced(AttrText(attrs))
  {
    hide Balanced, IsName;
    if attrs == [] {
      PlainBalanced("");
    } else {
      assert attrs[0] in attrs && forall a :: a in attrs[1..] ==> a in attrs;
      AttrsBalanced(attrs[1..]);
      PairBalanced(" ", attrs[0].qname, attrs[0].value);
      BalancedJoin(" " + attrs[0].qname + "=\"" + EscapeAttributeValue(attrs[0].value) + "\"", AttrText(attrs[1..]));
    }
  }

  lemma {:induction false} DeclsEnd(decls: seq<Decl>)
    ensures decls != [] ==> DeclText(decls) != "" && DeclText(decls)[|DeclText(decls)| - 1] == '"'
  {
    if decls != [] { DeclsEnd(decls[1..]); }
  }

  lemma {:induction false} AttrsEnd(attrs: seq<Attr>)
    ensures attrs != [] ==> AttrText(attrs) != "" && AttrText(attrs)[|AttrText(attrs)| - 1] == '"'
  {
    if attrs != [] { AttrsEnd(attrs[1..]); }
  }

  /** What a start tag holds. */
  function TagContent(qname: string, decls: seq<Decl>, attrs: seq<Attr>): string {
    qname + DeclText(decls) + AttrText(attrs)
  }

  /** Names a tag may hold. */
  predicate NamedTag(qname: string, decls: seq<Decl>, attrs: seq<Attr>) {
    IsName(qname) && (forall d :: d in decls ==> IsName(d.prefix)) && forall a :: a in attrs ==> IsName(a.qname)
  }

  lemma ContentIsTag(qname: string, decls: seq<Decl>, attrs: seq<Attr>)
    requires NamedTag(qname, decls, attrs)
    ensures var s := TagContent(qname, decls, attrs); Scan.IsTag(s) && s[|s| - 1] != '/'
  {
    hide Scan.Bracketless, Scan.OpenQuote;
    var s := TagContent(qname, decls, attrs);
    NameBalanced(qname);
    DeclsBalanced(decls);
    AttrsBalanced(attrs);
    BalancedJoin(qname, DeclText(decls));
    BalancedJoin(qname + DeclText(decls), AttrText(attrs));
    DeclsEnd(decls);
    AttrsEnd(attrs);
    assert s[0] == qname[0] && qname[0] in qname && qname[|qname| - 1] in qname;
    if attrs == [] {
      assert s == qname + DeclText(decls);
      if decls == [] { assert s == qname; }
    }
  }

  lemma OpensWritten(qname: string, decls: seq<Decl>, attrs: seq<Attr>, empty: bool)
    requires NamedTag(qname, decls, attrs)
    ensures Opens(OpenTag(qname, decls, attrs, empty), empty)
  {
    hide Scan.IsTag, NamedTag;
    ContentIsTag(qname, decls, attrs);
    var s, open, tail := TagContent(qname, decls, attrs), OpenTag(qname, decls, attrs, empty), if empty then "/>" else ">";
    NotEmptyTag(s);
    assert open == "<" + s + tail;
    assert open[1..|open| - |tail|] == s;
  }

  lemma NotEmptyTag(s: string)
    requires Scan.IsTag(s)
    ensures s != ""
  {}

  lemma ClosesWritten(qname: string)
    requires IsName(qname)
    ensures Closes("</" + qname + ">")
  {
    var close := "</" + qname + ">";
    assert close[2..|close| - 1] == qname;
  }

  /** An element around markup is markup. */
  lemma MakeScans(prefix: string, ns: string, local: string, decls: seq<Decl>, attrs: seq<Attr>, kids: seq<Node>)
    requires IsName(prefix) && IsName(local) && NamedTag(prefix, decls, attrs) && ScannableAll(kids)
    ensures Scannable(Make(prefix, ns, local, decls, attrs, kids))
  {
    hide Opens, Closes, ScannableAll, OpenTag;
    var qname := prefix + ":" + local;
    JoinedName(prefix, local);
    OpensWritten(qname, decls, attrs, kids == []);
    ClosesWritten(qname);
  }

  lemma JoinedName(prefix: string, local: string)
    requires IsName(prefix) && IsName(local)
    ensures IsName(prefix + ":" + local)
  {}

  // -------------------------------------------------------------------- pieces

  lemma OneScans(n: Node)
    requires Scannable(n)
    ensures ScannableAll([n])
  {
    hide Scannable;
    assert [n][1..] == [];
  }

  lemma {:induction false} JoinScans(a: seq<Node>, b: seq<Node>)
    requires ScannableAll(a) && ScannableAll(b)
    ensures ScannableAll(a + b)
  {
    hide Scannable;
    if a == [] {
      assert a + b == b;
    } else {
      assert (a + b)[1..] == a[1..] + b;
      JoinScans(a[1..], b);
    }
  }

  lemma TwoScan(a: Node, b: Node)
    requires Scannable(a) && Scannable(b)
    ensures ScannableAll([a, b])
  {
    hide Scannable, ScannableAll;
    OneScans(a);
    OneScans(b);
    JoinScans([a], [b]);
    assert [a] + [b] == [a, b];
  }

  lemma RawScans(s: string)
    requires '<' !in s
    ensures ScannableAll(Raw(s))
  {
    CharactersPass(s);
    OneScans(Text(s, s));
  }

  lemma EscapedScans(s: string)
    ensures ScannableAll(Escaped(s))
  {
    EscapedHasNoBracket(s);
    CharactersPass(EscapeTextValue(s));
    OneScans(Text(s, EscapeTextValue(s)));
  }

  lemma NothingScans()
    ensures ScannableAll([])
  {}

  lemma PrefixesAreNames()
    ensures IsName("ds") && IsName("xades") && IsName("es")
  {}

  lemma DsScans(local: string, attrs: seq<Attr>, kids: seq<Node>)
    requires IsName(local) && (forall a :: a in attrs ==> IsName(a.qname)) && ScannableAll(kids)
    ensures Scannable(DsElement(local, attrs, kids))
  {
    hide Scannable, ScannableAll, IsName, Make;
    PrefixesAreNames();
    MakeScans("ds", XMLDSIG, local, [], attrs, kids);
  }

  lemma XadesScans(local: string, attrs: seq<Attr>, kids: seq<Node>)
    requires IsName(local) && (forall a :: a in attrs ==> IsName(a.qname)) && ScannableAll(kids)
    ensures Scannable(XadesElement(local, attrs, kids))
  {
    hide Scannable, ScannableAll, IsName, Make;
    PrefixesAreNames();
    MakeScans("xades", XADES, local, [], attrs, kids);
  }

  lemma AttributesAreNames()
    ensures IsName("Id") && IsName("URI") && IsName("Type") && IsName("Algorithm") && IsName("ObjectReference") && IsName("Target")
  {}

  lemma FirstNames()
    ensures IsName("Transforms") && IsName("Transform") && IsName("Reference") && IsName("DigestMethod") && IsName("DigestValue")
  {}

  lemma SecondNames()
    ensures IsName("CanonicalizationMethod") && IsName("SignatureMethod") && IsName("SignedInfo") && IsName("SignatureValue")
  {}

  lemma ThirdNames()
    ensures IsName("KeyInfo") && IsName("X509Data") && IsName("X509Certificate") && IsName("SignatureProfile") && IsName("Generator")
    ensures IsName("Object") && IsName("Signature")
  {}

  lemma FourthNames()
    ensures IsName("SigningCertificateV2") && IsName("Cert") && IsName("CertDigest") && IsName("SignedSignatureProperties")
    ensures IsName("SigningTime") && IsName("MimeType")
  {}

  lemma DataNames()
    ensures IsName("DataObjectFormat") && IsName("SignedDataObjectProperties")
  {}

  lemma FifthNames()
    ensures IsName("SignedProperties") && IsName("SignatureTimeStamp") && IsName("CertificateValues")
  {}

  lemma SixthNames()
    ensures IsName("EncapsulatedX509Certificate") && IsName("EncapsulatedTimeStamp") && IsName("UnsignedProperties")
  {}

  lemma SeventhNames()
    ensures IsName("UnsignedSignatureProperties") && IsName("QualifyingProperties")
  {}

  // ------------------------------------------------------------- the signature

  lemma DigestingScans(name: string, uri: string)
    requires IsName(name)
    ensures Scannable(Digesting(name, uri))
  {
    hide Scannable, ScannableAll, IsName;
    AttributesAreNames();
    NothingScans();
    DsScans(name, [Named("Algorithm", uri)], []);
  }

  lemma ReferenceScans(r: PlannedReference, digest: string)
    requires '<' !in digest
    ensures Scannable(ReferenceNode(r, digest))
  {
    hide Scannable, ScannableAll, IsName, DsElement, Digesting, Raw;
    AttributesAreNames();
    FirstNames();
    DigestingScans("Transform", C14N_EXCLUSIVE);
    OneScans(Digesting("Transform", C14N_EXCLUSIVE));
    DsScans("Transforms", [], [Digesting("Transform", C14N_EXCLUSIVE)]);
    DigestingScans("DigestMethod", SHA256);
    RawScans(digest);
    DsScans("DigestValue", [], Raw(digest));
    var value := DsElement("DigestValue", [], Raw(digest));
    TwoScan(Digesting("DigestMethod", SHA256), value);
    OneScans(TransformsNode());
    JoinScans([TransformsNode()], [Digesting("DigestMethod", SHA256), value]);
    assert [TransformsNode()] + [Digesting("DigestMethod", SHA256), value] == [TransformsNode(), Digesting("DigestMethod", SHA256), value];
    assert forall a :: a in ReferenceAttrs(r) ==> a.qname in ["Id", "URI", "Type"];
    DsScans("Reference", ReferenceAttrs(r), [TransformsNode(), Digesting("DigestMethod", SHA256), value]);
  }

  lemma {:induction false} ReferencesScan(refs: seq<PlannedReference>, digests: seq<string>)
    requires |refs| == |digests| && forall d :: d in digests ==> '<' !in d
    ensures ScannableAll(ReferenceNodes(refs, digests))
  {
    hide Scannable, ScannableAll, ReferenceNode;
    if refs == [] {
      NothingScans();
    } else {
      assert digests[0] in digests && forall d :: d in digests[1..] ==> d in digests;
      ReferenceScans(refs[0], digests[0]);
      OneScans(ReferenceNode(refs[0], digests[0]));
      ReferencesScan(refs[1..], digests[1..]);
      JoinScans([ReferenceNode(refs[0], digests[0])], ReferenceNodes(refs[1..], digests[1..]));
    }
  }

  lemma SignedInfoScans(algorithm: SignatureAlgorithm, refs: seq<PlannedReference>, digests: seq<string>)
    requires |refs| == |digests| && forall d :: d in digests ==> '<' !in d
    ensures Scannable(SignedInfoNode(algorithm, refs, digests))
  {
    hide Scannable, ScannableAll, IsName, DsElement, Digesting, ReferenceNodes, AlgorithmUri;
    SecondNames();
    DigestingScans("CanonicalizationMethod", C14N_EXCLUSIVE);
    DigestingScans("SignatureMethod", AlgorithmUri(algorithm));
    TwoScan(Methods(algorithm)[0], Methods(algorithm)[1]);
    ReferencesScan(refs, digests);
    JoinScans(Methods(algorithm), ReferenceNodes(refs, digests));
    DsScans("SignedInfo", [], Methods(algorithm) + ReferenceNodes(refs, digests));
  }

  lemma KeyInfoScans(certificate: string)
    requires '<' !in certificate
    ensures Scannable(KeyInfoNode(certificate))
  {
    hide Scannable, ScannableAll, IsName, DsElement, Raw;
    ThirdNames();
    RawScans(certificate);
    var leaf := DsElement("X509Certificate", [], Raw(certificate));
    DsScans("X509Certificate", [], Raw(certificate));
    OneScans(leaf);
    DsScans("X509Data", [], [leaf]);
    OneScans(DsElement("X509Data", [], [leaf]));
    DsScans("KeyInfo", [], [DsElement("X509Data", [], [leaf])]);
  }

  lemma ProfileObjectScans(id: string, namespace: string)
    ensures Scannable(ProfileObjectNode(id, namespace))
  {
    hide Scannable, ScannableAll, IsName, DsElement, Raw, Make;
    AttributesAreNames();
    PrefixesAreNames();
    FirstNames();
    ThirdNames();
    assert IsName("Type");
    RawScans("signature");
    RawScans("openSzigno");
    MakeScans("es", namespace, "Type", [], [], Raw("signature"));
    MakeScans("es", namespace, "Generator", [], [], Raw("openSzigno"));
    var kind, generator := Make("es", namespace, "Type", [], [], Raw("signature")), Make("es", namespace, "Generator", [], [], Raw("openSzigno"));
    TwoScan(kind, generator);
    MakeScans("es", namespace, "SignatureProfile", [Decl("es", namespace)], [Named("Id", ProfileId(id))], [kind, generator]);
    OneScans(ProfileNode(id, namespace));
    DsScans("Object", [Named("Id", ProfileObjectId(id))], [ProfileNode(id, namespace)]);
  }

  lemma CertificateBindingScans(digest: string)
    requires '<' !in digest
    ensures Scannable(CertificateBinding(digest))
  {
    hide Scannable, ScannableAll, IsName, DsElement, XadesElement, Raw, Digesting;
    FirstNames();
    FourthNames();
    RawScans(digest);
    DigestingScans("DigestMethod", SHA256);
    DsScans("DigestValue", [], Raw(digest));
    var pair := [Digesting("DigestMethod", SHA256), DsElement("DigestValue", [], Raw(digest))];
    TwoScan(pair[0], pair[1]);
    XadesScans("CertDigest", [], pair);
    OneScans(XadesElement("CertDigest", [], pair));
    XadesScans("Cert", [], [XadesElement("CertDigest", [], pair)]);
    OneScans(XadesElement("Cert", [], [XadesElement("CertDigest", [], pair)]));
    XadesScans("SigningCertificateV2", [], [XadesElement("Cert", [], [XadesElement("CertDigest", [], pair)])]);
  }

  lemma SignaturePropertiesScan(signing: Signing)
    requires '<' !in signing.certificateDigest
    ensures Scannable(SignatureProperties(signing))
  {
    hide Scannable, ScannableAll, IsName, XadesElement, Escaped, CertificateBinding;
    FourthNames();
    EscapedScans(signing.signingTime);
    XadesScans("SigningTime", [], Escaped(signing.signingTime));
    CertificateBindingScans(signing.certificateDigest);
    TwoScan(XadesElement("SigningTime", [], Escaped(signing.signingTime)), CertificateBinding(signing.certificateDigest));
    XadesScans("SignedSignatureProperties", [],
               [XadesElement("SigningTime", [], Escaped(signing.signingTime)), CertificateBinding(signing.certificateDigest)]);
  }

  lemma {:induction false} FormatsScan(refs: seq<PlannedReference>)
    ensures ScannableAll(Formats(refs))
  {
    hide Scannable, ScannableAll, Format;
    if refs == [] {
      NothingScans();
    } else {
      FormatsScan(refs[1..]);
      match refs[0].mimeType {
        case Some(mime) =>
          FormatScans(refs[0], mime);
          OneScans(Format(refs[0], mime));
          JoinScans([Format(refs[0], mime)], Formats(refs[1..]));
        case None => assert [] + Formats(refs[1..]) == Formats(refs[1..]);
      }
    }
  }

  lemma FormatScans(r: PlannedReference, mime: string)
    ensures Scannable(Format(r, mime))
  {
    hide Scannable, ScannableAll, IsName, XadesElement, Escaped;
    AttributesAreNames();
    FourthNames();
    DataNames();
    EscapedScans(mime);
    XadesScans("MimeType", [], Escaped(mime));
    OneScans(XadesElement("MimeType", [], Escaped(mime)));
    XadesScans("DataObjectFormat", [Named("ObjectReference", "#" + r.id)], [XadesElement("MimeType", [], Escaped(mime))]);
  }

  lemma SignedPropertiesScan(id: string, signing: Signing, refs: seq<PlannedReference>)
    requires '<' !in signing.certificateDigest
    ensures Scannable(SignedPropertiesNode(id, signing, refs))
  {
    hide Scannable, ScannableAll, IsName, XadesElement, SignatureProperties, Formats;
    AttributesAreNames();
    DataNames();
    FifthNames();
    SignaturePropertiesScan(signing);
    FormatsScan(refs);
    OneScans(SignatureProperties(signing));
    NothingScans();
    XadesScans("SignedDataObjectProperties", [], Formats(refs));
    OneScans(XadesElement("SignedDataObjectProperties", [], Formats(refs)));
    var more := if Formats(refs) == [] then [] else [XadesElement("SignedDataObjectProperties", [], Formats(refs))];
    JoinScans([SignatureProperties(signing)], more);
    XadesScans("SignedProperties", [Named("Id", SignedPropertiesId(id))], [SignatureProperties(signing)] + more);
  }

  lemma {:induction false} CertificatesScan(values: seq<string>)
    requires forall c :: c in values ==> '<' !in c
    ensures ScannableAll(Certificates(values))
  {
    hide Scannable, ScannableAll, IsName, XadesElement, Raw;
    if values == [] {
      NothingScans();
    } else {
      assert values[0] in values && forall c :: c in values[1..] ==> c in values;
      SixthNames();
      RawScans(values[0]);
      XadesScans("EncapsulatedX509Certificate", [], Raw(values[0]));
      OneScans(XadesElement("EncapsulatedX509Certificate", [], Raw(values[0])));
      CertificatesScan(values[1..]);
      JoinScans([XadesElement("EncapsulatedX509Certificate", [], Raw(values[0]))], Certificates(values[1..]));
    }
  }

  lemma EvidenceScans(signing: Signing, token: string)
    requires '<' !in token && forall c :: c in signing.certificateValues ==> '<' !in c
    ensures ScannableAll(Evidence(signing, token))
  {
    hide Scannable, ScannableAll, IsName, XadesElement, Raw, Certificates;
    FifthNames();
    SixthNames();
    RawScans(token);
    XadesScans("EncapsulatedTimeStamp", [], Raw(token));
    OneScans(XadesElement("EncapsulatedTimeStamp", [], Raw(token)));
    XadesScans("SignatureTimeStamp", [], [XadesElement("EncapsulatedTimeStamp", [], Raw(token))]);
    OneScans(TimeStampNode(token));
    CertificatesScan(signing.certificateValues);
    XadesScans("CertificateValues", [], Certificates(signing.certificateValues));
    OneScans(XadesElement("CertificateValues", [], Certificates(signing.certificateValues)));
    NothingScans();
    JoinScans(if signing.timestamped then [TimeStampNode(token)] else [], CertificateKids(signing));
  }

  lemma QualifyingScans(id: string, signing: Signing, refs: seq<PlannedReference>, token: string)
    requires '<' !in signing.certificateDigest && '<' !in token && forall c :: c in signing.certificateValues ==> '<' !in c
    ensures Scannable(QualifyingObjectNode(id, signing, refs, token))
  {
    hide Scannable, ScannableAll, IsName, XadesElement, DsElement, Make, Evidence, SignedPropertiesNode;
    AttributesAreNames();
    PrefixesAreNames();
    ThirdNames();
    SixthNames();
    SeventhNames();
    SignedPropertiesScan(id, signing, refs);
    EvidenceScans(signing, token);
    XadesScans("UnsignedSignatureProperties", [], Evidence(signing, token));
    OneScans(XadesElement("UnsignedSignatureProperties", [], Evidence(signing, token)));
    XadesScans("UnsignedProperties", [], [XadesElement("UnsignedSignatureProperties", [], Evidence(signing, token))]);
    OneScans(XadesElement("UnsignedProperties", [], [XadesElement("UnsignedSignatureProperties", [], Evidence(signing, token))]));
    NothingScans();
    OneScans(SignedPropertiesNode(id, signing, refs));
    JoinScans([SignedPropertiesNode(id, signing, refs)], Unsigned(signing, token));
    MakeScans("xades", XADES, "QualifyingProperties", [Decl("xades", XADES)], [Named("Target", "#" + id)],
              [SignedPropertiesNode(id, signing, refs)] + Unsigned(signing, token));
    OneScans(QualifyingNode(id, signing, refs, token));
    DsScans("Object", [Named("Id", QualifyingObjectId(id))], [QualifyingNode(id, signing, refs, token)]);
  }

  /** No value written as it is begins a tag. */
  predicate TaglessSigning(signing: Signing) {
    '<' !in signing.certificate && '<' !in signing.certificateDigest && forall c :: c in signing.certificateValues ==> '<' !in c
  }

  predicate TaglessFilling(f: Filling) {
    (forall d :: d in f.digests ==> '<' !in d) && '<' !in f.value && '<' !in f.token
  }

  /** A signature element is markup, whatever it is filled with. */
  lemma SignatureScans(id: string, signing: Signing, refs: seq<PlannedReference>, f: Filling)
    requires |refs| == |f.digests| && TaglessSigning(signing) && TaglessFilling(f)
    ensures Scannable(SignatureNode(id, signing, refs, f))
  {
    hide Scannable, ScannableAll, IsName, DsElement, Make, Raw, SignedInfoNode, KeyInfoNode, ProfileObjectNode, QualifyingObjectNode;
    AttributesAreNames();
    PrefixesAreNames();
    SecondNames();
    ThirdNames();
    SignedInfoScans(signing.algorithm, refs, f.digests);
    RawScans(f.value);
    DsScans("SignatureValue", [], Raw(f.value));
    KeyInfoScans(signing.certificate);
    ProfileObjectScans(id, signing.namespace);
    QualifyingScans(id, signing, refs, f.token);
    var a, b, c, d, e := SignedInfoNode(signing.algorithm, refs, f.digests), SignatureValueNode(f.value), KeyInfoNode(signing.certificate),
                         ProfileObjectNode(id, signing.namespace), QualifyingObjectNode(id, signing, refs, f.token);
    TwoScan(a, b);
    TwoScan(c, d);
    OneScans(e);
    JoinScans([c, d], [e]);
    JoinScans([a, b], [c, d] + [e]);
    assert [a, b] + ([c, d] + [e]) == SignatureKids(id, signing, refs, f);
    MakeScans("ds", XMLDSIG, "Signature", [Decl("ds", XMLDSIG)], [Named("Id", id)], SignatureKids(id, signing, refs, f));
  }
}
