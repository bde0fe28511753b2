/**
 The signature element the signer writes, as a tree with its text.

 The three values that do not exist yet when the element is written stand in it
 as placeholders: a digest per reference, the signature value and the timestamp
 token. `SignatureNode` takes them as a `Filling`, so the skeleton and every
 later stage are the same tree with different fillings.
 */
module SignatureXml {
  import opened Wrappers
  import opened Strings
  import opened XmlTree
  import opened References
  import opened Placeholders
  import opened Names

  const XADES: string := "http://uri.etsi.org/01903/v1.3.2#"
  const SHA256: string := "http://www.w3.org/2001/04/xmlenc#sha256"
  const SIGNED_PROPERTIES_TYPE: string := "http://uri.etsi.org/01903#SignedProperties"

  // ------------------------------------------------------------ writing XML

  function EscapeTextValue(s: string): string {
    if s == "" then ""
    else (if s[0] == '&' then "&amp;" else if s[0] == '<' then "&lt;" else if s[0] == '>' then "&gt;" else [s[0]])
         + EscapeTextValue(s[1..])
  }

  function EscapeAttributeValue(s: string): string {
    if s == "" then ""
    else (if s[0] == '&' then "&amp;" else if s[0] == '<' then "&lt;" else if s[0] == '>' then "&gt;"
          else if s[0] == '"' then "&quot;" else if s[0] == '\'' then "&apos;" else [s[0]])
         + EscapeAttributeValue(s[1..])
  }

  function DeclText(decls: seq<Decl>): string {
    if decls == [] then ""
    else " xmlns:" + decls[0].prefix + "=\"" + EscapeAttributeValue(decls[0].uri) + "\"" + DeclText(decls[1..])
  }

  function AttrText(attrs: seq<Attr>): string {
    if attrs == [] then ""
    else " " + attrs[0].qname + "=\"" + EscapeAttributeValue(attrs[0].value) + "\"" + AttrText(attrs[1..])
  }

  /** A start tag, or an empty-element tag when there are no children. */
  function OpenTag(qname: string, decls: seq<Decl>, attrs: seq<Attr>, empty: bool): string {
    "<" + qname + DeclText(decls) + AttrText(attrs) + (if empty then "/>" else ">")
  }

  function Make(prefix: string, ns: string, local: string, decls: seq<Decl>, attrs: seq<Attr>, kids: seq<Node>): Node {
    var qname := prefix + ":" + local;
    Element(qname, ns, local, decls, attrs, kids, OpenTag(qname, decls, attrs, kids == []),
            if kids == [] then "" else "</" + qname + ">")
  }

  function Named(name: string, value: string): Attr {
    Attr(name, "", name, value)
  }

  function DsElement(local: string, attrs: seq<Attr>, kids: seq<Node>): Node {
    Make("ds", XMLDSIG, local, [], attrs, kids)
  }

  function XadesElement(local: string, attrs: seq<Attr>, kids: seq<Node>): Node {
    Make("xades", XADES, local, [], attrs, kids)
  }

  /** Text written as it is. */
  function Raw(s: string): seq<Node> {
    [Text(s, s)]
  }

  function Escaped(s: string): seq<Node> {
    [Text(s, EscapeTextValue(s))]
  }

  // ------------------------------------------------------ what is written

  datatype SignatureAlgorithm = RsaSha256 | RsaPssSha256 | EcdsaP256Sha256

  function AlgorithmUri(a: SignatureAlgorithm): string {
    match a
    case RsaSha256 => "http://www.w3.org/2001/04/xmldsig-more#rsa-sha256"
    case RsaPssSha256 => "http://www.w3.org/2007/05/xmldsig-more#sha256-rsa-MGF1"
    case EcdsaP256Sha256 => "http://www.w3.org/2001/04/xmldsig-more#ecdsa-sha256"
  }

  datatype PlannedReference = PlannedReference(id: string, uri: string, referenceType: Option<string>,
                                               mimeType: Option<string>)

  /** What every signature of one run carries. Certificates and their digests are in Base64. */
  datatype Signing = Signing(algorithm: SignatureAlgorithm, certificate: string, certificateDigest: string,
                             certificateValues: seq<string>, signingTime: string, namespace: string, timestamped: bool)

  /** The values filled in after the element is in the document. */
  datatype Filling = Filling(digests: seq<string>, value: string, token: string)

  function Digesting(name: string, uri: string): Node {
    DsElement(name, [Named("Algorithm", uri)], [])
  }

  function TransformsNode(): Node {
    DsElement("Transforms", [], [Digesting("Transform", C14N_EXCLUSIVE)])
  }

  function ReferenceAttrs(r: PlannedReference): seq<Attr> {
    [Named("Id", r.id), Named("URI", r.uri)]
    + match r.referenceType
      case Some(t) => [Named("Type", t)]
      case None => []
  }

  function ReferenceNode(r: PlannedReference, digest: string): Node {
    DsElement("Reference", ReferenceAttrs(r),
       [TransformsNode(), Digesting("DigestMethod", SHA256), DsElement("DigestValue", [], Raw(digest))])
  }

  function ReferenceNodes(refs: seq<PlannedReference>, digests: seq<string>): seq<Node>
    requires |refs| == |digests|
  {
    if refs == [] then [] else [ReferenceNode(refs[0], digests[0])] + ReferenceNodes(refs[1..], digests[1..])
  }

  function Methods(algorithm: SignatureAlgorithm): seq<Node> {
    [Digesting("CanonicalizationMethod", C14N_EXCLUSIVE), Digesting("SignatureMethod", AlgorithmUri(algorithm))]
  }

  function SignedInfoNode(algorithm: SignatureAlgorithm, refs: seq<PlannedReference>, digests: seq<string>): Node
    requires |refs| == |digests|
  {
    DsElement("SignedInfo", [], Methods(algorithm) + ReferenceNodes(refs, digests))
  }

  function SignatureValueNode(value: string): Node {
    DsElement("SignatureValue", [], Raw(value))
  }

  function KeyInfoNode(certificate: string): Node {
    DsElement("KeyInfo", [], [DsElement("X509Data", [], [DsElement("X509Certificate", [], Raw(certificate))])])
  }

  function ProfileNode(id: string, namespace: string): Node {
    Make("es", namespace, "SignatureProfile", [Decl("es", namespace)], [Named("Id", ProfileId(id))],
         [Make("es", namespace, "Type", [], [], Raw("signature")),
          Make("es", namespace, "Generator", [], [], Raw("openSzigno"))])
  }

  function ProfileObjectNode(id: string, namespace: string): Node {
    DsElement("Object", [Named("Id", ProfileObjectId(id))], [ProfileNode(id, namespace)])
  }

  function CertificateBinding(digest: string): Node {
    XadesElement("SigningCertificateV2", [],
          [XadesElement("Cert", [],
                 [XadesElement("CertDigest", [],
                        [Digesting("DigestMethod", SHA256), DsElement("DigestValue", [], Raw(digest))])])])
  }

  function SignatureProperties(signing: Signing): Node {
    XadesElement("SignedSignatureProperties", [],
          [XadesElement("SigningTime", [], Escaped(signing.signingTime)), CertificateBinding(signing.certificateDigest)])
  }

  function Format(r: PlannedReference, mime: string): Node {
    XadesElement("DataObjectFormat", [Named("ObjectReference", "#" + r.id)], [XadesElement("MimeType", [], Escaped(mime))])
  }

  function Formats(refs: seq<PlannedReference>): seq<Node> {
    if refs == [] then []
    else (match refs[0].mimeType
          case Some(mime) => [Format(refs[0], mime)]
          case None => [])
         + Formats(refs[1..])
  }

  function SignedPropertiesNode(id: string, signing: Signing, refs: seq<PlannedReference>): Node {
    XadesElement("SignedProperties", [Named("Id", SignedPropertiesId(id))],
          [SignatureProperties(signing)]
          + if Formats(refs) == [] then [] else [XadesElement("SignedDataObjectProperties", [], Formats(refs))])
  }

  function Certificates(values: seq<string>): seq<Node> {
    if values == [] then []
    else [XadesElement("EncapsulatedX509Certificate", [], Raw(values[0]))] + Certificates(values[1..])
  }

  function TimeStampNode(token: string): Node {
    XadesElement("SignatureTimeStamp", [], [XadesElement("EncapsulatedTimeStamp", [], Raw(token))])
  }

  function CertificateKids(signing: Signing): seq<Node> {
    if signing.certificateValues == [] then []
    else [XadesElement("CertificateValues", [], Certificates(signing.certificateValues))]
  }

  function Evidence(signing: Signing, token: string): seq<Node> {
    (if signing.timestamped then [TimeStampNode(token)] else []) + CertificateKids(signing)
  }

  function Unsigned(signing: Signing, token: string): seq<Node> {
    if Evidence(signing, token) == [] then []
    else [XadesElement("UnsignedProperties", [], [XadesElement("UnsignedSignatureProperties", [], Evidence(signing, token))])]
  }

  function QualifyingNode(id: string, signing: Signing, refs: seq<PlannedReference>, token: string): Node {
    Make("xades", XADES, "QualifyingProperties", [Decl("xades", XADES)], [Named("Target", "#" + id)],
         [SignedPropertiesNode(id, signing, refs)] + Unsigned(signing, token))
  }

  function QualifyingObjectNode(id: string, signing: Signing, refs: seq<PlannedReference>, token: string): Node {
    DsElement("Object", [Named("Id", QualifyingObjectId(id))], [QualifyingNode(id, signing, refs, token)])
  }

  function SignatureKids(id: string, signing: Signing, refs: seq<PlannedReference>, f: Filling): seq<Node>
    requires |refs| == |f.digests|
  {
    [SignedInfoNode(signing.algorithm, refs, f.digests), SignatureValueNode(f.value), KeyInfoNode(signing.certificate),
     ProfileObjectNode(id, signing.namespace), QualifyingObjectNode(id, signing, refs, f.token)]
  }

  function SignatureNode(id: string, signing: Signing, refs: seq<PlannedReference>, f: Filling): Node
    requires |refs| == |f.digests|
  {
    Make("ds", XMLDSIG, "Signature", [Decl("ds", XMLDSIG)], [Named("Id", id)], SignatureKids(id, signing, refs, f))
  }

  // ----------------------------------------------------------- placeholders

  const MARK: string := "openszigno-"

  function DigestHole(referenceId: string): string { Hole(MARK + "digest:" + referenceId) }
  function ValueHole(id: string): string { Hole(MARK + "value:" + id) }
  function TokenHole(id: string): string { Hole(MARK + "timestamp:" + id) }

  function DigestHoles(refs: seq<PlannedReference>): seq<string> {
    if refs == [] then [] else [DigestHole(refs[0].id)] + DigestHoles(refs[1..])
  }

  /** The skeleton's filling. */
  function Unfilled(id: string, refs: seq<PlannedReference>): (f: Filling)
    ensures |f.digests| == |refs|
  {
    HoleCount(refs);
    Filling(DigestHoles(refs), ValueHole(id), TokenHole(id))
  }

  lemma {:induction false} HoleCount(refs: seq<PlannedReference>)
    ensures |DigestHoles(refs)| == |refs|
    ensures forall j :: 0 <= j < |refs| ==> DigestHoles(refs)[j] == DigestHole(refs[j].id)
  {
    if refs != [] { HoleCount(refs[1..]); }
  }

  /** The text holds no placeholder, nor the beginning of one. */
  predicate HoleFree(s: string) {
    !Contains(s, "@@" + MARK)
  }

  /** A placeholder this module writes. */
  predicate OurHole(h: string) {
    IsHole(h) && "@@" + MARK <= h
  }

  lemma HoleFreeHasNone(s: string, h: string)
    requires HoleFree(s) && OurHole(h)
    ensures !Contains(s, h)
  {
    forall i | 0 <= i <= |s|
      ensures !(h <= s[i..])
    {
      assert !("@@" + MARK <= s[i..]);
    }
  }

  // ------------------------------------------------------------ static parts

  /** No tag and no text of the subtree holds the placeholder. */
  predicate Inert(node: Node, h: string)
    decreases node, 0
  {
    match node
    case Element(_, _, _, _, _, children, open, close) =>
      && TagText(open, h)
      && (close == "" || TagText(close, h))
      && (children != [] ==> close != "")
      && InertAll(children, h)
    case Text(_, raw) => !Contains(raw, h)
    case Comment(_, raw) => false
    case PI(_, _, raw) => false
    case Root(_, _, _) => false
  }

  predicate InertAll(kids: seq<Node>, h: string)
    decreases kids, 1
  {
    kids == [] || (Inert(kids[0], h) && InertAll(kids[1..], h) && !(kids[0].Text? && |kids| > 1 && kids[1].Text?))
  }

  lemma SelfContained(h: string)
    ensures Contains(h, h)
  {
    assert h[0..] == h && h <= h[0..];
  }

  /** Filling changes nothing inert. */
  lemma {:induction false} InertStays(node: Node, h: string, v: string)
    requires Inert(node, h)
    ensures CleanFor(node, h) && Fill(node, h, v) == node
    decreases node, 0
  {
    if node.Element? { InertAllStay(node.children, h, v); }
    if node.Text? { SelfContained(h); }
  }

  lemma {:induction false} InertAllStay(kids: seq<Node>, h: string, v: string)
    requires InertAll(kids, h)
    ensures CleanAll(kids, h) && FillAll(kids, h, v) == kids
    decreases kids, 1
  {
    if kids != [] {
      InertStays(kids[0], h, v);
      InertAllStay(kids[1..], h, v);
    }
  }

  /** Markup without the placeholder's delimiter. */
  predicate NoAt(s: string) {
    '@' !in s
  }

  predicate PlainAttrs(attrs: seq<Attr>) {
    forall a :: a in attrs ==> NoAt(a.qname) && IsPlain(a.value)
  }

  lemma {:induction false} PlainIsWritten(s: string)
    requires IsPlain(s)
    ensures EscapeAttributeValue(s) == s && EscapeTextValue(s) == s && NoAt(s)
  {
    if s != "" {
      assert s == [s[0]] + s[1..];
      assert PlainChar(s[0]);
      PlainIsWritten(s[1..]);
    }
  }

  lemma {:induction false} PlainAttrText(attrs: seq<Attr>)
    requires PlainAttrs(attrs)
    ensures NoAt(AttrText(attrs))
  {
    if attrs != [] {
      assert attrs[0] in attrs;
      PlainIsWritten(attrs[0].value);
      PlainAttrText(attrs[1..]);
    }
  }

  /** The tags of an element that declares nothing. */
  lemma PlainTags(prefix: string, ns: string, local: string, attrs: seq<Attr>, kids: seq<Node>, h: string)
    requires NoAt(prefix) && NoAt(local) && PlainAttrs(attrs) && IsHole(h)
    ensures var node := Make(prefix, ns, local, [], attrs, kids);
            TagText(node.open, h) && (node.close == "" || TagText(node.close, h)) && (kids != [] ==> node.close != "")
  {
    PlainAttrText(attrs);
    var node := Make(prefix, ns, local, [], attrs, kids);
    assert NoAt(node.qname);
    PlainInert(node.open, h);
    if kids != [] { PlainInert(node.close, h); }
  }

  lemma InertMake(prefix: string, ns: string, local: string, attrs: seq<Attr>, kids: seq<Node>, h: string)
    requires NoAt(prefix) && NoAt(local) && PlainAttrs(attrs) && IsHole(h) && InertAll(kids, h)
    ensures Inert(Make(prefix, ns, local, [], attrs, kids), h)
  {
    PlainTags(prefix, ns, local, attrs, kids, h);
  }

  lemma {:induction false} InertConcat(a: seq<Node>, b: seq<Node>, h: string)
    requires InertAll(a, h) && InertAll(b, h) && (a == [] || !a[|a| - 1].Text?)
    ensures InertAll(a + b, h)
  {
    if a == [] {
      assert a + b == b;
    } else {
      assert (a + b)[1..] == a[1..] + b;
      InertConcat(a[1..], b, h);
    }
  }

  lemma InertOne(node: Node, h: string)
    requires Inert(node, h)
    ensures InertAll([node], h)
  {
    assert [node][1..] == [];
  }

  lemma InertTwo(a: Node, b: Node, h: string)
    requires Inert(a, h) && Inert(b, h) && !a.Text?
    ensures InertAll([a, b], h)
  {
    InertOne(b, h);
    assert [a, b][1..] == [b];
  }
}
