/**
 The verifier's side of a signing run: every reference the signer wrote resolves
 in the returned document's ID space, and its digest matches.
 */
module Acceptance {
  import opened Wrappers
  import opened XmlTree
  import opened C14n
  import opened Ids
  import opened Dossier
  import opened SignatureXml
  import opened SignatureParts
  import opened Planner
  import opened Working
  import opened WorkingIds
  import opened References
  import opened ReferenceParsing
  import opened Run
  import opened RunTheorems

  // --------------------------------------------------------- written and read

  lemma NamedStep(a: Node, rest: seq<Node>, local: string)
    ensures KidsNamed([a] + rest, XMLDSIG, local) == (if IsNamed(a, XMLDSIG, local) then [a] else []) + KidsNamed(rest, XMLDSIG, local)
  {
    hide IsNamed;
    assert ([a] + rest)[1..] == rest;
  }

  lemma ThreeNamed(a: Node, b: Node, c: Node, local: string)
    ensures KidsNamed([a, b, c], XMLDSIG, local)
         == (if IsNamed(a, XMLDSIG, local) then [a] else []) + (if IsNamed(b, XMLDSIG, local) then [b] else [])
            + (if IsNamed(c, XMLDSIG, local) then [c] else [])
  {
    hide IsNamed;
    NamedStep(a, [b, c], local);
    NamedStep(b, [c], local);
    NamedStep(c, [], local);
    assert [a] + [b, c] == [a, b, c] && [b] + [c] == [b, c] && [c] + [] == [c];
    assert KidsNamed([], XMLDSIG, local) == [];
  }

  lemma ThreeKids(a: Node, b: Node, c: Node)
    requires IsNamed(a, XMLDSIG, "Transforms") && IsNamed(b, XMLDSIG, "DigestMethod") && IsNamed(c, XMLDSIG, "DigestValue")
    ensures KidsNamed([a, b, c], XMLDSIG, "Transforms") == [a]
    ensures KidsNamed([a, b, c], XMLDSIG, "DigestMethod") == [b]
    ensures KidsNamed([a, b, c], XMLDSIG, "DigestValue") == [c]
  {
    hide KidsNamed;
    ThreeNamed(a, b, c, "Transforms");
    ThreeNamed(a, b, c, "DigestMethod");
    ThreeNamed(a, b, c, "DigestValue");
  }

  lemma DsNamed(local: string, attrs: seq<Attr>, kids: seq<Node>)
    ensures DsElement(local, attrs, kids).Element? && IsNamed(DsElement(local, attrs, kids), XMLDSIG, local)
    ensures DsElement(local, attrs, kids).attrs == attrs && DsElement(local, attrs, kids).children == kids
  {
    hide OpenTag;
  }

  lemma OneAttribute(n: Node, name: string, value: string)
    requires n.Element? && n.attrs == [Named(name, value)]
    ensures AttributeOf(n, name) == Some(value)
  {}

  lemma AttrStep(first: Attr, rest: seq<Attr>, name: string)
    requires first.ns == ""
    ensures AttrValue([first] + rest, name) == if first.local == name then Some(first.value) else AttrValue(rest, name)
  {
    assert ([first] + rest)[1..] == rest;
  }

  lemma ReferenceAttributes(r: PlannedReference, n: Node)
    requires n.Element? && n.attrs == ReferenceAttrs(r)
    ensures AttributeOf(n, "URI") == Some(r.uri) && AttributeOf(n, "Type") == r.referenceType
  {
    hide AttrValue;
    var more := match r.referenceType case Some(t) => [Named("Type", t)] case None => [];
    var id, uri := Named("Id", r.id), Named("URI", r.uri);
    assert n.attrs == [id] + ([uri] + more);
    AttrStep(id, [uri] + more, "URI");
    AttrStep(uri, more, "URI");
    AttrStep(id, [uri] + more, "Type");
    AttrStep(uri, more, "Type");
    NoAttr("Type");
    match r.referenceType {
      case Some(t) =>
        AttrStep(Named("Type", t), [], "Type");
        assert [Named("Type", t)] + [] == more;
      case None =>
    }
  }

  lemma NoAttr(name: string)
    ensures AttrValue([], name) == None
  {}

  lemma OneStep(transform: Node, uri: string)
    requires IsNamed(transform, XMLDSIG, "Transform") && transform.children == [] && AttributeOf(transform, "Algorithm") == Some(uri)
    ensures KidsNamed([transform], XMLDSIG, "Transform") == [transform]
    ensures ParseTransforms([transform]) == [TransformStep(uri, [])]
  {
    hide AttributeOf;
    assert [transform][1..] == [];
    assert KidNamed(transform, EXC_C14N, "InclusiveNamespaces") == None;
  }

  /** What the signer writes, the verifier reads. */
  lemma WrittenIsRead(r: PlannedReference, digest: string)
    ensures ParseReference(ReferenceNode(r, digest))
         == Reference(r.uri, r.referenceType, [TransformStep(C14N_EXCLUSIVE, [])], SHA256, digest)
  {
    hide Make, DsElement, IsNamed, AttributeOf, ReferenceAttrs;
    var node := ReferenceNode(r, digest);
    var transform, method' := Digesting("Transform", C14N_EXCLUSIVE), Digesting("DigestMethod", SHA256);
    var value := DsElement("DigestValue", [], Raw(digest));
    DsNamed("Transform", [Named("Algorithm", C14N_EXCLUSIVE)], []);
    DsNamed("DigestMethod", [Named("Algorithm", SHA256)], []);
    DsNamed("Transforms", [], [transform]);
    DsNamed("DigestValue", [], Raw(digest));
    DsNamed("Reference", ReferenceAttrs(r), [TransformsNode(), method', value]);
    ReferenceAttributes(r, node);
    OneAttribute(transform, "Algorithm", C14N_EXCLUSIVE);
    OneAttribute(method', "Algorithm", SHA256);
    ThreeKids(TransformsNode(), method', value);
    OneStep(transform, C14N_EXCLUSIVE);
    hide InclusivePrefixes, ParseTransforms, KidsNamed;
    assert Raw(digest)[1..] == [] && TextOf(Raw(digest)) == digest;
  }

  // ------------------------------------------------------------ where they are

  lemma {:induction false} ReferenceNodesAt(refs: seq<PlannedReference>, ds: seq<string>, j: nat)
    requires |refs| == |ds| && j < |refs|
    ensures |ReferenceNodes(refs, ds)| == |refs| && ReferenceNodes(refs, ds)[j] == ReferenceNode(refs[j], ds[j])
  {
    hide ReferenceNode;
    if j > 0 {
      ReferenceNodesAt(refs[1..], ds[1..], j - 1);
    } else if |refs| > 1 {
      ReferenceNodesAt(refs[1..], ds[1..], 0);
    }
  }

  /** Past the two method elements. */
  function Past(j: nat): Path {
    [2 + j]
  }

  lemma ReferenceInInfo(algorithm: SignatureAlgorithm, refs: seq<PlannedReference>, ds: seq<string>, j: nat)
    requires |refs| == |ds| && j < |refs|
    ensures IsAt(SignedInfoNode(algorithm, refs, ds), Past(j), ReferenceNode(refs[j], ds[j]))
  {
    hide ReferenceNode, ReferenceNodes, Digesting, OpenTag;
    ReferenceNodesAt(refs, ds, j);
    var info := SignedInfoNode(algorithm, refs, ds);
    assert |Methods(algorithm)| == 2;
    assert Kids(info)[2 + j] == ReferenceNodes(refs, ds)[j];
    StepDown(info, 2 + j, []);
  }

  lemma TwoDown(s: Node, k: nat, m: nat, a: Node, x: Node)
    requires IsAt(s, [k], a) && IsAt(a, [m], x)
    ensures IsAt(s, [k, m], x)
  {
    hide Valid, At;
    assert [k] + [m] == [k, m];
    AtConcat(s, [k], [m]);
  }

  /** Where reference `j` is in a signature. */
  function ReferencePath(j: nat): Path {
    [0, 2 + j]
  }

  lemma InfoIsFirst(id: string, signing: Signing, refs: seq<PlannedReference>, f: Filling)
    requires |refs| == |f.digests|
    ensures IsAt(SignatureNode(id, signing, refs, f), [0], SignedInfoNode(signing.algorithm, refs, f.digests))
  {
    hide SignatureNode, SignatureKids, SignedInfoNode, Valid, At, ScopeAbove, XmlAbove, Extend;
    KidView(id, signing, refs, f, 0, []);
    FirstKid(id, signing, refs, f);
  }

  lemma ReferenceInSignature(id: string, signing: Signing, refs: seq<PlannedReference>, f: Filling, j: nat)
    requires |refs| == |f.digests| && j < |refs|
    ensures IsAt(SignatureNode(id, signing, refs, f), ReferencePath(j), ReferenceNode(refs[j], f.digests[j]))
  {
    hide SignatureNode, SignedInfoNode, ReferenceNode, IsAt;
    InfoIsFirst(id, signing, refs, f);
    ReferenceInInfo(signing.algorithm, refs, f.digests, j);
    TwoDown(SignatureNode(id, signing, refs, f), 0, 2 + j, SignedInfoNode(signing.algorithm, refs, f.digests),
            ReferenceNode(refs[j], f.digests[j]));
  }

  lemma FirstKid(id: string, signing: Signing, refs: seq<PlannedReference>, f: Filling)
    requires |refs| == |f.digests|
    ensures SignatureKids(id, signing, refs, f)[0] == SignedInfoNode(signing.algorithm, refs, f.digests)
  {
    hide SignedInfoNode, SignatureValueNode, KeyInfoNode, ProfileObjectNode, QualifyingObjectNode;
  }

  lemma ReferenceInDocument(doc: Node, plans: seq<Plan>, signing: Signing, fills: seq<Filling>, i: nat, j: nat)
    requires AllInsertable(doc, plans) && Matching(plans, fills) && i < |plans| && plans[i] in plans && j < |plans[i].references|
    ensures var w := WorkingDocument(doc, plans, signing, fills); var p := Place(doc, plans[i]) + ReferencePath(j);
            Valid(w, p) && At(w, p) == ReferenceNode(plans[i].references[j], fills[i].digests[j])
  {
    hide WorkingDocument, SignatureNode, ReferenceNode, Place, ReferencePath;
    ReferenceInSignature(plans[i].id, signing, plans[i].references, fills[i], j);
    SignaturesInPlace(doc, plans, signing, fills);
    AtConcat(WorkingDocument(doc, plans, signing, fills), Place(doc, plans[i]), ReferencePath(j));
  }

  // ------------------------------------------------------------- verification

  /** The verifier's SHA-256 and Base64 are the signer's. */
  ghost predicate SameLibrary(library: Library, b: Backend) {
    forall octets :: library.hash(SHA256, octets).Some?
                     && library.decodeText(b.digest(octets)) == library.hash(SHA256, octets)
  }

  lemma ExclusiveIsKnown()
    ensures TransformOf(C14N_EXCLUSIVE) == Some(Canonicalization(Exclusive(false)))
  {
    assert |C14N_EXCLUSIVE| != |ENVELOPED_SIGNATURE| && |C14N_EXCLUSIVE| != |C14N_INCLUSIVE|;
    assert |C14N_EXCLUSIVE| != |C14N_INCLUSIVE_WITH_COMMENTS| && |C14N_EXCLUSIVE| != |BASE64_TRANSFORM|;
  }

  /** A chain of one exclusive canonicalization digests the canonical octets. */
  lemma OneTransform(doc: Node, library: Library, signature: Path, t: Path)
    requires IsElement(doc, t)
    ensures DigestOctets(doc, library, signature, [TransformStep(C14N_EXCLUSIVE, [])], t) == Some(Canonical(doc, t))
  {
    hide Octets;
    var step := TransformStep(C14N_EXCLUSIVE, []);
    var nodes := WithoutComments(Subtree(t));
    assert [step][1..] == [];
    ExclusiveIsKnown();
    hide TransformOf;
    assert Apply(doc, library, signature, step, Nodes(nodes)) == Some(Bytes(Canonical(doc, t)));
    assert ApplyAll(doc, library, signature, [], Bytes(Canonical(doc, t))) == Some(Bytes(Canonical(doc, t)));
  }

  /** The reference at `p` resolves to `t`, and the octets of `t` have the digest it states. */
  predicate Verifies(doc: Node, library: Library, signature: Path, p: Path, t: Path) {
    && IdMap(doc).Some? && IsElement(doc, p) && Target(doc, t)
    && ResolveReference(IdMap(doc).value, ParseReference(At(doc, p)).uri) == Some(t)
    && DigestMatches(doc, library, signature, ParseReference(At(doc, p)), t) == Some(true)
  }

  lemma DigestVerifies(doc: Node, library: Library, b: Backend, signature: Path, p: Path, r: PlannedReference, digest: string, t: Path)
    requires SameLibrary(library, b) && IsAt(doc, p, ReferenceNode(r, digest)) && NamesOne(r.uri) && IdMap(doc).Some?
    requires ById(doc, r.uri[1..]) == Some(t) && IsElement(doc, t) && digest == b.digest(Canonical(doc, t))
    ensures Verifies(doc, library, signature, p, t)
  {
    ReferenceIsElement(r, digest);
    hide Canonical, IdMap, ReferenceNode, DigestOctets, ParseReference;
    WrittenIsRead(r, digest);
    ByIdExact(doc, r.uri[1..]);
    ByIdIsTheMap(doc, r.uri[1..], t);
    OneTransform(doc, library, signature, t);
    assert library.hash(SHA256, Canonical(doc, t)).Some?;
  }

  lemma ReferenceIsElement(r: PlannedReference, digest: string)
    ensures ReferenceNode(r, digest).Element?
  {
    hide OpenTag;
  }

  /** Every reference of every signature a run wrote resolves, in the returned document's ID space, to
      the element it was planned for, and the verifier recomputes its digest. */
  lemma EveryReferenceVerifies(doc: Node, plans: seq<Plan>, signing: Signing, b: Backend, library: Library, i: nat, j: nat)
    requires Runnable(doc, plans) && NoneTaken(doc, plans) && RunPasses(doc, plans, signing, b).Ok? && SameLibrary(library, b)
    requires i < |plans| && j < |plans[i].references| && plans[i] in plans
    ensures Verifies(WorkingDocument(doc, plans, signing, RunPasses(doc, plans, signing, b).value.final), library,
                     Place(doc, plans[i]), Place(doc, plans[i]) + ReferencePath(j), TargetPath(doc, plans, plans[i], j))
  {
    hide WorkingDocument, RunPasses, Canonical, IdMap, Fresh, AimedPlan, Place, ReferenceNode, FoundById, TargetPath, NoneTaken,
         Verifies, ReferencePath;
    var fills := RunPasses(doc, plans, signing, b).value.final;
    var w := WorkingDocument(doc, plans, signing, fills);
    var t := TargetPath(doc, plans, plans[i], j);
    ThreePassConsistency(doc, plans, signing, b);
    assert DigestFits(w, plans[i].references[j].uri, t, fills[i].digests[j], b);
    TargetFound(doc, plans, signing, fills, i, j);
    ReferenceInDocument(doc, plans, signing, fills, i, j);
    IdSpaceSurvives(doc, plans, signing, fills);
    DigestVerifies(w, library, b, Place(doc, plans[i]), Place(doc, plans[i]) + ReferencePath(j), plans[i].references[j],
                   fills[i].digests[j], t);
  }
}
