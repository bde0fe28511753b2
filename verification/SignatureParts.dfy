/**
 The parts of a signature element, and what each of them sees.

 `ds:SignedInfo` depends on the digests alone, `ds:SignatureValue` on the value
 alone, and the two objects the signature references in itself on no filled-in
 value at all. This is why a later pass never disturbs what an earlier one hashed.
 */
module SignatureParts {
  import opened XmlTree
  import opened C14n
  import opened Ids
  import opened References
  import opened ReferenceTheorems
  import opened Names
  import opened SignatureXml
  import opened Growth
  import opened Planner
  import opened Working

  const SIGNED_INFO: Path := [0]
  const SIGNATURE_VALUE: Path := [1]
  const PROFILE_OBJECT: Path := [3]
  const QUALIFYING: Path := [4, 0]
  const SIGNED_PROPERTIES: Path := [4, 0, 0]

  /** One step down. */
  lemma StepDown(n: Node, k: nat, outer: Scope)
    requires k < |Kids(n)|
    ensures Valid(n, [k]) && At(n, [k]) == Kids(n)[k]
    ensures ScopeAbove(n, [k], outer) == Extend(DeclsOf(n), outer) && XmlAbove(n, [k]) == XmlAttrsOf(n)
  {
    assert [k][1..] == [];
    assert [] + XmlAttrsOf(n) == XmlAttrsOf(n);
  }

  function Tag(id: string): seq<Attr> {
    XmlAttrs([Named("Id", id)])
  }

  lemma KidView(id: string, signing: Signing, refs: seq<PlannedReference>, f: Filling, k: nat, outer: Scope)
    requires |refs| == |f.digests| && k < 5
    ensures var s := SignatureNode(id, signing, refs, f);
            && Valid(s, [k]) && At(s, [k]) == SignatureKids(id, signing, refs, f)[k]
            && ScopeAbove(s, [k], outer) == Extend([Decl("ds", XMLDSIG)], outer) && XmlAbove(s, [k]) == Tag(id)
  {
    hide SignedInfoNode, SignatureValueNode, KeyInfoNode, ProfileObjectNode, QualifyingObjectNode, OpenTag;
    StepDown(SignatureNode(id, signing, refs, f), k, outer);
  }

  lemma PropertiesView(id: string, signing: Signing, refs: seq<PlannedReference>, token: string, outer: Scope)
    ensures var o := QualifyingObjectNode(id, signing, refs, token);
            && Valid(o, [0, 0]) && At(o, [0, 0]) == SignedPropertiesNode(id, signing, refs)
            && ScopeAbove(o, [0, 0], outer) == Extend([Decl("xades", XADES)], Extend([], outer))
            && XmlAbove(o, [0, 0]) == XmlAttrs([Named("Target", "#" + id)]) + Tag(QualifyingObjectId(id))
  {
    var o, q := QualifyingObjectNode(id, signing, refs, token), QualifyingNode(id, signing, refs, token);
    hide SignedPropertiesNode, Unsigned, OpenTag, Extend, XmlAttrs;
    StepDown(q, 0, Extend([], outer));
    OneDown(o, 0, [0], outer);
    assert [0] + [0] == [0, 0];
  }

  /** Two fillings a part cannot tell apart. */
  predicate SamePart(f: Filling, g: Filling, r: Path) {
    || r == PROFILE_OBJECT || r == SIGNED_PROPERTIES
    || (r == SIGNED_INFO && f.digests == g.digests)
    || (r == SIGNATURE_VALUE && f.value == g.value)
  }

  lemma SameKid(id: string, signing: Signing, refs: seq<PlannedReference>, f: Filling, g: Filling, k: nat)
    requires |refs| == |f.digests| == |g.digests| && k < 5 && SamePart(f, g, [k])
    ensures SignatureKids(id, signing, refs, f)[k] == SignatureKids(id, signing, refs, g)[k]
  {
    hide SignedInfoNode, SignatureValueNode, KeyInfoNode, ProfileObjectNode, QualifyingObjectNode;
    assert [k][0] == k;
  }

  lemma KidPartView(doc: Node, plan: Plan, signing: Signing, f: Filling, g: Filling, k: nat)
    requires Insertable(doc, plan) && |plan.references| == |f.digests| == |g.digests| && k < 5 && SamePart(f, g, [k])
    ensures Valid(SignatureOf(plan, signing, f), [k]) && Valid(SignatureOf(plan, signing, g), [k])
    ensures NewView(doc, plan.container, SignatureOf(plan, signing, f), [k]) == NewView(doc, plan.container, SignatureOf(plan, signing, g), [k])
    ensures At(SignatureOf(plan, signing, f), [k]).Element?
  {
    hide SignatureNode, SignatureKids, Valid, At, ScopeAbove, XmlAbove, SamePart, ScopeInside, XmlInside, Tag, Extend;
    KidView(plan.id, signing, plan.references, f, k, ScopeInside(doc, plan.container));
    KidView(plan.id, signing, plan.references, g, k, ScopeInside(doc, plan.container));
    SameKid(plan.id, signing, plan.references, f, g, k);
    KidsAreElements(plan.id, signing, plan.references, f, k);
  }

  lemma FifthKid(id: string, signing: Signing, refs: seq<PlannedReference>, f: Filling)
    requires |refs| == |f.digests|
    ensures SignatureKids(id, signing, refs, f)[4] == QualifyingObjectNode(id, signing, refs, f.token)
  {
    hide SignedInfoNode, SignatureValueNode, KeyInfoNode, ProfileObjectNode, QualifyingObjectNode;
  }

  lemma PropertiesInSignature(id: string, signing: Signing, refs: seq<PlannedReference>, f: Filling, outer: Scope)
    requires |refs| == |f.digests|
    ensures var s := SignatureNode(id, signing, refs, f);
            && Valid(s, SIGNED_PROPERTIES) && At(s, SIGNED_PROPERTIES) == SignedPropertiesNode(id, signing, refs)
            && ScopeAbove(s, SIGNED_PROPERTIES, outer)
               == Extend([Decl("xades", XADES)], Extend([], Extend([Decl("ds", XMLDSIG)], outer)))
            && XmlAbove(s, SIGNED_PROPERTIES)
               == XmlAttrs([Named("Target", "#" + id)]) + Tag(QualifyingObjectId(id)) + Tag(id)
  {
    hide SignatureNode, SignatureKids, QualifyingObjectNode, SignedPropertiesNode, Extend, XmlAttrs, Valid, At, ScopeAbove, XmlAbove, Tag;
    KidView(id, signing, refs, f, 4, outer);
    PropertiesView(id, signing, refs, f.token, Extend([Decl("ds", XMLDSIG)], outer));
    assert SIGNED_PROPERTIES == [4] + [0, 0];
    FifthKid(id, signing, refs, f);
    ContextConcat(SignatureNode(id, signing, refs, f), [4], [0, 0], outer);
    AtConcat(SignatureNode(id, signing, refs, f), [4], [0, 0]);
  }

  lemma PartView(doc: Node, plan: Plan, signing: Signing, f: Filling, g: Filling, r: Path)
    requires Insertable(doc, plan) && |plan.references| == |f.digests| == |g.digests| && SamePart(f, g, r)
    ensures Valid(SignatureOf(plan, signing, f), r) && Valid(SignatureOf(plan, signing, g), r)
    ensures NewView(doc, plan.container, SignatureOf(plan, signing, f), r) == NewView(doc, plan.container, SignatureOf(plan, signing, g), r)
    ensures At(SignatureOf(plan, signing, f), r).Element?
  {
    hide SignatureNode, SignedPropertiesNode, Valid, At, ScopeAbove, XmlAbove, ScopeInside, XmlInside, Extend, XmlAttrs, Tag;
    if r == SIGNED_PROPERTIES {
      PropertiesInSignature(plan.id, signing, plan.references, f, ScopeInside(doc, plan.container));
      PropertiesInSignature(plan.id, signing, plan.references, g, ScopeInside(doc, plan.container));
      PropertiesAreElement(plan.id, signing, plan.references);
    } else {
      assert r == [r[0]];
      KidPartView(doc, plan, signing, f, g, r[0]);
    }
  }

  lemma PropertiesAreElement(id: string, signing: Signing, refs: seq<PlannedReference>)
    ensures SignedPropertiesNode(id, signing, refs).Element?
  {
    hide Formats, SignatureProperties, OpenTag;
  }

  lemma KidsAreElements(id: string, signing: Signing, refs: seq<PlannedReference>, f: Filling, k: nat)
    requires |refs| == |f.digests| && k < 5
    ensures SignatureKids(id, signing, refs, f)[k].Element?
  {
    hide ReferenceNodes, ProfileNode, QualifyingNode, OpenTag;
  }

  /** A part has the same octets in any two working documents whose fillings it cannot tell apart. */
  lemma PartOctets(doc: Node, plans: seq<Plan>, signing: Signing, fills: seq<Filling>, next: seq<Filling>, i: nat, r: Path,
                   algorithm: Algorithm)
    requires AllInsertable(doc, plans) && Matching(plans, fills) && Matching(plans, next) && i < |plans| && plans[i] in plans
    requires SamePart(fills[i], next[i], r)
    ensures var p := Place(doc, plans[i]) + r;
            var v, w := WorkingDocument(doc, plans, signing, fills), WorkingDocument(doc, plans, signing, next);
            IsElement(v, p) && IsElement(w, p) && Agree(v, w, WithoutComments(Subtree(p)), algorithm, [])
  {
    hide SignatureNode, WorkingDocument, Place, ScopeInside, XmlInside, Agree;
    PartView(doc, plans[i], signing, fills[i], next[i], r);
    NewNodeView(doc, plans, signing, fills, i, r);
    NewNodeView(doc, plans, signing, next, i, r);
    SameViewAgrees(WorkingDocument(doc, plans, signing, fills), WorkingDocument(doc, plans, signing, next),
                   WithoutComments(Subtree(Place(doc, plans[i]) + r)), algorithm, []);
  }

  lemma SameViewSameTarget(v: Node, w: Node, p: Path)
    requires Valid(v, p) && Target(w, p) && ViewAt(v, p, BASE_SCOPE) == ViewAt(w, p, BASE_SCOPE)
    ensures Target(v, p) && At(v, p) == At(w, p)
  {
    assert ViewAt(v, p, BASE_SCOPE).node == ViewAt(w, p, BASE_SCOPE).node;
  }

  /** The node and the octets of a node set do not tell the two documents apart. */
  predicate Agree(v: Node, w: Node, nodes: NodeSet, algorithm: Algorithm, prefixes: seq<string>) {
    && Target(v, nodes.apex) && Target(w, nodes.apex) && At(v, nodes.apex) == At(w, nodes.apex)
    && Octets(v, nodes, algorithm, prefixes) == Octets(w, nodes, algorithm, prefixes)
  }

  lemma SameViewAgrees(v: Node, w: Node, nodes: NodeSet, algorithm: Algorithm, prefixes: seq<string>)
    requires Valid(v, nodes.apex) && Target(w, nodes.apex)
    requires ViewAt(v, nodes.apex, BASE_SCOPE) == ViewAt(w, nodes.apex, BASE_SCOPE)
    ensures Agree(v, w, nodes, algorithm, prefixes)
  {
    hide Octets, ViewAt;
    SameViewSameTarget(v, w, nodes.apex);
    SameViewSameOctets(v, w, nodes, algorithm, prefixes);
  }

  /** A node that was there before has the same octets in every working document and in the original. */
  lemma OldOctets(doc: Node, plans: seq<Plan>, signing: Signing, fills: seq<Filling>, nodes: NodeSet,
                  algorithm: Algorithm, prefixes: seq<string>)
    requires AllInsertable(doc, plans) && Matching(plans, fills) && Target(doc, nodes.apex)
    requires forall q :: q in plans ==> !(nodes.apex <= q.container)
    ensures Agree(WorkingDocument(doc, plans, signing, fills), doc, nodes, algorithm, prefixes)
  {
    hide WorkingDocument, Agree, ViewAt, AllInsertable, Matching;
    OldNodeView(doc, plans, signing, fills, nodes.apex);
    SameViewAgrees(WorkingDocument(doc, plans, signing, fills), doc, nodes, algorithm, prefixes);
  }
}
