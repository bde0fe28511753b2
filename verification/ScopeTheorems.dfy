/**
 The signer meets the verifier: every signature a run writes over an accepted
 dossier is classified as a document or a dossier signature, and covers all the
 e-dossier format requires of it.
 */
module ScopeTheorems {
  import opened Wrappers
  import opened XmlTree
  import opened Ids
  import opened Dossier
  import opened GrownLayout
  import opened SignatureXml
  import opened SignatureParts
  import opened Planner
  import opened Working
  import opened WorkingIds
  import opened References
  import opened ReferenceParsing
  import opened Run
  import opened RunTheorems
  import opened Acceptance
  import opened Scope

  // ------------------------------------------------------ around the container

  lemma SignatureIsNamed(plan: Plan, signing: Signing, f: Filling)
    requires |plan.references| == |f.digests|
    ensures var s := SignatureOf(plan, signing, f); s.Element? && s.local == "Signature" && IsDsSignature(s)
  {
    hide SignatureKids, OpenTag;
  }

  // ----------------------------------------------------------------- ownership

  /** No signature at or above. */
  ghost predicate NoneAtOrAbove(doc: Node, p: Path) {
    forall e :: e <= p && Valid(doc, e) ==> !IsDsSignature(At(doc, e))
  }

  lemma NoneAtStep(doc: Node, p: Path)
    requires Valid(doc, p) && p != []
    ensures NoneAtOrAbove(doc, p) <==> NoneAtOrAbove(doc, Parent(p)) && !IsDsSignature(At(doc, p))
  {
    hide IsDsSignature, Valid, At;
    assert Parent(p) <= p <= p;
    if NoneAtOrAbove(doc, p) {
      forall e | e <= Parent(p) && Valid(doc, e)
        ensures !IsDsSignature(At(doc, e))
      {
        assert e <= p;
      }
    }
    if NoneAtOrAbove(doc, Parent(p)) && !IsDsSignature(At(doc, p)) {
      forall e | e <= p && Valid(doc, e)
        ensures !IsDsSignature(At(doc, e))
      {
        BelowParent(p, e);
        if !(e < p) { assert e == p[..|e|] == p; }
      }
    }
  }

  lemma NoneAtTop(doc: Node)
    ensures NoneAtOrAbove(doc, []) <==> !IsDsSignature(At(doc, []))
    ensures NoneAbove(doc, [])
  {
    assert Valid(doc, []) && forall e: Path :: e <= [] && Valid(doc, e) ==> e == [];
  }

  lemma {:induction false} OwnerlessExact(doc: Node, p: Path)
    requires Valid(doc, p)
    ensures OwningSignature(doc, p).None? <==> NoneAtOrAbove(doc, p)
    decreases |p|
  {
    hide IsDsSignature, Valid, At, NoneAtOrAbove;
    if p == [] {
      NoneAtTop(doc);
    } else {
      AbovePath(doc, p);
      NoneAtStep(doc, p);
      OwnerlessExact(doc, Parent(p));
    }
  }

  /** Below a signature, with no other signature on the way. */
  predicate PlainWay(s: Node, r: Path) {
    forall k :: 1 <= k <= |r| ==> Valid(s, r[..k]) && !IsDsSignature(At(s, r[..k]))
  }

  lemma {:induction false} OwnedByAbove(w: Node, p: Path, s: Node, r: Path)
    requires IsAt(w, p, s) && IsDsSignature(s) && PlainWay(s, r)
    ensures Valid(w, p + r) && OwningSignature(w, p + r) == Some(p)
    decreases |r|
  {
    hide IsDsSignature, Valid, At;
    if r == [] {
      assert p + r == p;
    } else {
      var up := r[..|r| - 1];
      assert r[..|r|] == r;
      forall k | 1 <= k <= |up|
        ensures Valid(s, up[..k]) && !IsDsSignature(At(s, up[..k]))
      {
        assert up[..k] == r[..k];
      }
      OwnedByAbove(w, p, s, up);
      AtConcat(w, p, r);
      assert Parent(p + r) == p + up;
    }
  }

  /** The nearest signature strictly above `p`. */
  ghost predicate NearestAbove(doc: Node, p: Path, e: Path) {
    e < p && Valid(doc, e) && IsDsSignature(At(doc, e)) && ClearBefore(doc, e, p)
  }

  /** No signature below `e` on the way to `p`, `p` included. */
  ghost predicate ClearWay(doc: Node, e: Path, p: Path) {
    forall r :: e < r <= p && Valid(doc, r) ==> !IsDsSignature(At(doc, r))
  }

  lemma BelowParent(p: Path, r: Path)
    requires p != []
    ensures r <= Parent(p) <==> r < p
  {
    assert p == Parent(p) + [p[|p| - 1]];
  }

  /** Clear strictly below `p`. */
  ghost predicate ClearBefore(doc: Node, e: Path, p: Path) {
    forall r :: e < r < p && Valid(doc, r) ==> !IsDsSignature(At(doc, r))
  }

  lemma ClearStep(doc: Node, e: Path, p: Path)
    requires Valid(doc, p) && p != [] && e < p
    ensures ClearWay(doc, e, p) <==> ClearBefore(doc, e, p) && !IsDsSignature(At(doc, p))
    ensures ClearWay(doc, e, Parent(p)) <==> ClearBefore(doc, e, p)
  {
    hide IsDsSignature, Valid, At;
    if ClearWay(doc, e, p) {
      assert e < p <= p;
    }
    if ClearBefore(doc, e, p) && !IsDsSignature(At(doc, p)) {
      forall r | e < r <= p && Valid(doc, r)
        ensures !IsDsSignature(At(doc, r))
      {
        assert r == p || r < p;
      }
    }
    if ClearWay(doc, e, Parent(p)) {
      forall r | e < r < p && Valid(doc, r)
        ensures !IsDsSignature(At(doc, r))
      {
        BelowParent(p, r);
      }
    }
    if ClearBefore(doc, e, p) {
      forall r | e < r <= Parent(p) && Valid(doc, r)
        ensures !IsDsSignature(At(doc, r))
      {
        BelowParent(p, r);
      }
    }
  }

  lemma NothingBetween(doc: Node, p: Path)
    ensures ClearWay(doc, p, p)
  {}

  lemma {:induction false} OwningExact(doc: Node, p: Path, e: Path)
    requires Valid(doc, p)
    ensures OwningSignature(doc, p) == Some(e) <==> e <= p && Valid(doc, e) && IsDsSignature(At(doc, e)) && ClearWay(doc, e, p)
    decreases |p|
  {
    hide IsDsSignature, Valid, At, ClearWay, ClearBefore;
    NothingBetween(doc, p);
    assert e <= p && !(e < p) ==> e == p by {
      if e <= p && |e| == |p| { assert e == p[..|e|] == p; }
    }
    if p != [] {
      AbovePath(doc, p);
      BelowParent(p, e);
      if e < p { ClearStep(doc, e, p); }
      if !IsDsSignature(At(doc, p)) { OwningExact(doc, Parent(p), e); }
    }
  }

  /** The search upwards finds the nearest signature strictly above, and nothing exactly when there is none. */
  lemma EnclosingExact(doc: Node, p: Path, e: Path)
    requires Valid(doc, p)
    ensures EnclosingSignature(doc, p) == Some(e) <==> NearestAbove(doc, p, e)
  {
    hide IsDsSignature, Valid, At, ClearWay, ClearBefore;
    if p != [] {
      AbovePath(doc, p);
      OwningExact(doc, Parent(p), e);
      BelowParent(p, e);
      if e < p { ClearStep(doc, e, p); }
    }
  }

  /** The one shape of a nested signature the verifier judges: alone in a `CounterSignature` of the
      unsigned properties of the signature `e`, one of those it examined. */
  ghost predicate Countersigns(c: Context, s: Path, e: Path) {
    && NearestAbove(c.doc, s, e) && e in c.signatures && |s| > 1
    && var parent, properties := Parent(s), Parent(Parent(s));
       && Valid(c.doc, parent) && Valid(c.doc, properties)
       && IsXades(At(c.doc, parent), "CounterSignature") && IsXades(At(c.doc, properties), "UnsignedSignatureProperties")
       && |ChildrenNamed(c.doc, parent, XMLDSIG, "Signature")| == 1
       && NearestAbove(c.doc, properties, e)
  }

  lemma {:induction false} IndexFound(signatures: seq<Path>, p: Path)
    ensures IndexOf(signatures, p).Some? <==> p in signatures
    ensures IndexOf(signatures, p).Some? ==> IndexOf(signatures, p).value < |signatures| && signatures[IndexOf(signatures, p).value] == p
  {
    if signatures != [] { IndexFound(signatures[1..], p); }
  }

  /** A nested signature is a countersignature in that one shape, and otherwise not placed at all. */
  lemma NestedMeans(c: Context, s: Path, e: Path)
    requires Valid(c.doc, s) && EnclosingSignature(c.doc, s) == Some(e)
    ensures PlacementOf(c, s).scope == if Countersigns(c, s, e) then Countersignature else UnknownPlacement
    ensures PlacementOf(c, s).enclosing == Some(e)
  {
    hide Valid, At, ChildrenNamed, IsXades, EnclosingSignature, NearestAbove, IndexOf;
    EnclosingExact(c.doc, s, e);
    assert s != [] by { AboveIsProper(c.doc, s, e); }
    AbovePath(c.doc, s);
    IndexFound(c.signatures, e);
    var parent := Parent(s);
    if parent != [] {
      AbovePath(c.doc, parent);
      EnclosingExact(c.doc, Parent(parent), e);
    }
    XadesIsElement(At(c.doc, parent), "CounterSignature");
  }

  /** No signature strictly above. */
  ghost predicate NoneAbove(doc: Node, s: Path) {
    forall e :: e < s && Valid(doc, e) ==> !IsDsSignature(At(doc, e))
  }

  lemma StrictlyAbove(doc: Node, s: Path)
    requires s != []
    ensures NoneAbove(doc, s) <==> NoneAtOrAbove(doc, Parent(s))
  {
    hide IsDsSignature, Valid, At, Parent;
    if NoneAbove(doc, s) {
      forall e | e <= Parent(s) && Valid(doc, e)
        ensures !IsDsSignature(At(doc, e))
      {
        BelowParent(s, e);
      }
    }
    if NoneAtOrAbove(doc, Parent(s)) {
      forall e | e < s && Valid(doc, e)
        ensures !IsDsSignature(At(doc, e))
      {
        BelowParent(s, e);
      }
    }
  }

  lemma TopExact(doc: Node, s: Path)
    requires Valid(doc, s)
    ensures EnclosingSignature(doc, s).None? <==> NoneAbove(doc, s)
  {
    hide IsDsSignature, Valid, At, OwningSignature, NoneAbove, Parent;
    if s == [] {
      NoneAtTop(doc);
    } else {
      AbovePath(doc, s);
      OwnerlessExact(doc, Parent(s));
      StrictlyAbove(doc, s);
    }
  }

  lemma CountersignsNearest(c: Context, s: Path, e: Path)
    ensures Countersigns(c, s, e) ==> NearestAbove(c.doc, s, e)
  {}

  /** Where the verifier places a signature, read off the document: in a document or the dossier when no signature
      is above it and its parent is that element, a countersignature in the one shape, and nowhere otherwise. */
  lemma PlacementExact(c: Context, s: Path)
    requires Valid(c.doc, s)
    ensures PlacementOf(c, s).scope == InDocument <==>
              NoneAbove(c.doc, s) && s != [] && NamedAt(c.doc, Parent(s), c.namespace, "Document")
    ensures PlacementOf(c, s).scope == InDossier <==>
              NoneAbove(c.doc, s) && s != [] && NamedAt(c.doc, Parent(s), c.namespace, "Dossier")
    ensures PlacementOf(c, s).scope == Countersignature <==> exists e :: Countersigns(c, s, e)
  {
    hide EnclosingSignature, Valid, At, NoneAbove, Countersigns, NearestAbove, ChildrenNamed;
    TopExact(c.doc, s);
    if s != [] { AbovePath(c.doc, s); }
    match EnclosingSignature(c.doc, s) {
      case None =>
        forall e
          ensures !Countersigns(c, s, e)
        {
          EnclosingExact(c.doc, s, e);
          CountersignsNearest(c, s, e);
        }
      case Some(e) =>
        NestedMeans(c, s, e);
        forall other | Countersigns(c, s, other)
          ensures other == e
        {
          EnclosingExact(c.doc, s, other);
          CountersignsNearest(c, s, other);
        }
    }
  }

  lemma AboveIsProper(doc: Node, s: Path, e: Path)
    requires NearestAbove(doc, s, e)
    ensures s != []
  {}

  lemma XadesIsElement(n: Node, name: string)
    ensures IsXades(n, name) ==> n.Element?
  {}

  // ------------------------------------------------------------- the placement

  /** No signature is at or above it. */
  ghost predicate ClearContainer(doc: Node, q: Path) {
    forall p :: IsSignature(doc, p) ==> !(p <= q)
  }

  /** A run's signature is enclosed by no other. */
  lemma NotNested(doc: Node, plans: seq<Plan>, signing: Signing, fills: seq<Filling>, i: nat)
    requires AllInsertable(doc, plans) && Matching(plans, fills) && i < |plans| && plans[i] in plans
    requires ClearContainer(doc, plans[i].container)
    ensures var w := WorkingDocument(doc, plans, signing, fills);
            Valid(w, Place(doc, plans[i])) && EnclosingSignature(w, Place(doc, plans[i])) == None
  {
    hide SignatureOf, WorkingDocument, At, Valid, IsNamed, SameHead;
    var w, q := WorkingDocument(doc, plans, signing, fills), plans[i].container;
    SignaturesInPlace(doc, plans, signing, fills);
    var place := Place(doc, plans[i]);
    assert Parent(place) == q;
    AbovePath(w, place);
    forall r | r <= q && Valid(w, r)
      ensures !IsDsSignature(At(w, r))
    {
      assert q == r + q[|r|..];
      AtConcat(doc, r, q[|r|..]);
      WhereNodesAre(doc, plans, signing, fills, r);
      SameHeadSameName(At(w, r), At(doc, r), XMLDSIG, "Signature");
      assert !IsSignature(doc, r);
    }
    OwnerlessExact(w, q);
  }

  predicate NamedAt(doc: Node, p: Path, ns: string, local: string) {
    Valid(doc, p) && IsNamed(At(doc, p), ns, local)
  }

  /** Classified as a document signature or as a dossier signature. */
  predicate PlacedIn(c: Context, s: Path, name: string) {
    Valid(c.doc, s) && PlacementOf(c, s) == Placement(if name == "Document" then InDocument else InDossier, None, None)
  }

  lemma PlacedUnder(c: Context, s: Path, q: Path, name: string)
    requires Valid(c.doc, s) && s != [] && Parent(s) == q && EnclosingSignature(c.doc, s) == None
    requires (name == "Document" || name == "Dossier") && NamedAt(c.doc, q, c.namespace, name)
    ensures PlacedIn(c, s, name)
  {
    hide EnclosingSignature, Valid, At;
  }

  lemma StillNamed(doc: Node, plans: seq<Plan>, signing: Signing, fills: seq<Filling>, q: Path, ns: string, name: string)
    requires AllInsertable(doc, plans) && Matching(plans, fills) && NamedAt(doc, q, ns, name)
    ensures NamedAt(WorkingDocument(doc, plans, signing, fills), q, ns, name)
  {
    hide WorkingDocument, At, Valid, SameHead, IsNamed;
    WhereNodesAre(doc, plans, signing, fills, q);
    SameHeadSameName(At(WorkingDocument(doc, plans, signing, fills), q), At(doc, q), ns, name);
  }

  /** A document plan's signature is placed in the document, a dossier plan's in the dossier. */
  lemma PlacedWhereItGoes(doc: Node, plans: seq<Plan>, signing: Signing, fills: seq<Filling>, i: nat, c: Context, name: string)
    requires AllInsertable(doc, plans) && Matching(plans, fills) && i < |plans| && plans[i] in plans
    requires ClearContainer(doc, plans[i].container) && NamedAt(doc, plans[i].container, c.namespace, name)
    requires c.doc == WorkingDocument(doc, plans, signing, fills) && (name == "Document" || name == "Dossier")
    ensures PlacedIn(c, Place(doc, plans[i]), name)
  {
    hide WorkingDocument, At, Valid, EnclosingSignature, NamedAt, PlacedIn, IsSignature;
    NotNested(doc, plans, signing, fills, i);
    StillNamed(doc, plans, signing, fills, plans[i].container, c.namespace, name);
    PlacedUnder(c, Place(doc, plans[i]), plans[i].container, name);
  }

  // --------------------------------------------------------------- the scopes

  lemma InfoFound(id: string, signing: Signing, refs: seq<PlannedReference>, f: Filling)
    requires |refs| == |f.digests|
    ensures KidNamed(SignatureNode(id, signing, refs, f), XMLDSIG, "SignedInfo")
         == Some(SignedInfoNode(signing.algorithm, refs, f.digests))
  {
    hide SignedInfoNode, SignatureValueNode, KeyInfoNode, ProfileObjectNode, QualifyingObjectNode, OpenTag;
    FirstTwoKids(id, signing, refs, f);
    var kids := SignatureKids(id, signing, refs, f);
    assert kids == [kids[0]] + kids[1..];
    NamedStep(kids[0], kids[1..], "SignedInfo");
  }

  lemma {:induction false} ReferencesListed(refs: seq<PlannedReference>, ds: seq<string>)
    requires |refs| == |ds|
    ensures KidsNamed(ReferenceNodes(refs, ds), XMLDSIG, "Reference") == ReferenceNodes(refs, ds)
  {
    hide ReferenceNode, IsNamed;
    if refs != [] {
      ReferencesListed(refs[1..], ds[1..]);
      ReferenceIsNamed(refs[0], ds[0]);
      NamedStep(ReferenceNode(refs[0], ds[0]), ReferenceNodes(refs[1..], ds[1..]), "Reference");
    }
  }

  lemma ReferenceIsNamed(r: PlannedReference, d: string)
    ensures IsNamed(ReferenceNode(r, d), XMLDSIG, "Reference")
  {
    hide OpenTag;
  }

  lemma MethodsAreNoReferences(algorithm: SignatureAlgorithm)
    ensures |Methods(algorithm)| == 2
    ensures !IsNamed(Methods(algorithm)[0], XMLDSIG, "Reference") && !IsNamed(Methods(algorithm)[1], XMLDSIG, "Reference")
  {
    hide OpenTag, AlgorithmUri;
  }

  lemma SkipTwo(a: Node, b: Node, nodes: seq<Node>, local: string)
    requires !IsNamed(a, XMLDSIG, local) && !IsNamed(b, XMLDSIG, local)
    ensures KidsNamed([a, b] + nodes, XMLDSIG, local) == KidsNamed(nodes, XMLDSIG, local)
  {
    hide KidsNamed, IsNamed;
    NamedStep(a, [b] + nodes, local);
    NamedStep(b, nodes, local);
    var rest := KidsNamed(nodes, XMLDSIG, local);
    assert [a, b] + nodes == [a] + ([b] + nodes) && [] + rest == rest;
  }

  lemma InfoKids(algorithm: SignatureAlgorithm, refs: seq<PlannedReference>, ds: seq<string>)
    requires |refs| == |ds|
    ensures Kids(SignedInfoNode(algorithm, refs, ds)) == Methods(algorithm) + ReferenceNodes(refs, ds)
  {
    hide ReferenceNodes, Methods, OpenTag;
  }

  lemma ReferencesRead(algorithm: SignatureAlgorithm, refs: seq<PlannedReference>, ds: seq<string>)
    requires |refs| == |ds|
    ensures KidsNamed(Kids(SignedInfoNode(algorithm, refs, ds)), XMLDSIG, "Reference") == ReferenceNodes(refs, ds)
  {
    InfoKids(algorithm, refs, ds);
    hide ReferenceNodes, IsNamed, Methods, KidsNamed, SignedInfoNode;
    MethodsAreNoReferences(algorithm);
    ReferencesListed(refs, ds);
    SkipTwo(Methods(algorithm)[0], Methods(algorithm)[1], ReferenceNodes(refs, ds), "Reference");
    assert Methods(algorithm) == [Methods(algorithm)[0], Methods(algorithm)[1]];
  }

  function WholeElement(t: Path): ReferenceScope {
    ReferenceScope(Some(t), [], false)
  }

  lemma OneExclusiveScope(signature: Path, t: Path)
    ensures EffectiveNodeSet(signature, [TransformStep(C14N_EXCLUSIVE, [])], t) == WholeElement(t)
  {
    ExclusiveIsKnown();
    hide TransformOf;
    var steps := [TransformStep(C14N_EXCLUSIVE, [])];
    assert steps[1..] == [];
    assert Narrow(WholeElement(t), signature, steps[1..]) == WholeElement(t);
    assert Narrow(WholeElement(t), signature, steps) == WholeElement(t);
  }

  lemma {:induction false} ScopesRead(doc: Node, ids: map<string, Path>, signature: Path, refs: seq<PlannedReference>,
                                      ds: seq<string>, j: nat, t: Path)
    requires |refs| == |ds| && j < |refs| && ResolveReference(ids, refs[j].uri) == Some(t)
    ensures WholeElement(t) in ScopesOfReferences(doc, ids, signature, ReferenceNodes(refs, ds))
  {
    hide ReferenceNode, ParseReference, EffectiveNodeSet, WholeElement, ResolveReference;
    var nodes := ReferenceNodes(refs, ds);
    WrittenIsRead(refs[0], ds[0]);
    assert nodes[0] == ReferenceNode(refs[0], ds[0]) && nodes[1..] == ReferenceNodes(refs[1..], ds[1..]);
    if j == 0 {
      OneExclusiveScope(signature, t);
    } else {
      assert refs[j] == refs[1..][j - 1];
      ScopesRead(doc, ids, signature, refs[1..], ds[1..], j - 1, t);
    }
  }

  /** Each reference's target is wholly covered. */
  predicate CoveredFrom(w: Node, s: Path, limit: nat, t: Path) {
    IdMap(w).Some? && Valid(w, s) && CoveredBySome(ScopesOf(w, IdMap(w).value, s, limit), t)
  }

  lemma TargetCovered(doc: Node, plans: seq<Plan>, signing: Signing, fills: seq<Filling>, i: nat, j: nat, limit: nat)
    requires Runnable(doc, plans) && NoneTaken(doc, plans) && Matching(plans, fills)
    requires i < |plans| && plans[i] in plans && j < |plans[i].references| <= limit
    ensures CoveredFrom(WorkingDocument(doc, plans, signing, fills), Place(doc, plans[i]), limit, TargetPath(doc, plans, plans[i], j))
  {
    hide WorkingDocument, IdMap, Fresh, AimedPlan, Place, SignatureNode, SignedInfoNode, ReferenceNodes, FoundById, TargetPath,
         NoneTaken, ScopesOfReferences, KidsNamed, KidNamed, WholeElement, At, Valid;
    var w := WorkingDocument(doc, plans, signing, fills);
    IdSpaceSurvives(doc, plans, signing, fills);
    TargetFound(doc, plans, signing, fills, i, j);
    SignaturesInPlace(doc, plans, signing, fills);
    var refs, ds, t := plans[i].references, fills[i].digests, TargetPath(doc, plans, plans[i], j);
    var id := refs[j].uri[1..];
    ByIdExact(w, id);
    ByIdIsTheMap(w, id, t);
    InfoFound(plans[i].id, signing, refs, fills[i]);
    ReferencesRead(signing.algorithm, refs, ds);
    assert |ReferenceNodes(refs, ds)| == |refs| by { ReferenceNodesAt(refs, ds, j); }
    ScopesRead(w, IdMap(w).value, Place(doc, plans[i]), refs, ds, j, t);
    assert Covers(WholeElement(t), t) by { WholeCovers(t); }
  }

  lemma WholeCovers(t: Path)
    ensures Covers(WholeElement(t), t)
  {}

  // --------------------------------------------------- what is inside the signature

  lemma {:induction false} ProfileFound(c: Context, signature: Path, nodes: seq<Path>, p: Path)
    requires p in nodes && IsOwnProfile(c, signature, p)
    ensures FirstProfile(c, signature, nodes).Some?
  {
    hide IsOwnProfile;
    if !IsOwnProfile(c, signature, nodes[0]) {
      assert nodes == [nodes[0]] + nodes[1..];
      ProfileFound(c, signature, nodes[1..], p);
    }
  }

  lemma {:induction false} PairListed(c: Context, signature: Path, objects: seq<Path>, o: Path)
    requires AllValidPaths(c.doc, objects) && o in objects && ProfileIn(c, signature, o).Some?
    ensures o in ProfilePairs(c, signature, objects)
  {
    hide ProfileIn;
    assert forall p :: p in objects[1..] ==> p in objects;
    if objects[0] != o {
      assert objects == [objects[0]] + objects[1..];
      PairListed(c, signature, objects[1..], o);
    }
  }

  lemma {:induction false} PropertiesListed(doc: Node, signature: Path, nodes: seq<Path>, p: Path)
    requires p in nodes && IsOwnProperties(doc, signature, p)
    ensures p in OwnProperties(doc, signature, nodes)
  {
    hide IsOwnProperties;
    if nodes[0] != p {
      assert nodes == [nodes[0]] + nodes[1..];
      PropertiesListed(doc, signature, nodes[1..], p);
    }
  }

  /** Where the parts with a role in the scope rule are. */
  predicate HasParts(s: Node, namespace: string) {
    && IsDsSignature(s)
    && Valid(s, PROFILE_OBJECT) && IsNamed(At(s, PROFILE_OBJECT), XMLDSIG, "Object")
    && Valid(s, PROFILE) && At(s, PROFILE).Element? && At(s, PROFILE).local == "SignatureProfile" && At(s, PROFILE).ns == namespace
    && Valid(s, SIGNED_PROPERTIES) && IsXades(At(s, SIGNED_PROPERTIES), "SignedProperties")
    && PlainWay(s, PROFILE) && PlainWay(s, SIGNED_PROPERTIES)
  }

  const PROFILE: Path := [3, 0]

  lemma PartsThere(id: string, signing: Signing, refs: seq<PlannedReference>, f: Filling)
    requires |refs| == |f.digests|
    ensures HasParts(SignatureNode(id, signing, refs, f), signing.namespace)
  {
    var s := SignatureNode(id, signing, refs, f);
    hide SignatureNode, IsDsSignature, IsNamed, Valid, At, IsXades, PlainWay;
    ObjectParts(id, signing, refs, f);
    QualifyingParts(id, signing, refs, f);
    SignatureIsNamed(Plan(id, None, [], refs), signing, f);
    PlainWays(s);
  }

  lemma PlainWays(s: Node)
    requires Valid(s, PROFILE_OBJECT) && !IsDsSignature(At(s, PROFILE_OBJECT)) && Valid(s, PROFILE) && !IsDsSignature(At(s, PROFILE))
    requires Valid(s, [4]) && !IsDsSignature(At(s, [4])) && Valid(s, QUALIFYING) && !IsDsSignature(At(s, QUALIFYING))
    requires Valid(s, SIGNED_PROPERTIES) && !IsDsSignature(At(s, SIGNED_PROPERTIES))
    ensures PlainWay(s, PROFILE) && PlainWay(s, SIGNED_PROPERTIES)
  {
    hide IsDsSignature, Valid, At;
    forall k | 1 <= k <= |PROFILE|
      ensures Valid(s, PROFILE[..k]) && !IsDsSignature(At(s, PROFILE[..k]))
    {
      assert PROFILE[..1] == PROFILE_OBJECT && PROFILE[..2] == PROFILE;
    }
    forall k | 1 <= k <= |SIGNED_PROPERTIES|
      ensures Valid(s, SIGNED_PROPERTIES[..k]) && !IsDsSignature(At(s, SIGNED_PROPERTIES[..k]))
    {
      assert SIGNED_PROPERTIES[..1] == [4] && SIGNED_PROPERTIES[..2] == QUALIFYING && SIGNED_PROPERTIES[..3] == SIGNED_PROPERTIES;
    }
  }

  lemma ObjectParts(id: string, signing: Signing, refs: seq<PlannedReference>, f: Filling)
    requires |refs| == |f.digests|
    ensures var s := SignatureNode(id, signing, refs, f);
            && Valid(s, PROFILE_OBJECT) && IsNamed(At(s, PROFILE_OBJECT), XMLDSIG, "Object") && !IsDsSignature(At(s, PROFILE_OBJECT))
            && Valid(s, PROFILE) && At(s, PROFILE).Element? && At(s, PROFILE).local == "SignatureProfile"
            && At(s, PROFILE).ns == signing.namespace && !IsDsSignature(At(s, PROFILE))
  {
    hide SignatureKids, OpenTag, ScopeAbove, XmlAbove;
    KidView(id, signing, refs, f, 3, []);
    FourthKid(id, signing, refs, f);
    var s, o := SignatureNode(id, signing, refs, f), ProfileObjectNode(id, signing.namespace);
    StepDown(o, 0, []);
    TwoDown(s, 3, 0, o, ProfileNode(id, signing.namespace));
  }

  lemma QualifyingParts(id: string, signing: Signing, refs: seq<PlannedReference>, f: Filling)
    requires |refs| == |f.digests|
    ensures var s := SignatureNode(id, signing, refs, f);
            && Valid(s, [4]) && !IsDsSignature(At(s, [4])) && Valid(s, QUALIFYING) && !IsDsSignature(At(s, QUALIFYING))
            && Valid(s, SIGNED_PROPERTIES) && IsXades(At(s, SIGNED_PROPERTIES), "SignedProperties")
            && !IsDsSignature(At(s, SIGNED_PROPERTIES))
  {
    hide SignatureKids, OpenTag, ScopeAbove, XmlAbove, Unsigned, Formats, SignatureProperties;
    KidView(id, signing, refs, f, 4, []);
    FifthKid(id, signing, refs, f);
    var s, o := SignatureNode(id, signing, refs, f), QualifyingObjectNode(id, signing, refs, f.token);
    StepDown(o, 0, []);
    TwoDown(s, 4, 0, o, QualifyingNode(id, signing, refs, f.token));
    PropertiesInSignature(id, signing, refs, f, []);
  }

  lemma {:induction false} ElementBelow(w: Node, p: Path, s: Node, r: Path)
    requires IsAt(w, p, s) && IsElement(s, r)
    ensures p + r in Elements(s, p) && IsAt(w, p + r, At(s, r))
  {
    ElementsExact(s, p, p + r);
    assert (p + r)[|p|..] == r;
    AtConcat(w, p, r);
  }

  lemma ObjectIsChild(w: Node, p: Path, s: Node)
    requires IsAt(w, p, s) && Valid(s, PROFILE_OBJECT) && IsNamed(At(s, PROFILE_OBJECT), XMLDSIG, "Object")
    ensures p + PROFILE_OBJECT in ChildrenNamed(w, p, XMLDSIG, "Object") && IsAt(w, p + PROFILE_OBJECT, At(s, PROFILE_OBJECT))
  {
    hide IsNamed, ChildrenNamed;
    AtConcat(w, p, PROFILE_OBJECT);
    ChildrenNamedExact(w, p, XMLDSIG, "Object", p + PROFILE_OBJECT);
  }

  /** The signature's own profile object satisfies its requirement. */
  lemma OwnProfileListed(c: Context, p: Path, s: Node, namespace: string)
    requires IsAt(c.doc, p, s) && HasParts(s, namespace) && namespace in c.allowed && namespace != ""
    ensures p + PROFILE_OBJECT in SignatureProfileNodes(c, p)
  {
    hide IsNamed, ChildrenNamed, IsDsSignature, Elements, FirstProfile, OwningSignature;
    var o := p + PROFILE_OBJECT;
    var object' := At(s, PROFILE_OBJECT);
    ObjectIsChild(c.doc, p, s);
    ChildrenValid(c.doc, p, XMLDSIG, "Object");
    OwnedByAbove(c.doc, p, s, PROFILE);
    AtConcat(s, PROFILE_OBJECT, [0]);
    assert PROFILE_OBJECT + [0] == PROFILE;
    ElementBelow(c.doc, o, object', [0]);
    assert o + [0] == p + PROFILE;
    ProfileFound(c, p, Elements(At(c.doc, o), o), p + PROFILE);
    PairListed(c, p, ChildrenNamed(c.doc, p, XMLDSIG, "Object"), o);
  }

  /** And so do its signed properties. */
  lemma OwnPropertiesListed(doc: Node, p: Path, s: Node, namespace: string)
    requires IsAt(doc, p, s) && HasParts(s, namespace)
    ensures p + SIGNED_PROPERTIES in SignedProperties(doc, p)
  {
    hide IsNamed, IsDsSignature, Elements, OwningSignature, OwnProperties;
    ElementBelow(doc, p, s, SIGNED_PROPERTIES);
    OwnedByAbove(doc, p, s, SIGNED_PROPERTIES);
    PropertiesListed(doc, p, Elements(s, p), p + SIGNED_PROPERTIES);
  }
}
