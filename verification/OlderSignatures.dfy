/**
 Signing never breaks an older signature.

 When no refusal fires, every signature already in the dossier is untouched by
 the run, and every reference it makes resolves to the same element and digests
 the same octets, whatever transforms it uses.
 */
module OlderSignatures {
  import opened Wrappers
  import opened XmlTree
  import opened C14n
  import opened Ids
  import opened Dossier
  import opened Names
  import opened SignatureXml
  import opened SignatureParts
  import opened Planner
  import opened Working
  import opened WorkingIds
  import opened References
  import opened ReferenceTheorems
  import opened RunTheorems
  import opened PlanTheorems

  // ------------------------------------------------------------- same chains

  lemma SameViewSameText(v: Node, w: Node, nodes: NodeSet)
    requires Target(v, nodes.apex) && Target(w, nodes.apex)
    requires ViewAt(v, nodes.apex, BASE_SCOPE) == ViewAt(w, nodes.apex, BASE_SCOPE)
    ensures StringValue(v, nodes) == StringValue(w, nodes)
  {
    hide CollectText;
    assert ViewAt(v, nodes.apex, BASE_SCOPE).node == ViewAt(w, nodes.apex, BASE_SCOPE).node;
  }

  lemma SameStep(v: Node, w: Node, library: Library, signature: Path, step: TransformStep, nodes: NodeSet)
    requires Target(v, nodes.apex) && Target(w, nodes.apex)
    requires ViewAt(v, nodes.apex, BASE_SCOPE) == ViewAt(w, nodes.apex, BASE_SCOPE)
    ensures var r := Apply(v, library, signature, step, Nodes(nodes));
            && r == Apply(w, library, signature, step, Nodes(nodes))
            && (r.Some? && r.value.Nodes? ==> r.value.nodes.apex == nodes.apex)
  {
    hide Octets, StringValue, ViewAt, Valid, At;
    SameViewSameText(v, w, nodes);
    match TransformOf(step.uri) {
      case Some(Canonicalization(algorithm)) => SameViewSameOctets(v, w, nodes, algorithm, step.prefixes);
      case _ =>
    }
  }

  /** A chain reads the document through its target's view alone. */
  lemma {:induction false} SameChain(v: Node, w: Node, library: Library, signature: Path, steps: seq<TransformStep>, nodes: NodeSet)
    requires Target(v, nodes.apex) && Target(w, nodes.apex)
    requires ViewAt(v, nodes.apex, BASE_SCOPE) == ViewAt(w, nodes.apex, BASE_SCOPE)
    ensures var r := ApplyAll(v, library, signature, steps, Nodes(nodes));
            && r == ApplyAll(w, library, signature, steps, Nodes(nodes))
            && (r.Some? && r.value.Nodes? ==> r.value.nodes.apex == nodes.apex)
    decreases |steps|
  {
    hide Octets, StringValue, ViewAt, Target, Apply;
    if steps != [] {
      SameStep(v, w, library, signature, steps[0], nodes);
      var next := Apply(v, library, signature, steps[0], Nodes(nodes));
      if next.Some? {
        match next.value {
          case Nodes(less) => SameChain(v, w, library, signature, steps[1..], less);
          case Bytes(octets) => BytesIgnoreDocument(v, w, library, signature, steps[1..], octets);
        }
      }
    }
  }

  /** The octets any chain digests depend on the document only through the target's view. */
  lemma SameDigest(v: Node, w: Node, library: Library, signature: Path, reference: Reference, t: Path)
    requires Target(v, t) && Target(w, t) && ViewAt(v, t, BASE_SCOPE) == ViewAt(w, t, BASE_SCOPE)
    ensures DigestMatches(v, library, signature, reference, t) == DigestMatches(w, library, signature, reference, t)
  {
    hide Octets, ViewAt, Target, ApplyAll;
    var nodes := WithoutComments(Subtree(t));
    SameChain(v, w, library, signature, reference.transforms, nodes);
    var r := ApplyAll(v, library, signature, reference.transforms, Nodes(nodes));
    if r.Some? && r.value.Nodes? {
      SameViewSameOctets(v, w, r.value.nodes, Inclusive(false), []);
    }
  }

  // ------------------------------------------------------------ what refusals keep

  lemma ElementListed(doc: Node, p: Path)
    requires IsElement(doc, p)
    ensures p in Elements(doc, [])
  {
    ElementsExact(doc, [], p);
    assert p[0..] == p;
  }

  /** No refusal: each older reference names an element, and that element is not at or above a container. */
  lemma NotCovered(doc: Node, container: Path, s: Path, p: Path)
    requires !CoversAncestorOrSelf(doc, container) && IsSignature(doc, s) && IsReferenceOf(doc, s, p)
    ensures TargetOf(doc, At(doc, p)).Some? && !(TargetOf(doc, At(doc, p)).value <= container)
  {
    hide TargetOf;
    ElementListed(doc, s);
    ElementListed(doc, p);
    assert !SignatureCovers(doc, s, container);
    assert !ReferenceCovers(doc, p, container);
  }

  lemma TargetNamed(doc: Node, p: Path)
    requires IsElement(doc, p) && TargetOf(doc, At(doc, p)).Some?
    ensures var uri := UriOf(At(doc, p)); uri != "" && uri[0] == '#' && ById(doc, uri[1..]) == TargetOf(doc, At(doc, p))
    ensures IsElement(doc, TargetOf(doc, At(doc, p)).value)
  {
    ByIdExact(doc, UriOf(At(doc, p))[1..]);
  }

  /** Nothing named like a part of a signature is at or above a container. */
  predicate ClearOf(doc: Node, plans: seq<Plan>, p: Path) {
    forall q :: q in plans ==> !(p <= q.container)
  }

  /** An element of a signature is not at or above a container: containers and what is above them are
      the dossier's own elements. */
  lemma SignatureIsClear(doc: Node, allowed: seq<string>, maxDocuments: nat, dossier: Dossier, request: SignRequest, s: Path)
    requires ParseDossier(doc, allowed, maxDocuments) == Ok(dossier) && doc.Root? && "" !in allowed
    requires PlanRun(doc, dossier, request).Ok? && IsSignature(doc, s)
    ensures ClearOf(doc, PlanRun(doc, dossier, request).value, s)
  {
    hide ParseDossier, PlanDossier, PlanDocument, RefusesPlacement, Targets, CheckNamespace;
    var plans := PlanRun(doc, dossier, request).value;
    var profile, documents := AcceptedDossier(doc, allowed, maxDocuments, dossier);
    var root := RootElement(doc);
    forall q | q in plans
      ensures !(s <= q.container)
    {
      if request.scope == DossierScope {
        DossierPlanned(doc, dossier.namespace);
        AboveRoot(doc, root, s);
      } else {
        var d := PlannedFor(doc, allowed, maxDocuments, dossier, request, q);
        AboveDocument(doc, dossier, profile, documents, d, s);
      }
    }
  }

  lemma AboveRoot(doc: Node, root: Path, s: Path)
    requires root == RootElement(doc) && root != [] && At(doc, root).local == "Dossier" && doc.Root? && IsSignature(doc, s)
    ensures !(s <= root)
  {
    assert |root| == 1 && root[..0] == [];
    assert !IsSignature(doc, root) && !IsSignature(doc, []);
    assert s == root || s == [] || !(s <= root);
  }

  lemma PlannedFor(doc: Node, allowed: seq<string>, maxDocuments: nat, dossier: Dossier, request: SignRequest, q: Plan)
    returns (d: Document)
    requires ParseDossier(doc, allowed, maxDocuments) == Ok(dossier) && doc.Root? && "" !in allowed
    requires PlanRun(doc, dossier, request).Ok? && request.scope == DocumentScope && q in PlanRun(doc, dossier, request).value
    ensures d in dossier.documents && CoversDocument(doc, dossier.namespace, d, q) && q.container == d.node
  {
    hide ParseDossier, PlanDocument, PlanDocuments, RefusesPlacement, Targets, CheckNamespace, Modelled, WellPlanned, InOrder, WellBuilt;
    var profile, documents := AcceptedDossier(doc, allowed, maxDocuments, dossier);
    AcceptedInOrder(doc, allowed, maxDocuments, dossier);
    TargetsExact(dossier, request.documents);
    var targets := Targets(dossier, request.scope, request.documents).value;
    DocumentsPlannedAt(doc, dossier.namespace, targets);
    var plans := PlanRun(doc, dossier, request).value;
    var i :| 0 <= i < |plans| && plans[i] == q;
    d := targets[i];
    assert d in targets;
    var m := MemberAt(dossier.documents, d);
    DocumentPlanned(doc, documents, dossier.namespace, d);
  }

  lemma AboveDocument(doc: Node, dossier: Dossier, profile: Path, documents: Path, d: Document, s: Path)
    requires Layout(doc, dossier, RootElement(doc), profile, documents) && doc.Root? && IsSignature(doc, s)
    requires Modelled(doc, documents, dossier.namespace, d)
    ensures !(s <= d.node)
  {
    var root := RootElement(doc);
    ChildrenNamedExact(doc, root, dossier.namespace, "Documents", documents);
    ChildrenNamedExact(doc, documents, dossier.namespace, "Document", d.node);
    assert |root| == 1 && |documents| == 2 && |d.node| == 3;
    assert d.node[..2] == documents && d.node[..1] == root && d.node[..0] == [];
    hide ChildrenNamed, RootElement;
    assert !IsSignature(doc, d.node) && !IsSignature(doc, documents) && !IsSignature(doc, root) && !IsSignature(doc, []);
    assert s == d.node || s == documents || s == root || s == [] || !(s <= d.node);
  }

  // -------------------------------------------------------------- the theorem

  /** The signature at `s`, with everything in it, is what it was. */
  predicate SignatureStands(doc: Node, w: Node, s: Path) {
    Valid(w, s) && Valid(doc, s) && ViewAt(w, s, BASE_SCOPE) == ViewAt(doc, s, BASE_SCOPE)
  }

  /** The reference at `p` still names `t`, `t` still looks the same, and so does every verdict on it. */
  ghost predicate ReferenceStands(doc: Node, w: Node, s: Path, p: Path, t: Path) {
    && IsElement(doc, p) && IsAt(w, p, At(doc, p)) && Target(doc, t) && Target(w, t)
    && var uri := UriOf(At(doc, p));
       && uri != "" && uri[0] == '#' && ById(doc, uri[1..]) == Some(t) && ById(w, uri[1..]) == Some(t)
       && (IdMap(w).Some? ==> ResolveReference(IdMap(w).value, uri) == Some(t))
       && (forall algorithm, prefixes ::
             Octets(w, WithoutComments(Subtree(t)), algorithm, prefixes) == Octets(doc, WithoutComments(Subtree(t)), algorithm, prefixes))
       && (forall library, reference ::
             DigestMatches(w, library, s, reference, t) == DigestMatches(doc, library, s, reference, t))
  }

  lemma StandsWhenViewed(doc: Node, w: Node, s: Path, p: Path, t: Path)
    requires IsElement(doc, p) && IsAt(w, p, At(doc, p)) && IsElement(doc, t) && Valid(w, t)
    requires ViewAt(w, t, BASE_SCOPE) == ViewAt(doc, t, BASE_SCOPE)
    requires var uri := UriOf(At(doc, p)); uri != "" && uri[0] == '#' && ById(doc, uri[1..]) == Some(t) && ById(w, uri[1..]) == Some(t)
    ensures ReferenceStands(doc, w, s, p, t)
  {
    hide Octets, ViewAt, DigestMatches, IdMap, IsAt, UriOf, ById;
    var uri := UriOf(At(doc, p));
    SameViewSameTarget(w, doc, t);
    forall algorithm: Algorithm, prefixes: seq<string>
      ensures Octets(w, WithoutComments(Subtree(t)), algorithm, prefixes) == Octets(doc, WithoutComments(Subtree(t)), algorithm, prefixes)
    {
      SameViewSameOctets(w, doc, WithoutComments(Subtree(t)), algorithm, prefixes);
    }
    forall library: Library, reference: Reference
      ensures DigestMatches(w, library, s, reference, t) == DigestMatches(doc, library, s, reference, t)
    {
      SameDigest(w, doc, library, s, reference, t);
    }
    if IdMap(w).Some? {
      ByIdExact(w, uri[1..]);
      ByIdIsTheMap(w, uri[1..], t);
    }
  }

  lemma StillAt(doc: Node, w: Node, s: Path, p: Path)
    requires SignatureStands(doc, w, s) && s <= p && Valid(doc, p)
    ensures IsAt(w, p, At(doc, p))
  {
    var r := p[|s|..];
    assert p == s + r;
    assert ViewAt(w, s, BASE_SCOPE).node == ViewAt(doc, s, BASE_SCOPE).node;
    hide ViewAt;
    AtConcat(doc, s, r);
    AtConcat(w, s, r);
  }

  /** Planning refuses, or no older signature is broken: in every working document of the run each of
      them is untouched, and each of its references names the same element with the same octets under
      all four algorithms, so that no digest verdict on it changes. */
  lemma OlderSignaturesUnbroken(doc: Node, allowed: seq<string>, maxDocuments: nat, dossier: Dossier, request: SignRequest,
                                fills: seq<Filling>, s: Path, p: Path)
    returns (t: Path)
    requires ParseDossier(doc, allowed, maxDocuments) == Ok(dossier) && doc.Root? && "" !in allowed
    requires PlanRun(doc, dossier, request).Ok? && Matching(PlanRun(doc, dossier, request).value, fills)
    requires IsSignature(doc, s) && IsReferenceOf(doc, s, p)
    ensures AllInsertable(doc, PlanRun(doc, dossier, request).value)
    ensures var w := WorkingDocument(doc, PlanRun(doc, dossier, request).value, SigningOf(request, dossier.namespace), fills);
            SignatureStands(doc, w, s) && ReferenceStands(doc, w, s, p, t)
  {
    hide ParseDossier, PlanRun, WorkingDocument, ReferenceStands, SignatureStands, TargetOf, IdMap, Fresh, WellPlanned, AimedPlan,
         CoversAncestorOrSelf, ViewAt, UriOf, Disjoint;
    var plans := PlanRun(doc, dossier, request).value;
    var signing := SigningOf(request, dossier.namespace);
    PlansExist(doc, dossier, request);
    RunIsWellPlanned(doc, allowed, maxDocuments, dossier, request);
    var profile, documents := AcceptedDossier(doc, allowed, maxDocuments, dossier);
    RunIsRunnable(doc, plans);
    var w := WorkingDocument(doc, plans, signing, fills);
    SignatureIsClear(doc, allowed, maxDocuments, dossier, request, s);
    OldNodeView(doc, plans, signing, fills, s);
    assert SignatureStands(doc, w, s) by { StandsBecause(doc, w, s); }
    StillAt(doc, w, s, p);
    t := OlderTarget(doc, plans, s, p);
    OldNodeView(doc, plans, signing, fills, t);
    OldIdStays(doc, plans, signing, fills, UriOf(At(doc, p))[1..]);
    StandsWhenViewed(doc, w, s, p, t);
  }

  lemma StandsBecause(doc: Node, w: Node, s: Path)
    requires Valid(w, s) && Valid(doc, s) && ViewAt(w, s, BASE_SCOPE) == ViewAt(doc, s, BASE_SCOPE)
    ensures SignatureStands(doc, w, s)
  {}

  lemma OlderTarget(doc: Node, plans: seq<Plan>, s: Path, p: Path) returns (t: Path)
    requires WellPlannedRun(doc, plans) && plans != [] && IsSignature(doc, s) && IsReferenceOf(doc, s, p)
    ensures IsElement(doc, t) && ClearOf(doc, plans, t)
    ensures var uri := UriOf(At(doc, p)); uri != "" && uri[0] == '#' && ById(doc, uri[1..]) == Some(t)
  {
    hide TargetOf, CoversAncestorOrSelf, Builds, PlainCovered, CoversKid, UriOf, Insertable;
    forall q | q in plans
      ensures TargetOf(doc, At(doc, p)).Some? && !(TargetOf(doc, At(doc, p)).value <= q.container)
    {
      assert WellPlanned(doc, q);
      var a, b :| WellBuilt(doc, q, a, b);
      NotCovered(doc, q.container, s, p);
    }
    assert plans[0] in plans;
    TargetNamed(doc, p);
    t := TargetOf(doc, At(doc, p)).value;
  }
}
