/**
 The signer meets the verifier: every signature a run writes over an accepted
 dossier is a document or a dossier signature, and its reference scope is
 complete.
 */
module Meeting {
  import opened Wrappers
  import opened XmlTree
  import opened Ids
  import opened Dossier
  import opened Growth
  import opened GrownLayout
  import opened Names
  import opened SignatureXml
  import opened SignatureParts
  import opened Planner
  import opened Working
  import opened WorkingIds
  import opened References
  import opened RunTheorems
  import opened PlanTheorems
  import opened OlderSignatures
  import opened Scope
  import opened ScopeTheorems

  // ------------------------------------------------------------- the targets

  /** The four references of a plan: the two covered elements, then the signature's own two parts. */
  predicate AimsAt(doc: Node, plans: seq<Plan>, plan: Plan, first: Path, second: Path) {
    && Insertable(doc, plan) && AimedPlan(doc, plans, plan) && |plan.references| == 4
    && TargetPath(doc, plans, plan, 0) == first && TargetPath(doc, plans, plan, 1) == second
    && TargetPath(doc, plans, plan, 2) == Place(doc, plan) + PROFILE_OBJECT
    && TargetPath(doc, plans, plan, 3) == Place(doc, plan) + SIGNED_PROPERTIES
  }

  lemma PlannedTargets(doc: Node, plans: seq<Plan>, plan: Plan, a: Covered, b: Covered)
    requires Runnable(doc, plans) && plan in plans && WellBuilt(doc, plan, a, b)
    ensures AimsAt(doc, plans, plan, ById(doc, a.target).value, ById(doc, b.target).value)
  {
    hide Identifiers, AllFree, CheckId, IsPlain, Candidate, OwnReferences, PlanIds, ReferenceId, CoversAncestorOrSelf, Place, Fresh,
         IdMap, AimedPlan;
    var k, rest := BuiltShape(doc, plan, a, b);
    TwoCovered(plan.id, a, b);
    NcNameUri(a.target);
    NcNameUri(b.target);
    var refs := plan.references;
    assert refs == [ReferenceTo(plan.id, a), ReferenceTo(plan.id, b)] + OwnReferences(plan.id);
  }

  // ---------------------------------------------------- the required elements

  /** Where the two placement requirements of a signature are, and that they are what it covers. */
  predicate RequiresPair(c: Context, s: Path, placement: Placement, first: Path, second: Path) {
    && Valid(c.doc, s) && placement.enclosing.None? && (placement.scope == InDocument || placement.scope == InDossier)
    && PlacementRequires(c, s, placement).Some?
    && var required := PlacementRequires(c, s, placement).value;
       |required| == 2 && required[0].candidates == [first] && required[1].candidates == [second]
  }

  lemma FirstListed(doc: Node, p: Path, ns: string, local: string)
    requires Valid(doc, p) && ChildNamed(doc, p, ns, local).Some?
    ensures ChildrenNamed(doc, p, ns, local) != [] && ChildNamed(doc, p, ns, local).value == ChildrenNamed(doc, p, ns, local)[0]
  {}

  lemma ObjectIsOther(o: Path, s: Path)
    requires o != s
    ensures FirstOther([o], s) == Some(o)
  {}

  lemma AllNamedSignature(plans: seq<Plan>, signing: Signing, fills: seq<Filling>, ns: string, local: string)
    requires Matching(plans, fills) && (local != "Signature" || ns != XMLDSIG)
    ensures NoneNamed(Signatures(plans, signing, fills), ns, local)
  {
    hide SignatureOf;
    var kids := Signatures(plans, signing, fills);
    forall kid | kid in kids
      ensures !IsNamed(kid, ns, local)
    {
      var i :| 0 <= i < |kids| && kids[i] == kid;
      SignatureIsNamed(plans[i], signing, fills[i]);
    }
  }

  lemma AddedOnes(doc: Node, plans: seq<Plan>, signing: Signing, fills: seq<Filling>, i: nat, ns: string, local: string)
    requires AllInsertable(doc, plans) && Matching(plans, fills) && i < |plans| && plans[i] in plans && local != "Signature"
    ensures var w := WorkingDocument(doc, plans, signing, fills); var q := plans[i].container;
            Valid(w, q) && ChildrenNamed(w, q, ns, local) == ChildrenNamed(doc, q, ns, local)
  {
    hide Grown, SignatureOf, ChildrenNamed;
    ContainersAreSpots(doc, plans);
    AllNamedSignature(plans, signing, fills, ns, local);
    GrownChildren(doc, Containers(plans), Signatures(plans, signing, fills), plans[i].container, ns, local);
  }

  lemma DocumentRequires(doc: Node, plans: seq<Plan>, signing: Signing, fills: seq<Filling>, i: nat, c: Context,
                         documents: Path, d: Document, s: Path, profile: Path, payload: Path)
    requires Modelled(doc, documents, c.namespace, d) && PlacedIn(c, s, "Document")
    requires ById(doc, d.objectRef) == Some(payload) && ChildNamed(doc, d.node, c.namespace, "DocumentProfile") == Some(profile)
    requires Runnable(doc, plans) && Matching(plans, fills) && i < |plans| && plans[i] in plans
    requires CoversDocument(doc, c.namespace, d, plans[i]) && s == Place(doc, plans[i])
    requires c.doc == WorkingDocument(doc, plans, signing, fills)
    ensures RequiresPair(c, s, PlacementOf(c, s), profile, payload)
  {
    hide WorkingDocument, ChildrenNamed, PlacementOf, IdMap, Fresh, AimedPlan, Builds, PlainCovered, CoversAncestorOrSelf, IdOf;
    var q := plans[i].container;
    PayloadFound(doc, documents, c.namespace, d);
    AddedOnes(doc, plans, signing, fills, i, c.namespace, "DocumentProfile");
    AddedOnes(doc, plans, signing, fills, i, XMLDSIG, "Object");
    ChildIdFound(doc, q, c.namespace, "DocumentProfile");
    FirstListed(doc, q, c.namespace, "DocumentProfile");
    assert Parent(s) == q;
    ByIdExact(doc, d.objectRef);
    PlaceIsNew(doc, plans[i]);
    ObjectIsOther(payload, s);
    assert ChildrenNamed(c.doc, q, XMLDSIG, "Object") == [payload];
  }

  lemma PlaceIsNew(doc: Node, plan: Plan)
    requires Insertable(doc, plan)
    ensures !Valid(doc, Place(doc, plan))
  {
    var k := |Kids(At(doc, plan.container))|;
    AtConcat(doc, plan.container, [k]);
  }

  lemma RootStays(doc: Node, plans: seq<Plan>, signing: Signing, fills: seq<Filling>)
    requires AllInsertable(doc, plans) && Matching(plans, fills) && doc.Root?
    ensures RootElement(WorkingDocument(doc, plans, signing, fills)) == RootElement(doc)
  {
    hide Grown, SignatureOf, RootElement;
    ContainersAreSpots(doc, plans);
    GrownRoot(doc, Containers(plans), Signatures(plans, signing, fills));
  }

  lemma DossierRequires(doc: Node, plans: seq<Plan>, signing: Signing, fills: seq<Filling>, c: Context, s: Path, profile: Path,
                        documents: Path)
    requires PlacedIn(c, s, "Dossier") && doc.Root?
    requires ChildNamed(doc, RootElement(doc), c.namespace, "DossierProfile") == Some(profile)
    requires ChildNamed(doc, RootElement(doc), c.namespace, "Documents") == Some(documents)
    requires Runnable(doc, plans) && Matching(plans, fills) && |plans| == 1 && plans[0] in plans
    requires CoversDossier(doc, c.namespace, plans[0]) && s == Place(doc, plans[0])
    requires c.doc == WorkingDocument(doc, plans, signing, fills)
    ensures RequiresPair(c, s, PlacementOf(c, s), profile, documents)
  {
    hide WorkingDocument, ChildrenNamed, PlacementOf, IdMap, Fresh, AimedPlan, Builds, PlainCovered, CoversAncestorOrSelf, RootElement,
         Place;
    AddedOnes(doc, plans, signing, fills, 0, c.namespace, "DossierProfile");
    AddedOnes(doc, plans, signing, fills, 0, c.namespace, "Documents");
    RootStays(doc, plans, signing, fills);
    FirstListed(doc, RootElement(doc), c.namespace, "DossierProfile");
    FirstListed(doc, RootElement(doc), c.namespace, "Documents");
  }

  // ------------------------------------------------------------ the scope check

  lemma MetByOne(r: Requirement, scopes: seq<ReferenceScope>, p: Path)
    requires p in r.candidates && CoveredBySome(scopes, p)
    ensures Met(r, scopes)
  {}

  /** All four requirements are met when the four targets are covered. */
  lemma CompleteWhenCovered(c: Context, s: Path, placement: Placement, xades: bool, scopes: seq<ReferenceScope>,
                            first: Path, second: Path, object': Path, properties: Path)
    requires RequiresPair(c, s, placement, first, second)
    requires object' in SignatureProfileNodes(c, s) && properties in SignedProperties(c.doc, s)
    requires CoveredBySome(scopes, first) && CoveredBySome(scopes, second)
    requires CoveredBySome(scopes, object') && CoveredBySome(scopes, properties)
    ensures ReferenceScopeCheck(c, s, placement, xades, scopes) == ScopeComplete
  {
    hide CoveredBySome, SignatureProfileNodes, SignedProperties, PlacementRequires, Met, HasOwnProfile;
    var required := Required(c, s, placement, xades).value;
    var pair := PlacementRequires(c, s, placement).value;
    MetByOne(pair[0], scopes, first);
    MetByOne(pair[1], scopes, second);
    MetByOne(Requirement("ds:Signature/ds:Object holding es:SignatureProfile", SignatureProfileNodes(c, s)), scopes, object');
    MetByOne(Requirement("xades:SignedProperties", SignedProperties(c.doc, s)), scopes, properties);
    MissingExact(required, scopes);
  }

  /** The scope is complete, whether or not the verifier read qualifying properties. */
  predicate ScopeIsComplete(c: Context, s: Path, xades: bool, limit: nat) {
    && IdMap(c.doc).Some? && Valid(c.doc, s)
    && (PlacementOf(c, s).enclosing.Some? ==> Valid(c.doc, PlacementOf(c, s).enclosing.value))
    && ReferenceScopeCheck(c, s, PlacementOf(c, s), xades, ScopesOf(c.doc, IdMap(c.doc).value, s, limit)) == ScopeComplete
  }

  lemma CompleteFor(doc: Node, plans: seq<Plan>, signing: Signing, fills: seq<Filling>, i: nat, c: Context, xades: bool,
                    limit: nat, s: Path, first: Path, second: Path)
    requires Valid(c.doc, s) && signing.namespace in c.allowed && signing.namespace != "" && 4 <= limit
    requires RequiresPair(c, s, PlacementOf(c, s), first, second) || RequiresPair(c, s, PlacementOf(c, s), second, first)
    requires Runnable(doc, plans) && NoneTaken(doc, plans) && Matching(plans, fills) && i < |plans| && plans[i] in plans
    requires AimsAt(doc, plans, plans[i], first, second) && s == Place(doc, plans[i])
    requires c.doc == WorkingDocument(doc, plans, signing, fills)
    ensures ScopeIsComplete(c, s, xades, limit)
  {
    hide WorkingDocument, SignatureNode, HasParts, IdMap, Fresh, AimedPlan, Place, TargetPath, NoneTaken, CoveredBySome, ScopesOf,
         ReferenceScopeCheck, PlacementOf, SignatureProfileNodes, SignedProperties, PlacementRequires, Valid, At;
    SignaturesInPlace(doc, plans, signing, fills);
    PartsThere(plans[i].id, signing, plans[i].references, fills[i]);
    OwnProfileListed(c, s, SignatureOf(plans[i], signing, fills[i]), signing.namespace);
    OwnPropertiesListed(c.doc, s, SignatureOf(plans[i], signing, fills[i]), signing.namespace);
    TargetCovered(doc, plans, signing, fills, i, 0, limit);
    TargetCovered(doc, plans, signing, fills, i, 1, limit);
    TargetCovered(doc, plans, signing, fills, i, 2, limit);
    TargetCovered(doc, plans, signing, fills, i, 3, limit);
    var scopes := ScopesOf(c.doc, IdMap(c.doc).value, s, limit);
    if RequiresPair(c, s, PlacementOf(c, s), first, second) {
      CompleteWhenCovered(c, s, PlacementOf(c, s), xades, scopes, first, second, s + PROFILE_OBJECT, s + SIGNED_PROPERTIES);
    } else {
      CompleteWhenCovered(c, s, PlacementOf(c, s), xades, scopes, second, first, s + PROFILE_OBJECT, s + SIGNED_PROPERTIES);
    }
  }

  // -------------------------------------------------------------- the theorem

  function PlaceName(scope: SignScope): string {
    if scope == DocumentScope then "Document" else "Dossier"
  }

  lemma ClearFromSignatures(doc: Node, allowed: seq<string>, maxDocuments: nat, dossier: Dossier, request: SignRequest, q: Plan)
    requires ParseDossier(doc, allowed, maxDocuments) == Ok(dossier) && doc.Root? && "" !in allowed
    requires PlanRun(doc, dossier, request).Ok? && q in PlanRun(doc, dossier, request).value
    ensures ClearContainer(doc, q.container)
  {
    hide ParseDossier, PlanRun, IsSignature;
    forall p | IsSignature(doc, p)
      ensures !(p <= q.container)
    {
      SignatureIsClear(doc, allowed, maxDocuments, dossier, request, p);
    }
  }

  lemma DocumentMeets(doc: Node, allowed: seq<string>, maxDocuments: nat, dossier: Dossier, request: SignRequest,
                      plans: seq<Plan>, fills: seq<Filling>, i: nat, c: Context, xades: bool, limit: nat)
    requires ParseDossier(doc, allowed, maxDocuments) == Ok(dossier) && doc.Root? && "" !in allowed
    requires PlanRun(doc, dossier, request) == Ok(plans) && request.scope == DocumentScope
    requires Runnable(doc, plans) && NoneTaken(doc, plans) && Matching(plans, fills) && i < |plans| && plans[i] in plans
    requires c.doc == WorkingDocument(doc, plans, SigningOf(request, dossier.namespace), fills)
    requires c.namespace == dossier.namespace && c.allowed == allowed && 4 <= limit
    ensures PlacedIn(c, Place(doc, plans[i]), "Document") && ScopeIsComplete(c, Place(doc, plans[i]), xades, limit)
  {
    hide ParseDossier, PlanRun, WorkingDocument, IdMap, Fresh, AimedPlan, Place, NoneTaken, PlacedIn, ScopeIsComplete, AimsAt,
         RequiresPair, PlacementOf, WellBuilt, ClearContainer, ById;
    var signing := SigningOf(request, dossier.namespace);
    var profile, documents := AcceptedDossier(doc, allowed, maxDocuments, dossier);
    var d := PlannedFor(doc, allowed, maxDocuments, dossier, request, plans[i]);
    var m := MemberAt(dossier.documents, d);
    ChildrenNamedExact(doc, documents, dossier.namespace, "Document", d.node);
    ClearFromSignatures(doc, allowed, maxDocuments, dossier, request, plans[i]);
    PlacedWhereItGoes(doc, plans, signing, fills, i, c, "Document");
    ChildIdFound(doc, d.node, dossier.namespace, "DocumentProfile");
    PayloadThere(doc, dossier.namespace, d, plans[i]);
    DocumentRequires(doc, plans, signing, fills, i, c, documents, d, Place(doc, plans[i]),
                     ChildNamed(doc, d.node, dossier.namespace, "DocumentProfile").value, ById(doc, d.objectRef).value);
    PlannedTargets(doc, plans, plans[i], Covered("object", d.objectRef, Some(Essence(d))),
                   Covered("document-profile", ChildId(doc, d.node, dossier.namespace, "DocumentProfile").value, None));
    PlacedIsValid(c, Place(doc, plans[i]), "Document");
    CompleteFor(doc, plans, signing, fills, i, c, xades, limit, Place(doc, plans[i]), ById(doc, d.objectRef).value,
                ChildNamed(doc, d.node, dossier.namespace, "DocumentProfile").value);
  }

  lemma PayloadThere(doc: Node, namespace: string, d: Document, plan: Plan)
    requires CoversDocument(doc, namespace, d, plan)
    ensures ById(doc, d.objectRef).Some?
  {
    hide ById, Builds;
  }

  lemma PlacedIsValid(c: Context, s: Path, name: string)
    ensures PlacedIn(c, s, name) ==> Valid(c.doc, s)
  {}

  lemma DossierMeets(doc: Node, allowed: seq<string>, maxDocuments: nat, dossier: Dossier, request: SignRequest,
                     plans: seq<Plan>, fills: seq<Filling>, c: Context, xades: bool, limit: nat)
    requires ParseDossier(doc, allowed, maxDocuments) == Ok(dossier) && doc.Root? && "" !in allowed
    requires PlanRun(doc, dossier, request) == Ok(plans) && request.scope == DossierScope
    requires Runnable(doc, plans) && NoneTaken(doc, plans) && Matching(plans, fills)
    requires c.doc == WorkingDocument(doc, plans, SigningOf(request, dossier.namespace), fills)
    requires c.namespace == dossier.namespace && c.allowed == allowed && 4 <= limit
    ensures |plans| == 1 && plans[0] in plans
    ensures PlacedIn(c, Place(doc, plans[0]), "Dossier") && ScopeIsComplete(c, Place(doc, plans[0]), xades, limit)
  {
    hide ParseDossier, WorkingDocument, IdMap, Fresh, AimedPlan, Place, NoneTaken, PlacedIn, ScopeIsComplete, AimsAt,
         RequiresPair, PlacementOf, WellBuilt, ClearContainer, ById, PlanDossier, RefusesPlacement, RootElement;
    var signing := SigningOf(request, dossier.namespace);
    var root := RootElement(doc);
    var profile, documents := AcceptedDossier(doc, allowed, maxDocuments, dossier);
    NamedIsElement(At(doc, root), dossier.namespace, "Dossier");
    DossierPlanned(doc, dossier.namespace);
    assert plans[0] in plans;
    ClearFromSignatures(doc, allowed, maxDocuments, dossier, request, plans[0]);
    PlacedWhereItGoes(doc, plans, signing, fills, 0, c, "Dossier");
    ChildIdFound(doc, root, dossier.namespace, "DossierProfile");
    ChildIdFound(doc, root, dossier.namespace, "Documents");
    DossierRequires(doc, plans, signing, fills, c, Place(doc, plans[0]),
                    ChildNamed(doc, root, dossier.namespace, "DossierProfile").value,
                    ChildNamed(doc, root, dossier.namespace, "Documents").value);
    PlannedTargets(doc, plans, plans[0],
                   Covered("dossier-profile", ChildId(doc, root, dossier.namespace, "DossierProfile").value, None),
                   Covered("documents", ChildId(doc, root, dossier.namespace, "Documents").value, None));
    PlacedIsValid(c, Place(doc, plans[0]), "Dossier");
    CompleteFor(doc, plans, signing, fills, 0, c, xades, limit, Place(doc, plans[0]),
                ChildNamed(doc, root, dossier.namespace, "DossierProfile").value,
                ChildNamed(doc, root, dossier.namespace, "Documents").value);
  }

  /** Every signature a run writes is placed where the format has document and dossier signatures, and
      covers everything the format requires of one there. */
  lemma SignerMeetsVerifier(doc: Node, allowed: seq<string>, maxDocuments: nat, dossier: Dossier, request: SignRequest,
                            plans: seq<Plan>, fills: seq<Filling>, i: nat, c: Context, xades: bool, limit: nat)
    requires ParseDossier(doc, allowed, maxDocuments) == Ok(dossier) && doc.Root? && "" !in allowed
    requires PlanRun(doc, dossier, request) == Ok(plans) && Matching(plans, fills) && i < |plans| && plans[i] in plans
    requires NoneTaken(doc, plans) && 4 <= limit && AllInsertable(doc, plans)
    requires c.doc == WorkingDocument(doc, plans, SigningOf(request, dossier.namespace), fills)
    requires c.namespace == dossier.namespace && c.allowed == allowed
    ensures PlacedIn(c, Place(doc, plans[i]), PlaceName(request.scope)) && ScopeIsComplete(c, Place(doc, plans[i]), xades, limit)
  {
    hide ParseDossier, PlanRun, WorkingDocument, IdMap, Fresh, AimedPlan, Place, NoneTaken, PlacedIn, ScopeIsComplete, WellPlannedRun;
    var profile, documents := AcceptedDossier(doc, allowed, maxDocuments, dossier);
    RunIsWellPlanned(doc, allowed, maxDocuments, dossier, request);
    RunIsRunnable(doc, plans);
    if request.scope == DocumentScope {
      DocumentMeets(doc, allowed, maxDocuments, dossier, request, plans, fills, i, c, xades, limit);
    } else {
      DossierMeets(doc, allowed, maxDocuments, dossier, request, plans, fills, c, xades, limit);
    }
  }
}
