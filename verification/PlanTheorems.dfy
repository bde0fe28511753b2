/**
 What planning promises to the passes.

 Over a dossier the parser accepted, every plan writes into the `es:Document` it
 is for (or into the `es:Dossier`), at or above nothing any plan references; its
 identifiers are new and shared with no other plan, although each plan is
 allocated against the original alone; and all it writes is free of markup.
 */
module PlanTheorems {
  import opened Wrappers
  import opened XmlTree
  import opened Ids
  import opened Dossier
  import opened Names
  import opened SignatureXml
  import opened SignatureFilling
  import opened SignatureIds
  import opened Planner
  import opened Working
  import opened WorkingIds
  import opened Passes
  import opened Run
  import opened RunTheorems

  // ------------------------------------------------------------- one plan's ids

  lemma DigitsArePlain(n: nat)
    ensures IsPlain(Decimal(n))
  {
    DecimalDigits(n);
    forall c | c in Decimal(n)
      ensures PlainChar(c)
    {
      assert IsDigit(c);
    }
  }

  lemma BasesArePlain()
    ensures IsPlain("sig-doc") && IsPlain("sig-dossier") && IsPlain("-")
  {}

  lemma CandidatesArePlain(index: Option<nat>, k: nat) returns (rest: string)
    ensures Candidate(BaseId(index), k) == "sig-" + rest && IsPlain(Candidate(BaseId(index), k))
  {
    hide IsPlain, Decimal;
    BasesArePlain();
    DigitsArePlain(k);
    var tail := if k == 1 then "" else "-" + Decimal(k);
    PlainJoin("-", Decimal(k));
    match index {
      case Some(i) =>
        DigitsArePlain(i);
        PlainJoin("sig-doc", Decimal(i));
        rest := "doc" + Decimal(i) + tail;
      case None =>
        rest := "dossier" + tail;
    }
    PlainJoin(BaseId(index), "-");
    PlainJoin(BaseId(index) + "-", Decimal(k));
    assert Candidate(BaseId(index), k) == "sig-" + rest;
  }

  lemma TwoNames(a: string, b: string)
    requires a != b && a !in OWN_NAMES && b !in OWN_NAMES
    ensures AllDistinct([a, b] + OWN_NAMES)
  {}

  function ReferenceTo(id: string, c: Covered): PlannedReference {
    PlannedReference(ReferenceId(id, c.name), "#" + c.target, None, c.mime)
  }

  lemma TwoCovered(id: string, a: Covered, b: Covered)
    ensures NamesOf([a, b]) == [a.name, b.name] && ReferencesTo(id, [a, b]) == [ReferenceTo(id, a), ReferenceTo(id, b)]
    ensures |OwnReferences(id)| == 2
  {
    hide ReferenceId;
    assert [a, b][1..] == [b] && [b][1..] == [];
    assert NamesOf([b]) == [b.name];
    assert ReferencesTo(id, [b]) == [ReferenceTo(id, b)];
  }

  lemma PlanIdsAre(id: string, a: Covered, b: Covered)
    ensures var refs := ReferencesTo(id, [a, b]) + OwnReferences(id);
            && IdsIn(id, refs) == Identifiers(id, [a.name, b.name] + OWN_NAMES)
            && NamesOf([a, b]) == [a.name, b.name]
  {
    hide ReferenceId, ProfileObjectId, SignedPropertiesId, QualifyingObjectId, ProfileId;
    var refs := ReferencesTo(id, [a, b]) + OwnReferences(id);
    var names := [a.name, b.name] + OWN_NAMES;
    TwoCovered(id, a, b);
    FourRefs(refs[0], refs[1], refs[2], refs[3]);
    FourNames(id, names[0], names[1], names[2], names[3]);
    assert refs == [refs[0], refs[1], refs[2], refs[3]];
    assert names == [names[0], names[1], names[2], names[3]];
  }

  lemma FourRefs(a: PlannedReference, b: PlannedReference, c: PlannedReference, d: PlannedReference)
    ensures RefIdsOf([a, b, c, d]) == [a.id, b.id, c.id, d.id]
  {
    assert [a, b, c, d][1..] == [b, c, d] && [b, c, d][1..] == [c, d] && [c, d][1..] == [d] && [d][1..] == [];
    assert RefIdsOf([d]) == [d.id];
    assert RefIdsOf([c, d]) == [c.id] + [d.id];
    assert RefIdsOf([b, c, d]) == [b.id] + ([c.id] + [d.id]);
  }

  lemma FourNames(id: string, a: string, b: string, c: string, d: string)
    ensures ReferenceIds(id, [a, b, c, d]) == [ReferenceId(id, a), ReferenceId(id, b), ReferenceId(id, c), ReferenceId(id, d)]
  {
    hide ReferenceId;
    assert [a, b, c, d][1..] == [b, c, d] && [b, c, d][1..] == [c, d] && [c, d][1..] == [d] && [d][1..] == [];
    assert ReferenceIds(id, [d]) == [ReferenceId(id, d)];
    assert ReferenceIds(id, [c, d]) == [ReferenceId(id, c)] + [ReferenceId(id, d)];
    assert ReferenceIds(id, [b, c, d]) == [ReferenceId(id, b)] + ([ReferenceId(id, c)] + [ReferenceId(id, d)]);
  }

  /** A plan over two elements to cover. */
  predicate Builds(doc: Node, plan: Plan, a: Covered, b: Covered) {
    && a.name != b.name && a.name !in OWN_NAMES && b.name !in OWN_NAMES
    && BuildPlan(doc, plan.documentIndex, plan.container, [a, b]) == Ok(plan)
  }

  lemma BuiltShape(doc: Node, plan: Plan, a: Covered, b: Covered) returns (k: nat, rest: string)
    requires Builds(doc, plan, a, b)
    ensures plan.id == Candidate(BaseId(plan.documentIndex), k) == "sig-" + rest && IsPlain(plan.id)
    ensures plan.references == ReferencesTo(plan.id, [a, b]) + OwnReferences(plan.id)
    ensures PlanIds(plan) == Identifiers(plan.id, [a.name, b.name] + OWN_NAMES)
    ensures AllFree(doc, PlanIds(plan))
  {
    hide Identifiers, AllFree, AllocateFrom, BaseId, OwnReferences;
    PlanIdsAre(plan.id, a, b);
    AllocatedIsFree(doc, BaseId(plan.documentIndex), [a.name, b.name] + OWN_NAMES, 1);
    k :| k >= 1 && plan.id == Candidate(BaseId(plan.documentIndex), k);
    rest := CandidatesArePlain(plan.documentIndex, k);
  }

  /** A built plan's identifiers are new. */
  lemma BuiltIsFresh(doc: Node, plan: Plan, a: Covered, b: Covered)
    requires Builds(doc, plan, a, b)
    ensures FreshPlan(doc, plan)
  {
    var k, rest := BuiltShape(doc, plan, a, b);
    var names := [a.name, b.name] + OWN_NAMES;
    TwoNames(a.name, b.name);
    hide AllFree, Builds, PlanIds, Identifiers, Candidate;
    OwnIdentifiersDistinct(plan.id, rest, names);
    forall i | 0 <= i < |PlanIds(plan)|
      ensures PlanIds(plan)[i] != ""
    {
      IdentifierAt(plan.id, rest, names, 0);
      IdentifierAt(plan.id, rest, names, i);
    }
  }

  /** Plans for different documents share no identifier. */
  lemma BuiltApart(doc: Node, p: Plan, a: Covered, b: Covered, q: Plan, c: Covered, d: Covered)
    requires Builds(doc, p, a, b) && Builds(doc, q, c, d)
    requires p.documentIndex.Some? && q.documentIndex.Some? && p.documentIndex != q.documentIndex
    ensures NoneShared(p, q)
  {
    hide PlanIds, Identifiers, Candidate, BaseId;
    var k, rest := BuiltShape(doc, p, a, b);
    var l, more := BuiltShape(doc, q, c, d);
    forall x | x in PlanIds(p)
      ensures x !in PlanIds(q)
    {
      if x in PlanIds(q) {
        IdentifiersOfDocument(p.documentIndex.value, k, [a.name, b.name] + OWN_NAMES, x);
        IdentifiersOfDocument(q.documentIndex.value, l, [c.name, d.name] + OWN_NAMES, x);
        OneDocument(p.documentIndex.value, q.documentIndex.value, x);
      }
    }
  }

  // ---------------------------------------------------------- one plan's markup

  lemma NcNameUri(target: string)
    requires CheckId(target)
    ensures NamesOne("#" + target) && ("#" + target)[1..] == target && IsPlain("#" + target)
  {
    NcNamesArePlain(target);
    assert ("#" + target)[1] == target[0];
  }

  predicate PlainCovered(c: Covered) {
    CheckId(c.target) && IsPlain(c.name) && (c.mime.Some? ==> IsPlain(c.mime.value))
  }

  lemma ReferenceIdsPlain(id: string, name: string)
    requires IsPlain(id) && IsPlain(name)
    ensures IsPlain(ReferenceId(id, name))
  {
    hide IsPlain;
    FrontsArePlain();
    PlainJoin("ref-", id);
    PlainJoin("ref-" + id, "-");
    PlainJoin("ref-" + id + "-", name);
  }

  lemma FrontsArePlain()
    ensures IsPlain("ref-") && IsPlain("-") && IsPlain("#profile-") && IsPlain("#signed-props-")
    ensures IsPlain("signature-profile") && IsPlain("signed-properties")
  {}

  lemma TypeIsPlain()
    ensures IsPlain(SIGNED_PROPERTIES_TYPE)
  {
    TypePieces();
    hide IsPlain;
    PlainJoin("http://uri.etsi.org/", "01903#SignedProperties");
    assert SIGNED_PROPERTIES_TYPE == "http://uri.etsi.org/" + "01903#SignedProperties";
  }

  lemma TypePieces()
    ensures IsPlain("http://uri.etsi.org/") && IsPlain("01903#SignedProperties")
  {}

  lemma OwnReferencesTidy(id: string)
    requires IsPlain(id)
    ensures TidyReference(OwnReferences(id)[0]) && TidyReference(OwnReferences(id)[1])
  {
    hide IsPlain;
    FrontsArePlain();
    TypeIsPlain();
    ReferenceIdsPlain(id, "signature-profile");
    ReferenceIdsPlain(id, "signed-properties");
    PlainJoin("#profile-", id);
    PlainJoin("#signed-props-", id);
    assert "#profile-" + id == "#" + ProfileObjectId(id);
    assert "#signed-props-" + id == "#" + SignedPropertiesId(id);
  }

  lemma BuiltIsTidy(doc: Node, plan: Plan, a: Covered, b: Covered)
    requires Builds(doc, plan, a, b) && PlainCovered(a) && PlainCovered(b)
    ensures TidyPlan(plan)
  {
    var k, rest := BuiltShape(doc, plan, a, b);
    BuiltIsFresh(doc, plan, a, b);
    hide IsPlain, Identifiers, AllFree, Builds, CheckId, OwnReferences, Candidate;
    NcNameUri(a.target);
    NcNameUri(b.target);
    ReferenceIdsPlain(plan.id, a.name);
    ReferenceIdsPlain(plan.id, b.name);
    OwnReferencesTidy(plan.id);
    var refs := plan.references;
    TwoCovered(plan.id, a, b);
    assert refs == [ReferenceTo(plan.id, a), ReferenceTo(plan.id, b)] + OwnReferences(plan.id);
    assert TidyReferences(refs);
    DistinctRefs(plan.id, refs);
  }

  lemma {:induction false} RefIdsAt(refs: seq<PlannedReference>)
    ensures |RefIdsOf(refs)| == |refs| && forall i :: 0 <= i < |refs| ==> RefIdsOf(refs)[i] == refs[i].id
  {
    if refs != [] { RefIdsAt(refs[1..]); }
  }

  lemma DistinctRefs(id: string, refs: seq<PlannedReference>)
    requires AllDistinct(IdsIn(id, refs))
    ensures DistinctIds(refs)
  {
    RefIdsAt(refs);
    forall i, j | 0 <= i < j < |refs|
      ensures refs[i].id != refs[j].id
    {
      assert IdsIn(id, refs)[i + 5] == RefIdsOf(refs)[i] && IdsIn(id, refs)[j + 5] == RefIdsOf(refs)[j];
    }
  }

  // ------------------------------------------------------------ where plans go

  /** A covered element: a child of the container, found by its `Id`. */
  predicate CoversKid(doc: Node, container: Path, c: Covered) {
    && ById(doc, c.target).Some? && container < ById(doc, c.target).value
  }

  lemma IdOfCarries(doc: Node, p: Path, x: string)
    requires IsElement(doc, p) && IdOf(At(doc, p)) == Some(x)
    ensures Carries(doc, p, x)
  {
    AttrValueIn(At(doc, p).attrs, "Id");
    AttrValueIn(At(doc, p).attrs, "ID");
    AttrValueIn(At(doc, p).attrs, "id");
  }

  /** The element the search finds for an `OBJREF` is the document's own payload object. */
  lemma PayloadFound(doc: Node, documents: Path, namespace: string, d: Document)
    requires IdMap(doc).Some? && Modelled(doc, documents, namespace, d) && ById(doc, d.objectRef).Some?
    ensures ById(doc, d.objectRef).value == ChildrenNamed(doc, d.node, XMLDSIG, "Object")[0]
    ensures var o := ById(doc, d.objectRef).value; o != [] && d.node < o && o[..|o| - 1] == d.node
  {
    hide IdMap, IdOf, IsNamed, ChildrenNamed;
    var found, o := ById(doc, d.objectRef).value, ChildrenNamed(doc, d.node, XMLDSIG, "Object")[0];
    ChildrenNamedExact(doc, d.node, XMLDSIG, "Object", o);
    NamedIsElement(At(doc, o), XMLDSIG, "Object");
    ByIdExact(doc, d.objectRef);
    IdAttrCarries(doc, found, d.objectRef);
    IdOfCarries(doc, o, d.objectRef);
    IdMapExact(doc, d.objectRef, found);
    IdMapExact(doc, d.objectRef, o);
  }

  lemma NamedIsElement(n: Node, ns: string, local: string)
    requires IsNamed(n, ns, local)
    ensures n.Element?
  {}

  lemma ChildIdFound(doc: Node, p: Path, namespace: string, name: string)
    requires IdMap(doc).Some? && Valid(doc, p) && ChildId(doc, p, namespace, name).Some?
    ensures var id := ChildId(doc, p, namespace, name).value;
            && ChildNamed(doc, p, namespace, name).Some?
            && ById(doc, id) == ChildNamed(doc, p, namespace, name) && p < ById(doc, id).value
  {
    hide IdMap, IsNamed, ChildrenNamed;
    var c := ChildNamed(doc, p, namespace, name).value;
    ChildrenNamedExact(doc, p, namespace, name, c);
    NamedIsElement(At(doc, c), namespace, name);
    ByIdIsTheMap(doc, ChildId(doc, p, namespace, name).value, c);
  }

  /** A plan as planning leaves it: built, placed, and covering children of its container. */
  ghost predicate WellPlanned(doc: Node, plan: Plan) {
    && Insertable(doc, plan)
    && exists a, b :: WellBuilt(doc, plan, a, b)
  }

  predicate WellBuilt(doc: Node, plan: Plan, a: Covered, b: Covered) {
    && Builds(doc, plan, a, b) && PlainCovered(a) && PlainCovered(b)
    && CoversKid(doc, plan.container, a) && CoversKid(doc, plan.container, b)
    && !CoversAncestorOrSelf(doc, plan.container)
  }

  lemma NamesArePlain()
    ensures IsPlain("object") && IsPlain("document-profile") && IsPlain("dossier-profile") && IsPlain("documents")
  {}

  lemma NamesAreApart()
    ensures "object" != "document-profile" && "dossier-profile" != "documents"
    ensures "object" !in OWN_NAMES && "document-profile" !in OWN_NAMES
    ensures "dossier-profile" !in OWN_NAMES && "documents" !in OWN_NAMES
  {}

  lemma ModelledIsValid(doc: Node, documents: Path, namespace: string, d: Document)
    requires Modelled(doc, documents, namespace, d)
    ensures Valid(doc, d.node)
  {}

  /** What a document signature covers, outside itself. */
  predicate CoversDocument(doc: Node, namespace: string, d: Document, plan: Plan) {
    && plan.container == d.node && plan.documentIndex == Some(d.index)
    && Valid(doc, d.node) && ChildId(doc, d.node, namespace, "DocumentProfile").Some?
    && WellBuilt(doc, plan, Covered("object", d.objectRef, Some(Essence(d))),
                 Covered("document-profile", ChildId(doc, d.node, namespace, "DocumentProfile").value, None))
  }

  /** What a dossier signature covers, outside itself. */
  predicate CoversDossier(doc: Node, namespace: string, plan: Plan) {
    var root := RootElement(doc);
    && plan.container == root && plan.documentIndex == None
    && ChildId(doc, root, namespace, "DossierProfile").Some? && ChildId(doc, root, namespace, "Documents").Some?
    && WellBuilt(doc, plan, Covered("dossier-profile", ChildId(doc, root, namespace, "DossierProfile").value, None),
                 Covered("documents", ChildId(doc, root, namespace, "Documents").value, None))
  }

  lemma DocumentPlanned(doc: Node, documents: Path, namespace: string, d: Document)
    requires IdMap(doc).Some? && Modelled(doc, documents, namespace, d) && PlanDocument(doc, namespace, d).Ok?
    ensures WellPlanned(doc, PlanDocument(doc, namespace, d).value)
    ensures CoversDocument(doc, namespace, d, PlanDocument(doc, namespace, d).value)
  {
    hide IdMap, CoversAncestorOrSelf, CheckId, IsPlain, ChildrenNamed, BuildPlan, CheckMimeEssence, ChildId, ById, Modelled, Essence;
    var plan := PlanDocument(doc, namespace, d).value;
    assert Valid(doc, d.node) by { ModelledIsValid(doc, documents, namespace, d); }
    PayloadFound(doc, documents, namespace, d);
    ChildIdFound(doc, d.node, namespace, "DocumentProfile");
    var profile := ChildId(doc, d.node, namespace, "DocumentProfile").value;
    EssencesArePlain(Essence(d));
    NamesArePlain();
    NamesAreApart();
    var a, b := Covered("object", d.objectRef, Some(Essence(d))), Covered("document-profile", profile, None);
    BuiltKeeps(doc, Some(d.index), d.node, [a, b]);
    assert WellBuilt(doc, plan, a, b);
  }

  lemma BuiltKeeps(doc: Node, index: Option<nat>, container: Path, covered: seq<Covered>)
    ensures var r := BuildPlan(doc, index, container, covered);
            r.Ok? ==> r.value.documentIndex == index && r.value.container == container
  {}

  lemma DossierPlanned(doc: Node, namespace: string)
    requires IdMap(doc).Some? && PlanDossier(doc, namespace).Ok? && At(doc, RootElement(doc)).Element?
    ensures WellPlanned(doc, PlanDossier(doc, namespace).value) && CoversDossier(doc, namespace, PlanDossier(doc, namespace).value)
  {
    hide IdMap, CoversAncestorOrSelf, CheckId, IsPlain, ChildrenNamed, BuildPlan, RootElement, OWN_NAMES, ById, ChildNamed, IsNamed, At, Valid;
    var plan := PlanDossier(doc, namespace).value;
    var root := RootElement(doc);
    ChildIdFound(doc, root, namespace, "DossierProfile");
    ChildIdFound(doc, root, namespace, "Documents");
    NamesArePlain();
    NamesAreApart();
    var profile, documents := ChildId(doc, root, namespace, "DossierProfile").value, ChildId(doc, root, namespace, "Documents").value;
    var a, b := Covered("dossier-profile", profile, None), Covered("documents", documents, None);
    BuiltKeeps(doc, None, root, [a, b]);
    assert Builds(doc, plan, a, b);
    assert PlainCovered(a) && PlainCovered(b);
    assert CoversKid(doc, root, a) && CoversKid(doc, root, b);
    assert WellBuilt(doc, plan, a, b) by { hide Builds, PlainCovered, CoversKid; }
  }

  // ------------------------------------------------------------------ the run

  lemma {:induction false} DocumentsPlannedAt(doc: Node, namespace: string, targets: seq<Document>)
    requires PlanDocuments(doc, namespace, targets).Ok?
    ensures var plans := PlanDocuments(doc, namespace, targets).value;
            && |plans| == |targets|
            && forall i :: 0 <= i < |targets| ==> PlanDocument(doc, namespace, targets[i]) == Ok(plans[i])
  {
    hide PlanDocument;
    if targets != [] {
      DocumentsPlannedAt(doc, namespace, targets[1..]);
    }
  }

  /** Every plan of a run is well planned; the plans of different documents sit in disjoint containers. */
  ghost predicate WellPlannedRun(doc: Node, plans: seq<Plan>) {
    && (forall p :: p in plans ==> WellPlanned(doc, p))
    && (forall i, j :: 0 <= i < j < |plans| ==>
          && Disjoint(plans[i].container, plans[j].container)
          && plans[i].documentIndex.Some? && plans[j].documentIndex.Some? && plans[i].documentIndex != plans[j].documentIndex)
  }

  lemma AcceptedInOrder(doc: Node, allowed: seq<string>, maxDocuments: nat, dossier: Dossier)
    requires ParseDossier(doc, allowed, maxDocuments) == Ok(dossier) && doc.Root? && "" !in allowed
    ensures InOrder(dossier.documents)
  {
    hide ParseDossier;
    var profile, documents := AcceptedDossier(doc, allowed, maxDocuments, dossier);
  }

  lemma MemberAt(ds: seq<Document>, d: Document) returns (i: nat)
    requires d in ds
    ensures i < |ds| && ds[i] == d
  {
    i :| 0 <= i < |ds| && ds[i] == d;
  }

  lemma DocumentRun(doc: Node, allowed: seq<string>, maxDocuments: nat, dossier: Dossier, targets: seq<Document>)
    requires ParseDossier(doc, allowed, maxDocuments) == Ok(dossier) && doc.Root? && "" !in allowed
    requires InOrder(targets) && forall d :: d in targets ==> d in dossier.documents
    requires PlanDocuments(doc, dossier.namespace, targets).Ok?
    ensures WellPlannedRun(doc, PlanDocuments(doc, dossier.namespace, targets).value)
  {
    hide ParseDossier, PlanDocument, PlanDocuments, WellPlanned, Modelled, IdMap, Disjoint;
    var plans := PlanDocuments(doc, dossier.namespace, targets).value;
    var profile, documents := AcceptedDossier(doc, allowed, maxDocuments, dossier);
    DocumentsPlannedAt(doc, dossier.namespace, targets);
    forall i | 0 <= i < |plans|
      ensures WellPlanned(doc, plans[i]) && plans[i].container == targets[i].node && plans[i].documentIndex == Some(targets[i].index)
    {
      var m := MemberAt(dossier.documents, targets[i]);
      DocumentPlanned(doc, documents, dossier.namespace, targets[i]);
    }
    forall i, j | 0 <= i < j < |plans|
      ensures Disjoint(plans[i].container, plans[j].container)
    {
      var m := MemberAt(dossier.documents, targets[i]);
      var n := MemberAt(dossier.documents, targets[j]);
      DocumentsApart(doc, allowed, maxDocuments, dossier, m, n);
    }
  }

  /** Planning a run over an accepted dossier. */
  lemma RunIsWellPlanned(doc: Node, allowed: seq<string>, maxDocuments: nat, dossier: Dossier, request: SignRequest)
    requires ParseDossier(doc, allowed, maxDocuments) == Ok(dossier) && doc.Root? && "" !in allowed
    requires PlanRun(doc, dossier, request).Ok?
    ensures WellPlannedRun(doc, PlanRun(doc, dossier, request).value) && CheckNamespace(dossier.namespace)
  {
    hide ParseDossier, PlanDossier, PlanDocuments, RefusesPlacement, Targets, CheckNamespace, WellPlanned, IdMap, InOrder;
    var profile, documents := AcceptedDossier(doc, allowed, maxDocuments, dossier);
    AcceptedInOrder(doc, allowed, maxDocuments, dossier);
    if request.scope == DossierScope {
      NamedIsElement(At(doc, RootElement(doc)), dossier.namespace, "Dossier");
      DossierPlanned(doc, dossier.namespace);
    } else {
      TargetsExact(dossier, request.documents);
      DocumentRun(doc, allowed, maxDocuments, dossier, Targets(dossier, request.scope, request.documents).value);
    }
  }

  // --------------------------------------------------- what the passes rely on

  lemma OutsideAll(doc: Node, plans: seq<Plan>, plan: Plan, t: Path)
    requires WellPlannedRun(doc, plans) && plan in plans && plan.container < t
    ensures forall q :: q in plans ==> !(t <= q.container)
  {
    hide WellPlanned;
    var i :| 0 <= i < |plans| && plans[i] == plan;
    forall q | q in plans
      ensures !(t <= q.container)
    {
      var j :| 0 <= j < |plans| && plans[j] == q;
      if i < j {
        assert Disjoint(plans[i].container, plans[j].container);
      } else if j < i {
        assert Disjoint(plans[j].container, plans[i].container);
      }
    }
  }

  lemma BuiltIsAimed(doc: Node, plans: seq<Plan>, plan: Plan, a: Covered, b: Covered)
    requires WellPlannedRun(doc, plans) && plan in plans && WellBuilt(doc, plan, a, b)
    ensures AimedPlan(doc, plans, plan)
  {
    hide WellPlanned, WellPlannedRun, Identifiers, AllFree, CheckId, IsPlain, Candidate, OwnReferences, PlanIds, ReferenceId,
         CoversAncestorOrSelf;
    var k, rest := BuiltShape(doc, plan, a, b);
    NcNameUri(a.target);
    NcNameUri(b.target);
    TwoCovered(plan.id, a, b);
    var refs := plan.references;
    assert refs == [ReferenceTo(plan.id, a), ReferenceTo(plan.id, b)] + OwnReferences(plan.id);
    assert refs[2..] == OwnReferences(plan.id);
    OutsideAll(doc, plans, plan, ById(doc, a.target).value);
    OutsideAll(doc, plans, plan, ById(doc, b.target).value);
    assert AimsOutside(doc, plans, refs[0]) && AimsOutside(doc, plans, refs[1]);
  }

  lemma RunIsFresh(doc: Node, plans: seq<Plan>)
    requires WellPlannedRun(doc, plans)
    ensures Fresh(doc, plans)
  {
    hide Builds, PlainCovered, CoversKid, FreshPlan, NoneShared, Insertable, CoversAncestorOrSelf;
    forall p | p in plans
      ensures FreshPlan(doc, p)
    {
      assert WellPlanned(doc, p);
      var a, b :| WellBuilt(doc, p, a, b);
      BuiltIsFresh(doc, p, a, b);
    }
    forall i, j | 0 <= i < j < |plans|
      ensures NoneShared(plans[i], plans[j])
    {
      assert plans[i] in plans && plans[j] in plans;
      assert WellPlanned(doc, plans[i]) && WellPlanned(doc, plans[j]);
      var a, b :| WellBuilt(doc, plans[i], a, b);
      var c, d :| WellBuilt(doc, plans[j], c, d);
      BuiltApart(doc, plans[i], a, b, plans[j], c, d);
    }
  }

  /** The passes can run on what planning yields. */
  lemma RunIsRunnable(doc: Node, plans: seq<Plan>)
    requires WellPlannedRun(doc, plans) && IdMap(doc).Some?
    ensures Runnable(doc, plans) && AllTidy(plans)
  {
    hide Builds, PlainCovered, CoversKid, Fresh, AimedPlan, TidyPlan, IdMap, Insertable, CoversAncestorOrSelf;
    RunIsFresh(doc, plans);
    forall p | p in plans
      ensures Insertable(doc, p) && AimedPlan(doc, plans, p) && TidyPlan(p)
    {
      assert WellPlanned(doc, p);
      var a, b :| WellBuilt(doc, p, a, b);
      BuiltIsAimed(doc, plans, p, a, b);
      BuiltIsTidy(doc, p, a, b);
    }
  }
}
