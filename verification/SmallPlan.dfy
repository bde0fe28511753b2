/**
 The plan of a dossier signature over the small dossier, when its note spells its
 identifier `id`: the signer's search does not see the note.
 */
module SmallPlan {
  import opened Wrappers
  import opened XmlTree
  import opened Ids
  import opened Dossier
  import opened Names
  import opened Planner
  import opened SmallDossier

  const THE_DOSSIER: Dossier := Dossier(NS, [THE_DOCUMENT])

  const COVERED: seq<Covered> := [Covered("dossier-profile", "p", None), Covered("documents", "d", None)]

  const THE_PLAN: Plan := Plan("sig-dossier", None, TOP, ReferencesTo("sig-dossier", COVERED) + OwnReferences("sig-dossier"))

  /** The note is not looked at. */
  predicate Unseen(v: Variant) {
    Fair(v) && v.name == "id"
  }

  /** Requests a dossier signature. */
  predicate ForDossier(request: SignRequest) {
    request.scope == DossierScope
  }

  /** No identifier a signature introduces is a single character. */
  lemma {:induction false} ReferenceIdsLong(id: string, names: seq<string>)
    ensures forall x :: x in ReferenceIds(id, names) ==> |x| > 1
  {
    if names != [] { ReferenceIdsLong(id, names[1..]); }
  }

  lemma AllAreFree(v: Variant, names: seq<string>)
    requires Unseen(v)
    ensures AllFree(Whole(v), Identifiers("sig-dossier", names))
  {
    hide Whole, ById;
    ReferenceIdsLong("sig-dossier", names);
    forall x | x in Identifiers("sig-dossier", names)
      ensures ById(Whole(v), x).None?
    {
      assert |x| > 1;
      NotFound(v, x);
    }
  }

  lemma Allocated(v: Variant, names: seq<string>)
    requires Unseen(v)
    ensures AllocateId(Whole(v), BaseId(None), names) == Ok("sig-dossier")
  {
    hide Whole, AllFree, Identifiers;
    AllAreFree(v, names);
    assert Candidate("sig-dossier", 1) == "sig-dossier";
  }

  lemma NoRefusal(v: Variant)
    requires Unseen(v)
    ensures !RefusesPlacement(Whole(v), DossierScope) && forall q :: !CoversAncestorOrSelf(Whole(v), q)
  {
    hide Whole, Elements, IsSignature;
    forall p
      ensures !IsSignature(Whole(v), p)
    {
      NoSignature(v, p);
    }
  }

  lemma HeadNamed(v: Variant)
    requires Unseen(v)
    ensures Valid(Whole(v), TOP) && Kids(At(Whole(v), TOP)) != []
    ensures ChildId(Whole(v), TOP, NS, "DossierProfile") == Some("p") && ChildId(Whole(v), TOP, NS, "Documents") == Some("d")
  {
    hide Whole, ChildrenNamed, AttributeOf, Head, Body, Top;
    Listed(v);
    Everywhere(v);
    Shapes(v);
    Values(v);
  }

  lemma PlannedWhenFree(doc: Node, root: Path, a: string, b: string)
    requires RootElement(doc) == root && ChildId(doc, root, NS, "DossierProfile") == Some(a) && ChildId(doc, root, NS, "Documents") == Some(b)
    requires CheckId(a) && CheckId(b) && !CoversAncestorOrSelf(doc, root) && Kids(At(doc, root)) != []
    ensures PlanDossier(doc, NS) == BuildPlan(doc, None, root, [Covered("dossier-profile", a, None), Covered("documents", b, None)])
  {
    hide ChildId, CheckId, CoversAncestorOrSelf, BuildPlan, RootElement;
  }

  lemma IsPlanned(v: Variant)
    requires Unseen(v)
    ensures PlanDossier(Whole(v), NS) == Ok(THE_PLAN)
  {
    hide Whole, ChildId, CheckId, CoversAncestorOrSelf, RootElement, AllocateId, ReferencesTo, OwnReferences, BaseId;
    RootIsTop(v);
    HeadNamed(v);
    GoodNames();
    NoRefusal(v);
    PlannedWhenFree(Whole(v), TOP, "p", "d");
    Allocated(v, NamesOf(COVERED) + OWN_NAMES);
  }

  lemma RunIsPlanned(v: Variant, request: SignRequest)
    requires Unseen(v) && ForDossier(request)
    ensures PlanRun(Whole(v), THE_DOSSIER, request) == Ok([THE_PLAN])
  {
    hide Whole, PlanDossier, CheckNamespace, RefusesPlacement;
    IsPlanned(v);
    NoRefusal(v);
    GoodNames();
  }
}
