/**
 A dossier whose signature costs it its ID space.

 One of its elements carries the identifier a dossier signature gets first,
 spelled `id`. The signer's search looks at `Id` alone and takes the identifier;
 in the signed document the verifier counts it twice.
 */
module SpellingMisled {
  import opened Wrappers
  import opened XmlTree
  import opened C14nTheorems
  import opened Ids
  import opened IdSpace
  import opened Dossier
  import opened Names
  import opened SignatureXml
  import opened Planner
  import opened Run
  import opened SmallDossier
  import opened SmallPlan
  import opened Working
  import opened WorkingIds
  import opened RunTheorems
  import opened Signer

  const SPELLED: Variant := Variant("o", "id", "sig-dossier")

  lemma IsFair()
    ensures Fair(SPELLED) && Unseen(SPELLED) && KnownIds(SPELLED) == ["p", "d", "e", "o"] && SPELLED.name == "id" && SPELLED.value == "sig-dossier"
  {}

  lemma IsTaken()
    ensures !NoneTaken(Whole(SPELLED), [THE_PLAN])
  {
    hide Whole, IdBag, ReferencesTo, OwnReferences;
    IsFair();
    WholeSound(SPELLED);
    assert "sig-dossier" in PlanIds(THE_PLAN);
    assert "sig-dossier" in multiset{"p", "d", "e", "o", "sig-dossier"};
    assert [THE_PLAN][0] == THE_PLAN;
  }

  /** The document is accepted and the run is planned. */
  predicate Signable(request: SignRequest) {
    && WellFormed(Whole(SPELLED)) && ParseDossier(Whole(SPELLED), [NS], 1) == Ok(THE_DOSSIER)
    && PlanRun(Whole(SPELLED), THE_DOSSIER, request) == Ok([THE_PLAN])
  }

  /** The run finishes, and the document it ends with has no valid ID space. */
  predicate Spoiled(doc: Node, signing: Signing, b: Backend) {
    && AllInsertable(doc, [THE_PLAN]) && RunPasses(doc, [THE_PLAN], signing, b).Ok?
    && IdMap(WorkingDocument(doc, [THE_PLAN], signing, RunPasses(doc, [THE_PLAN], signing, b).value.final)).None?
  }

  /** The parser accepts this dossier and the signer plans a dossier signature for it; the run finishes, under whatever
      signer and authority answer, and leaves a document without a valid ID space. */
  lemma SpellingMatters(request: SignRequest, b: Backend)
    requires ForDossier(request) && forall i, octets :: b.sign(i, octets).Some? && b.stamp(i, octets).Some?
    ensures Signable(request) && Spoiled(Whole(SPELLED), SigningFor(request, NS), b)
  {
    hide Whole, ParseDossier, PlanRun, WellFormed, NoneTaken, Spoiled;
    IsFair();
    RootIsTop(SPELLED);
    WholeSound(SPELLED);
    Accepted(SPELLED);
    RunIsPlanned(SPELLED, request);
    IsTaken();
    SpoiledWhenTaken(Whole(SPELLED), request, b);
  }

  lemma SpoiledWhenTaken(doc: Node, request: SignRequest, b: Backend)
    requires doc.Root? && ParseDossier(doc, [NS], 1) == Ok(THE_DOSSIER) && PlanRun(doc, THE_DOSSIER, request) == Ok([THE_PLAN])
    requires !NoneTaken(doc, [THE_PLAN]) && forall i, octets :: b.sign(i, octets).Some? && b.stamp(i, octets).Some?
    ensures Spoiled(doc, SigningFor(request, NS), b)
  {
    hide ParseDossier, PlanRun, WorkingDocument, RunPasses, IdMap, Fresh, AimedPlan, NoneTaken, THE_PLAN, AllTidy, CheckNamespace, Digested,
         Signed, SignatureChild, Canonical, CanonicalForStamp;
    assert NS != "" && "" !in [NS];
    PlansAreGood(doc, [NS], 1, request);
    var signing := SigningFor(request, NS);
    DigestingNeverFails(doc, [THE_PLAN], signing, b);
    var digested := Digested(doc, [THE_PLAN], signing, b).value;
    SigningSucceeds(doc, [THE_PLAN], signing, digested, b);
    PassesSucceed(doc, [THE_PLAN], signing, b);
    IdSpaceSurvives(doc, [THE_PLAN], signing, RunPasses(doc, [THE_PLAN], signing, b).value.final);
  }
}
