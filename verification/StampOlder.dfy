/**
 Timestamping never breaks an older signature, and fails only where planning
 refuses or the authority does.
 */
module StampOlder {
  import opened Wrappers
  import opened XmlTree
  import opened Ids
  import opened Dossier
  import opened Growth
  import opened Names
  import opened Planner
  import opened Reader
  import opened Run
  import opened PlanTheorems
  import opened OlderSignatures
  import opened StampXml
  import opened StampPlanner
  import opened StampRun
  import opened StampTheorems
  import opened StampAgreement

  // ------------------------------------------------------------ older signatures

  /** A signature is not at or above a timestamp's container. */
  lemma StampIsClear(doc: Node, allowed: seq<string>, maxDocuments: nat, dossier: Dossier, scope: SignScope, plans: seq<StampPlan>,
                     targets: seq<Document>, s: Path, i: nat)
    requires ParseDossier(doc, allowed, maxDocuments) == Ok(dossier) && doc.Root? && "" !in allowed
    requires StampsFor(doc, dossier, scope, plans, targets) && i < |plans| && IsSignature(doc, s)
    ensures !(s <= plans[i].container)
  {
    hide ParseDossier, StampBuilt, ChildId, InOrder, RootElement, Modelled, IsNamed;
    var profile, documents := AcceptedDossier(doc, allowed, maxDocuments, dossier);
    if scope == DossierScope {
      RootIsDossier(doc, dossier, profile, documents);
      AboveRoot(doc, RootElement(doc), s);
    } else {
      assert targets[i] in targets;
      var m := MemberAt(dossier.documents, targets[i]);
      AboveDocument(doc, dossier, profile, documents, targets[i], s);
    }
  }

  lemma RootIsDossier(doc: Node, dossier: Dossier, profile: Path, documents: Path)
    requires Layout(doc, dossier, RootElement(doc), profile, documents)
    ensures RootElement(doc) != [] && At(doc, RootElement(doc)).Element? && At(doc, RootElement(doc)).local == "Dossier"
  {}

  /** The refusals hold for every plan of the run. */
  lemma NoneCovers(doc: Node, dossier: Dossier, scope: SignScope, plans: seq<StampPlan>, targets: seq<Document>, i: nat)
    requires StampsFor(doc, dossier, scope, plans, targets) && i < |plans|
    ensures !CoversAncestorOrSelf(doc, plans[i].container)
  {
    hide CoversAncestorOrSelf, ChildId, InOrder, RootElement, CheckId, HasTimestamp, IncludesKid, Candidate;
    if scope != DossierScope {
      assert StampsDocument(doc, dossier.namespace, targets[i], plans[i]);
    }
  }

  lemma OlderTargetOf(doc: Node, dossier: Dossier, scope: SignScope, plans: seq<StampPlan>, targets: seq<Document>, s: Path, p: Path)
    returns (t: Path)
    requires StampsFor(doc, dossier, scope, plans, targets) && plans != [] && IsSignature(doc, s) && IsReferenceOf(doc, s, p)
    ensures IsElement(doc, t) && forall i :: 0 <= i < |plans| ==> !(t <= plans[i].container)
    ensures var uri := UriOf(At(doc, p)); uri != "" && uri[0] == '#' && ById(doc, uri[1..]) == Some(t)
  {
    hide TargetOf, CoversAncestorOrSelf, StampsFor, UriOf;
    forall i | 0 <= i < |plans|
      ensures TargetOf(doc, At(doc, p)).Some? && !(TargetOf(doc, At(doc, p)).value <= plans[i].container)
    {
      NoneCovers(doc, dossier, scope, plans, targets, i);
      NotCovered(doc, plans[i].container, s, p);
    }
    assert TargetOf(doc, At(doc, p)).Some? && !(TargetOf(doc, At(doc, p)).value <= plans[0].container);
    TargetNamed(doc, p);
    t := TargetOf(doc, At(doc, p)).value;
  }

  lemma ClearPlaces(plans: seq<StampPlan>, t: Path)
    requires forall i :: 0 <= i < |plans| ==> !(t <= plans[i].container)
    ensures forall q :: q in StampPlaces(plans) ==> !(t <= q)
  {}

  /** Planning refuses, or no older signature is broken: it is untouched, and each of its references names
      the same element with the same octets, so that no digest verdict on it changes. */
  lemma OlderSignaturesKept(doc: Node, allowed: seq<string>, maxDocuments: nat, dossier: Dossier, request: StampRequest,
                            plans: seq<StampPlan>, tokens: seq<string>, s: Path, p: Path)
    returns (t: Path)
    requires ParseDossier(doc, allowed, maxDocuments) == Ok(dossier) && doc.Root? && "" !in allowed
    requires PlanStamps(doc, dossier, request) == Ok(plans) && |tokens| == |plans|
    requires IsSignature(doc, s) && IsReferenceOf(doc, s, p)
    ensures Spots(doc, StampPlaces(plans))
    ensures var w := StampedDocument(doc, plans, StampingOf(request, dossier.namespace), tokens);
            SignatureStands(doc, w, s) && ReferenceStands(doc, w, s, p, t)
  {
    hide ParseDossier, PlanStamps, Grown, ReferenceStands, SignatureStands, IdMap, StampsFor, ViewAt, UriOf, Stamps, StampPlaces, Spots;
    StampsExist(doc, dossier, request);
    var stamping := StampingOf(request, dossier.namespace);
    var profile, documents := AcceptedDossier(doc, allowed, maxDocuments, dossier);
    var targets := StampsPlanned(doc, allowed, maxDocuments, dossier, request);
    StampsAreGood(doc, allowed, maxDocuments, dossier, request.scope, plans, targets);
    var w := StampedDocument(doc, plans, stamping, tokens);
    forall i | 0 <= i < |plans|
      ensures !(s <= plans[i].container)
    {
      StampIsClear(doc, allowed, maxDocuments, dossier, request.scope, plans, targets, s, i);
    }
    ClearPlaces(plans, s);
    OldView(doc, StampPlaces(plans), Stamps(plans, stamping, tokens), s);
    StandsBecause(doc, w, s);
    StillAt(doc, w, s, p);
    t := OlderTargetOf(doc, dossier, request.scope, plans, targets, s, p);
    ClearPlaces(plans, t);
    OldView(doc, StampPlaces(plans), Stamps(plans, stamping, tokens), t);
    StampedSearch(doc, plans, stamping, tokens, UriOf(At(doc, p))[1..], t);
    StandsWhenViewed(doc, w, s, p, t);
  }

  // --------------------------------------------------------- when a run fails

  /** The authority answers for every imprint. */
  predicate AuthorityAnswers(imprints: seq<string>, authority: Authority, k: nat) {
    forall i :: 0 <= i < |imprints| ==> authority(k + i, imprints[i]).Some?
  }

  lemma {:induction false} AllRequested(imprints: seq<string>, authority: Authority, k: nat)
    ensures RequestTokens(imprints, authority, k).Ok? <==> AuthorityAnswers(imprints, authority, k)
  {
    if imprints != [] {
      AllRequested(imprints[1..], authority, k + 1);
      assert authority(k, imprints[0]) == authority(k + 0, imprints[0]);
      if AuthorityAnswers(imprints, authority, k) {
        forall i | 0 <= i < |imprints[1..]|
          ensures authority(k + 1 + i, imprints[1..][i]).Some?
        {
          assert authority(k + (i + 1), imprints[i + 1]).Some?;
        }
      }
      if authority(k, imprints[0]).Some? && AuthorityAnswers(imprints[1..], authority, k + 1) {
        forall i | 0 <= i < |imprints|
          ensures authority(k + i, imprints[i]).Some?
        {
          if i > 0 { assert authority(k + 1 + (i - 1), imprints[1..][i - 1]).Some?; }
        }
      }
    }
  }

  lemma {:induction false} AllImprinted(w: Node, plans: seq<StampPlan>)
    requires forall i :: 0 <= i < |plans| ==> Imprint(w, plans[i].includes).Ok? && FoundById(w, plans[i].id).Some?
    ensures Imprints(w, plans).Ok?
  {
    hide Imprint, FoundById;
    if plans != [] {
      forall i | 0 <= i < |plans[1..]|
        ensures Imprint(w, plans[1..][i].includes).Ok? && FoundById(w, plans[1..][i].id).Some?
      {
        assert plans[1..][i] == plans[i + 1];
      }
      assert Imprint(w, plans[0].includes).Ok? && FoundById(w, plans[0].id).Some?;
      AllImprinted(w, plans[1..]);
    }
  }

  lemma ImprintOfBuilt(doc: Node, namespace: string, plans: seq<StampPlan>, stamping: Stamping, tokens: seq<string>, i: nat,
                       a: string, b: string)
    requires GoodStamps(doc, plans) && IdMap(doc).Some? && i < |plans| && |tokens| == |plans|
    requires StampBuilt(doc, namespace, plans[i], a, b)
    ensures Imprint(StampedDocument(doc, plans, stamping, tokens), plans[i].includes).Ok?
  {
    hide Grown, StampBuilt, IdMap, ById, Aims, Imprint, Spots, Canonical, Stamps, AllTidyStamps, FreshStamps;
    BuiltAims(doc, namespace, plans, i, a, b);
    StampedImprint(doc, plans, stamping, tokens, i, a, ById(doc, a).value, b, ById(doc, b).value);
  }

  lemma ImprintFound(doc: Node, dossier: Dossier, scope: SignScope, plans: seq<StampPlan>, targets: seq<Document>, stamping: Stamping,
                     tokens: seq<string>, i: nat)
    requires StampsFor(doc, dossier, scope, plans, targets) && i < |plans| && |tokens| == |plans| && GoodStamps(doc, plans)
    requires IdMap(doc).Some?
    ensures Imprint(StampedDocument(doc, plans, stamping, tokens), plans[i].includes).Ok?
  {
    hide StampedDocument, StampBuilt, ChildId, InOrder, RootElement, IdMap, Imprint, Spots, AllTidyStamps, FreshStamps;
    if scope == DossierScope {
      var root := RootElement(doc);
      ImprintOfBuilt(doc, dossier.namespace, plans, stamping, tokens, i, ChildId(doc, root, dossier.namespace, "DossierProfile").value,
                     ChildId(doc, root, dossier.namespace, "Documents").value);
    } else {
      var d := targets[i];
      assert StampsDocument(doc, dossier.namespace, d, plans[i]);
      ImprintOfBuilt(doc, dossier.namespace, plans, stamping, tokens, i,
                     ChildId(doc, d.node, dossier.namespace, "DocumentProfile").value, d.objectRef);
    }
  }

  lemma GoodAreSpots(doc: Node, plans: seq<StampPlan>)
    requires GoodStamps(doc, plans)
    ensures Spots(doc, StampPlaces(plans))
  {}

  /** Preparing the imprints never fails: with the elements in place, whatever identifiers were taken under another
      spelling, everything a run looks for is found. */
  lemma ImprintingNeverFails(doc: Node, allowed: seq<string>, maxDocuments: nat, request: StampRequest)
    requires doc.Root? && "" !in allowed && StampPlansFor(doc, allowed, maxDocuments, request).Ok?
    ensures var (namespace, plans) := StampPlansFor(doc, allowed, maxDocuments, request).value;
            && Spots(doc, StampPlaces(plans))
            && Imprints(StampedDocument(doc, plans, StampingOf(request, namespace), StampHoles(plans)), plans).Ok?
  {
    hide ParseDossier, PlanStamps, Grown, IdMap, StampsFor, Imprint, Imprints, StampNode, AllTidyStamps, FreshStamps, Spots, GoodStamps;
    var dossier := ParseDossier(doc, allowed, maxDocuments).value;
    var plans := PlanStamps(doc, dossier, request).value;
    var stamping := StampingOf(request, dossier.namespace);
    var profile, documents := AcceptedDossier(doc, allowed, maxDocuments, dossier);
    var targets := StampsPlanned(doc, allowed, maxDocuments, dossier, request);
    StampsAreGood(doc, allowed, maxDocuments, dossier, request.scope, plans, targets);
    GoodAreSpots(doc, plans);
    var w := StampedDocument(doc, plans, stamping, StampHoles(plans));
    forall i | 0 <= i < |plans|
      ensures Imprint(w, plans[i].includes).Ok? && FoundById(w, plans[i].id).Some?
    {
      ImprintFound(doc, dossier, request.scope, plans, targets, stamping, StampHoles(plans), i);
      assert StampPlaces(plans)[i] in StampPlaces(plans);
      StampFound(doc, plans, stamping, StampHoles(plans), i);
    }
    AllImprinted(w, plans);
  }

  /** After planning, timestamping succeeds exactly when every text it reads is within the limits and the authority
      answers for every imprint. */
  lemma OnlyTheAuthorityFails(doc: Node, allowed: seq<string>, maxDocuments: nat, limits: Limits, request: StampRequest,
                              authority: Authority)
    requires doc.Root? && "" !in allowed && StampPlansFor(doc, allowed, maxDocuments, request).Ok?
    ensures var (namespace, plans) := StampPlansFor(doc, allowed, maxDocuments, request).value;
            && Spots(doc, StampPlaces(plans))
            && var imprints := Imprints(StampedDocument(doc, plans, StampingOf(request, namespace), StampHoles(plans)), plans);
               && imprints.Ok?
               && (TimestampTree(doc, allowed, maxDocuments, limits, request, authority).Ok? <==>
                     StampsRead(doc, allowed, maxDocuments, limits, request) && AuthorityAnswers(imprints.value, authority, 0))
  {
    hide StampPlansFor, Grown, Imprints, RequestTokens, Spots, AuthorityAnswers, Reads, StampsRead, CheckNamespace, AllTidyStamps, FreshStamps;
    ImprintingNeverFails(doc, allowed, maxDocuments, request);
    PlannedAreGood(doc, allowed, maxDocuments, request);
    var (namespace, plans) := StampPlansFor(doc, allowed, maxDocuments, request).value;
    AllRequested(Imprints(StampedDocument(doc, plans, StampingOf(request, namespace), StampHoles(plans)), plans).value, authority, 0);
  }
}
