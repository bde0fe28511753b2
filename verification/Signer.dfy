/**
 Signing a dossier, from its text to the signed text, and what holds of the
 result.
 */
module Signer {
  import opened Wrappers
  import opened XmlTree
  import opened Ids
  import opened Dossier
  import opened SourceText
  import opened Names
  import opened SignatureXml
  import opened Planner
  import opened Working
  import opened WorkingIds
  import opened PassText
  import opened References
  import opened Reader
  import opened Run
  import opened RunTheorems
  import opened Acceptance
  import opened PlanTheorems

  /** Elements with content have an end tag. */
  ghost predicate WellClosed(doc: Node) {
    forall p :: IsElement(doc, p) && Kids(At(doc, p)) != [] ==> At(doc, p).close != ""
  }

  /** The request's own contributions: Base64, and a signing time without placeholder text. */
  predicate TidyRequest(request: SignRequest) {
    && IsPlain(request.certificate) && IsPlain(request.certificateDigest)
    && (forall c :: c in request.certificateValues ==> IsPlain(c))
    && HoleFree(EscapeTextValue(request.signingTime))
  }

  /** The plans of a run over the dossier in `doc`, with the dossier's namespace. */
  function PlansFor(doc: Node, allowed: seq<string>, maxDocuments: nat, request: SignRequest): Result<(string, seq<Plan>), SignError> {
    match ParseDossier(doc, allowed, maxDocuments)
    case Err(_) => Err(SignFailed)
    case Ok(dossier) =>
      match PlanRun(doc, dossier, request)
      case Err(e) => Err(e)
      case Ok(plans) => Ok((dossier.namespace, plans))
  }

  lemma PlansAreGood(doc: Node, allowed: seq<string>, maxDocuments: nat, request: SignRequest)
    requires doc.Root? && "" !in allowed && PlansFor(doc, allowed, maxDocuments, request).Ok?
    ensures var (namespace, plans) := PlansFor(doc, allowed, maxDocuments, request).value;
            Runnable(doc, plans) && AllTidy(plans) && CheckNamespace(namespace) && namespace in allowed
  {
    hide ParseDossier, PlanRun, WellPlannedRun, IdMap, Fresh, AimedPlan;
    var dossier := ParseDossier(doc, allowed, maxDocuments).value;
    var profile, documents := AcceptedDossier(doc, allowed, maxDocuments, dossier);
    RunIsWellPlanned(doc, allowed, maxDocuments, dossier, request);
    RunIsRunnable(doc, PlanRun(doc, dossier, request).value);
  }

  function SigningFor(request: SignRequest, namespace: string): Signing {
    SigningOf(request, namespace)
  }

  function RunTree(doc: Node, plans: seq<Plan>, signing: Signing, b: Backend): Result<Node, SignError>
    requires AllInsertable(doc, plans)
  {
    match ReadPasses(doc, plans, signing, b)
    case Err(e) => Err(e)
    case Ok(stages) => Ok(WorkingDocument(doc, plans, signing, stages.final))
  }

  /** The signed document as a tree. The dossier is read under the caller's limits and once more under the
      default ones. */
  function SignTree(doc: Node, allowed: seq<string>, maxDocuments: nat, limits: Limits, request: SignRequest, b: Backend)
    : Result<Node, SignError>
    requires doc.Root? && "" !in allowed
  {
    if !Reads(doc, limits) || !Reads(doc, DEFAULT_LIMITS) then Err(SignFailed)
    else
      match PlansFor(doc, allowed, maxDocuments, request)
      case Err(e) => Err(e)
      case Ok((namespace, plans)) =>
        PlansAreGood(doc, allowed, maxDocuments, request);
        RunTree(doc, plans, SigningFor(request, namespace), b)
  }

  lemma AllClosed(doc: Node, plans: seq<Plan>)
    requires WellClosed(doc) && AllInsertable(doc, plans)
    ensures ClosedContainers(doc, plans)
  {}

  /** Sign the dossier `doc`: the result is the text of the signed tree. */
  method Sign(doc: Node, allowed: seq<string>, maxDocuments: nat, limits: Limits, request: SignRequest, b: Backend)
    returns (r: Result<string, SignError>)
    requires doc.Root? && "" !in allowed && WellClosed(doc) && WritesBase64(b) && TidyRequest(request)
    requires forall n :: n in allowed ==> HoleFree(n)
    ensures var signed := SignTree(doc, allowed, maxDocuments, limits, request, b);
            r == if signed.Err? then Err(signed.error) else Ok(Source(signed.value))
  {
    hide ParseDossier, PlanRun, ReadPasses, WorkingDocument, Source, Runnable, AllTidy, CheckNamespace, HoleFree, IsPlain, WellClosed, Reads;
    var read := Read(Source(doc), doc, limits);
    if !read {
      return Err(SignFailed);
    }
    var dossier := ParseDossier(doc, allowed, maxDocuments);
    if dossier.Err? {
      return Err(SignFailed);
    }
    read := Read(Source(doc), doc, DEFAULT_LIMITS);
    if !read {
      return Err(SignFailed);
    }
    var plans := PlanRun(doc, dossier.value, request);
    if plans.Err? {
      return Err(plans.error);
    }
    PlansAreGood(doc, allowed, maxDocuments, request);
    RunnableInserts(doc, plans.value);
    AllClosed(doc, plans.value);
    var signing := SigningFor(request, dossier.value.namespace);
    r := SignText(doc, plans.value, signing, b);
  }

  lemma RunnableInserts(doc: Node, plans: seq<Plan>)
    requires Runnable(doc, plans)
    ensures AllInsertable(doc, plans)
  {}

  /** The signer answers for every `ds:SignedInfo`, and the authority for every `ds:SignatureValue`. */
  predicate Answers(doc: Node, plans: seq<Plan>, signing: Signing, b: Backend)
    requires AllInsertable(doc, plans)
  {
    && Digested(doc, plans, signing, b).Ok?
    && var digested := Digested(doc, plans, signing, b).value;
       && AnswersEach(WorkingDocument(doc, plans, signing, digested), plans, "SignedInfo", b)
       && (signing.timestamped ==>
             && Signed(doc, plans, signing, digested, b).Ok?
             && AnswersEach(WorkingDocument(doc, plans, signing, Signed(doc, plans, signing, digested, b).value), plans, "SignatureValue", b))
  }

  /** For the child with this name of every signature in `w`. */
  predicate AnswersEach(w: Node, plans: seq<Plan>, name: string, b: Backend) {
    forall i :: 0 <= i < |plans| ==> AnswersAt(w, plans[i], i, name, b)
  }

  predicate AnswersAt(w: Node, plan: Plan, i: nat, name: string, b: Backend) {
    var child := SignatureChild(w, plan.id, name);
    child.Some? ==> if name == "SignedInfo" then b.sign(i, Canonical(w, child.value)).Some?
                    else b.stamp(i, CanonicalForStamp(w, child.value)).Some?
  }

  lemma {:induction false} EachSigned(w: Node, plans: seq<Plan>, fills: seq<Filling>, b: Backend, k: nat)
    requires |plans| == |fills|
    requires forall i :: 0 <= i < |plans| ==> SignatureChild(w, plans[i].id, "SignedInfo").Some?
    ensures SignEach(w, plans, fills, b, k).Ok? <==> forall i :: 0 <= i < |plans| ==> AnswersAt(w, plans[i], k + i, "SignedInfo", b)
  {
    hide SignatureChild, Canonical, CanonicalForStamp;
    if plans != [] {
      var rest := plans[1..];
      forall i | 0 <= i < |rest|
        ensures SignatureChild(w, rest[i].id, "SignedInfo").Some?
        ensures AnswersAt(w, rest[i], k + 1 + i, "SignedInfo", b) == AnswersAt(w, plans[i + 1], k + (i + 1), "SignedInfo", b)
      {
        assert rest[i] == plans[i + 1];
      }
      EachSigned(w, rest, fills[1..], b, k + 1);
      AnsweredStep(w, plans, "SignedInfo", b, k);
      assert AnswersAt(w, plans[0], k, "SignedInfo", b) <==> b.sign(k, Canonical(w, SignatureChild(w, plans[0].id, "SignedInfo").value)).Some?;
    }
  }

  lemma AnsweredStep(w: Node, plans: seq<Plan>, name: string, b: Backend, k: nat)
    requires plans != []
    ensures (forall i :: 0 <= i < |plans| ==> AnswersAt(w, plans[i], k + i, name, b))
       <==> AnswersAt(w, plans[0], k, name, b)
            && forall i :: 0 <= i < |plans[1..]| ==> AnswersAt(w, plans[1..][i], k + 1 + i, name, b)
  {
    hide AnswersAt;
    var rest := plans[1..];
    if forall i :: 0 <= i < |plans| ==> AnswersAt(w, plans[i], k + i, name, b) {
      assert AnswersAt(w, plans[0], k + 0, name, b);
      forall i | 0 <= i < |rest|
        ensures AnswersAt(w, rest[i], k + 1 + i, name, b)
      {
        assert AnswersAt(w, plans[i + 1], k + (i + 1), name, b);
      }
    }
    if AnswersAt(w, plans[0], k, name, b) && forall i :: 0 <= i < |rest| ==> AnswersAt(w, rest[i], k + 1 + i, name, b) {
      forall i | 0 <= i < |plans|
        ensures AnswersAt(w, plans[i], k + i, name, b)
      {
        if i > 0 { assert AnswersAt(w, rest[i - 1], k + 1 + (i - 1), name, b); }
      }
    }
  }

  lemma {:induction false} EachStamped(w: Node, plans: seq<Plan>, fills: seq<Filling>, b: Backend, k: nat)
    requires |plans| == |fills|
    requires forall i :: 0 <= i < |plans| ==> SignatureChild(w, plans[i].id, "SignatureValue").Some?
    ensures StampEach(w, plans, fills, b, k).Ok? <==> forall i :: 0 <= i < |plans| ==> AnswersAt(w, plans[i], k + i, "SignatureValue", b)
  {
    hide SignatureChild, Canonical, CanonicalForStamp;
    if plans != [] {
      var rest := plans[1..];
      forall i | 0 <= i < |rest|
        ensures SignatureChild(w, rest[i].id, "SignatureValue").Some?
      {
        assert rest[i] == plans[i + 1];
      }
      EachStamped(w, rest, fills[1..], b, k + 1);
      AnsweredStep(w, plans, "SignatureValue", b, k);
      assert AnswersAt(w, plans[0], k, "SignatureValue", b)
        <==> b.stamp(k, CanonicalForStamp(w, SignatureChild(w, plans[0].id, "SignatureValue").value)).Some?;
    }
  }

  /** Every signature of a run has the child a pass looks for. */
  lemma AllHaveChildren(doc: Node, plans: seq<Plan>, signing: Signing, fills: seq<Filling>)
    requires Runnable(doc, plans) && Matching(plans, fills)
    ensures var w := WorkingDocument(doc, plans, signing, fills);
            AllHave(w, plans, "SignedInfo") && AllHave(w, plans, "SignatureValue")
  {
    hide WorkingDocument, SignatureChild, Fresh, AimedPlan, IdMap;
    var w := WorkingDocument(doc, plans, signing, fills);
    forall p | p in plans
      ensures SignatureChild(w, p.id, "SignedInfo").Some? && SignatureChild(w, p.id, "SignatureValue").Some?
    {
      var i :| 0 <= i < |plans| && plans[i] == p;
      ChildrenFound(doc, plans, signing, fills, i);
    }
  }

  lemma SigningSucceeds(doc: Node, plans: seq<Plan>, signing: Signing, fills: seq<Filling>, b: Backend)
    requires Runnable(doc, plans) && Matching(plans, fills)
    ensures Signed(doc, plans, signing, fills, b).Ok? <==> AnswersEach(WorkingDocument(doc, plans, signing, fills), plans, "SignedInfo", b)
  {
    hide WorkingDocument, SignatureChild, IdMap, Fresh, AimedPlan, AnswersAt, SignEach;
    var w := WorkingDocument(doc, plans, signing, fills);
    AllHaveChildren(doc, plans, signing, fills);
    forall i | 0 <= i < |plans|
      ensures SignatureChild(w, plans[i].id, "SignedInfo").Some?
    {
      assert plans[i] in plans;
    }
    EachSigned(w, plans, fills, b, 0);
    assert forall i :: 0 <= i < |plans| ==> (AnswersAt(w, plans[i], 0 + i, "SignedInfo", b) <==> AnswersAt(w, plans[i], i, "SignedInfo", b));
  }

  lemma StampingSucceeds(doc: Node, plans: seq<Plan>, signing: Signing, fills: seq<Filling>, b: Backend)
    requires Runnable(doc, plans) && Matching(plans, fills) && signing.timestamped
    ensures Stamped(doc, plans, signing, fills, b).Ok? <==> AnswersEach(WorkingDocument(doc, plans, signing, fills), plans, "SignatureValue", b)
  {
    hide WorkingDocument, SignatureChild, IdMap, Fresh, AimedPlan, AnswersAt, StampEach;
    var w := WorkingDocument(doc, plans, signing, fills);
    AllHaveChildren(doc, plans, signing, fills);
    forall i | 0 <= i < |plans|
      ensures SignatureChild(w, plans[i].id, "SignatureValue").Some?
    {
      assert plans[i] in plans;
    }
    EachStamped(w, plans, fills, b, 0);
    assert forall i :: 0 <= i < |plans| ==> (AnswersAt(w, plans[i], 0 + i, "SignatureValue", b) <==> AnswersAt(w, plans[i], i, "SignatureValue", b));
  }

  /** The passes succeed exactly when the signer and the authority answer. */
  lemma PassesSucceed(doc: Node, plans: seq<Plan>, signing: Signing, b: Backend)
    requires Runnable(doc, plans)
    ensures RunPasses(doc, plans, signing, b).Ok? <==> Answers(doc, plans, signing, b)
  {
    hide WorkingDocument, Digested, Signed, AnswersEach, Runnable, AllInsertable, StampAll;
    RunnableInserts(doc, plans);
    DigestingNeverFails(doc, plans, signing, b);
    var digested := Digested(doc, plans, signing, b).value;
    SigningSucceeds(doc, plans, signing, digested, b);
    if Signed(doc, plans, signing, digested, b).Ok? && signing.timestamped {
      StampingSucceeds(doc, plans, signing, Signed(doc, plans, signing, digested, b).value, b);
    }
  }

  /** After planning, signing succeeds exactly when every text of the run is read within the limits and the
      signer and the timestamp authority answer. */
  lemma FailsOnlyOutside(doc: Node, allowed: seq<string>, maxDocuments: nat, limits: Limits, request: SignRequest, b: Backend)
    requires doc.Root? && "" !in allowed && PlansFor(doc, allowed, maxDocuments, request).Ok?
    ensures var (namespace, plans) := PlansFor(doc, allowed, maxDocuments, request).value;
            var signing := SigningFor(request, namespace);
            && AllInsertable(doc, plans)
            && (SignTree(doc, allowed, maxDocuments, limits, request, b).Ok? <==>
                  && Reads(doc, limits) && Reads(doc, DEFAULT_LIMITS) && PassesRead(doc, plans, signing, b)
                  && Answers(doc, plans, signing, b))
  {
    hide PlansFor, WorkingDocument, RunPasses, PassesRead, Answers, IdMap, Fresh, AimedPlan, AllTidy, CheckNamespace, Reads;
    PlansAreGood(doc, allowed, maxDocuments, request);
    var (namespace, plans) := PlansFor(doc, allowed, maxDocuments, request).value;
    PassesSucceed(doc, plans, SigningFor(request, namespace), b);
  }

  /** What a run over the dossier in `doc` plans and fills in. */
  predicate WrittenBy(doc: Node, allowed: seq<string>, maxDocuments: nat, request: SignRequest, b: Backend,
                      plans: seq<Plan>, signing: Signing, final: seq<Filling>) {
    && PlansFor(doc, allowed, maxDocuments, request) == Ok((signing.namespace, plans))
    && signing == SigningFor(request, signing.namespace)
    && AllInsertable(doc, plans)
    && RunPasses(doc, plans, signing, b).Ok? && RunPasses(doc, plans, signing, b).value.final == final
  }

  /** The signed document, whole: every signature in it fits it; its ID space is valid exactly when no
      new identifier was taken; and then every reference the run wrote verifies. */
  lemma SignedDocument(doc: Node, allowed: seq<string>, maxDocuments: nat, limits: Limits, request: SignRequest, b: Backend,
                       library: Library)
    returns (plans: seq<Plan>, signing: Signing, final: seq<Filling>)
    requires doc.Root? && "" !in allowed && SignTree(doc, allowed, maxDocuments, limits, request, b).Ok? && SameLibrary(library, b)
    ensures WrittenBy(doc, allowed, maxDocuments, request, b, plans, signing, final)
    ensures SoundlySigned(SignTree(doc, allowed, maxDocuments, limits, request, b).value, doc, plans, signing, final, b, library)
  {
    hide PlansFor, RunPasses, WorkingDocument, IdMap, Fresh, AimedPlan, AllTidy, CheckNamespace, Consistent, NoneTaken, Verifies, Reads,
         PassesRead;
    PlansAreGood(doc, allowed, maxDocuments, request);
    var (namespace, planned) := PlansFor(doc, allowed, maxDocuments, request).value;
    plans, signing := planned, SigningFor(request, namespace);
    final := RunPasses(doc, plans, signing, b).value.final;
    ThreePassConsistency(doc, plans, signing, b);
    IdSpaceSurvives(doc, plans, signing, final);
    var w := WorkingDocument(doc, plans, signing, final);
    if IdMap(w).Some? {
      forall i, j | 0 <= i < |plans| && 0 <= j < |plans[i].references|
        ensures RefVerifies(w, doc, plans, library, i, j)
      {
        assert plans[i] in plans;
        EveryReferenceVerifies(doc, plans, signing, b, library, i, j);
      }
    }
  }

  /** `w` is `doc` with the plans' signatures in it: consistent, and verifiable when its ID space is valid,
      which it is exactly when no new identifier was taken. */
  ghost predicate SoundlySigned(w: Node, doc: Node, plans: seq<Plan>, signing: Signing, final: seq<Filling>, b: Backend,
                                library: Library) {
    && Runnable(doc, plans) && Matching(plans, final)
    && w == WorkingDocument(doc, plans, signing, final)
    && Consistent(w, doc, plans, signing, final, b)
    && (IdMap(w).Some? <==> NoneTaken(doc, plans))
    && (IdMap(w).Some? ==> AllVerify(w, doc, plans, library))
  }

  predicate AllVerify(w: Node, doc: Node, plans: seq<Plan>, library: Library)
    requires Runnable(doc, plans)
  {
    forall i, j :: 0 <= i < |plans| && 0 <= j < |plans[i].references| ==> RefVerifies(w, doc, plans, library, i, j)
  }

  /** Reference `j` of signature `i` verifies. */
  predicate RefVerifies(w: Node, doc: Node, plans: seq<Plan>, library: Library, i: nat, j: nat)
    requires Runnable(doc, plans) && i < |plans| && j < |plans[i].references|
  {
    && plans[i] in plans
    && Verifies(w, library, Place(doc, plans[i]), Place(doc, plans[i]) + ReferencePath(j), TargetPath(doc, plans, plans[i], j))
  }
}
