/**
 Which container timestamps a run writes, and where.

 What signing refuses, timestamping refuses for the same reason: older
 signatures over the container would no longer fit it.
 */
module StampPlanner {
  import opened Wrappers
  import opened XmlTree
  import opened Ids
  import opened Dossier
  import opened Growth
  import opened Names
  import opened SignatureFilling
  import opened Planner
  import opened PlanTheorems
  import opened StampXml

  /** `documents` are selectors, as for signing. The certificates are in Base64. */
  datatype StampRequest = StampRequest(scope: SignScope, documents: seq<string>, certificateValues: seq<string>)

  function StampBase(documentIndex: Option<nat>): string {
    match documentIndex
    case Some(i) => "ts-doc" + Decimal(i)
    case None => "ts-dossier"
  }

  function FreeFrom(doc: Node, base: string, attempt: nat): Result<string, SignError>
    decreases MAX_SHARED_IDENTIFIERS + 1 - attempt
  {
    if attempt > MAX_SHARED_IDENTIFIERS then Err(TimestampExists)
    else if ById(doc, Candidate(base, attempt)).None? then Ok(Candidate(base, attempt))
    else FreeFrom(doc, base, attempt + 1)
  }

  /** The container already carries a timestamp. */
  predicate HasTimestamp(doc: Node, container: Path, namespace: string)
    requires Valid(doc, container)
  {
    ChildrenNamed(doc, container, namespace, "TimeStamp") != []
  }

  function BuildStamp(doc: Node, namespace: string, documentIndex: Option<nat>, container: Path, includes: seq<string>)
    : Result<StampPlan, SignError>
    requires Valid(doc, container)
  {
    if exists x :: x in includes && !CheckId(x) then Err(DocumentNotSignable)
    else if HasTimestamp(doc, container, namespace) then Err(TimestampExists)
    else if CoversAncestorOrSelf(doc, container) then Err(DocumentAlreadySigned)
    else
      match FreeFrom(doc, StampBase(documentIndex), 1)
      case Err(e) => Err(e)
      case Ok(id) =>
        if Kids(At(doc, container)) == [] then Err(SignFailed) else Ok(StampPlan(id, documentIndex, container, includes))
  }

  function StampDocument(doc: Node, namespace: string, d: Document): Result<StampPlan, SignError> {
    match ById(doc, d.objectRef)
    case None => Err(DocumentNotSignable)
    case Some(node) =>
      ByIdExact(doc, d.objectRef);
      if node == [] then Err(DocumentNotSignable)
      else
        var container := node[..|node| - 1];
        assert Valid(doc, container) by { ParentIsValid(doc, node); }
        if !At(doc, container).Element? then Err(DocumentNotSignable)
        else
          match ChildId(doc, container, namespace, "DocumentProfile")
          case None => Err(DocumentNotSignable)
          case Some(profile) => BuildStamp(doc, namespace, Some(d.index), container, [profile, d.objectRef])
  }

  function StampDossier(doc: Node, namespace: string): Result<StampPlan, SignError> {
    var root := RootElement(doc);
    match (ChildId(doc, root, namespace, "DossierProfile"), ChildId(doc, root, namespace, "Documents"))
    case (Some(profile), Some(documents)) => BuildStamp(doc, namespace, None, root, [profile, documents])
    case (None, _) => Err(SignFailed)
    case (_, None) => Err(SignFailed)
  }

  function StampDocuments(doc: Node, namespace: string, targets: seq<Document>): Result<seq<StampPlan>, SignError> {
    if targets == [] then Ok([])
    else
      var first := StampDocument(doc, namespace, targets[0]);
      if first.Err? then Err(first.error)
      else
        var rest := StampDocuments(doc, namespace, targets[1..]);
        if rest.Err? then rest else Ok([first.value] + rest.value)
  }

  /** Everything decided before anything is written. */
  function PlanStamps(doc: Node, dossier: Dossier, request: StampRequest): Result<seq<StampPlan>, SignError> {
    if RefusesPlacement(doc, request.scope) then Err(DocumentAlreadySigned)
    else
      match Targets(dossier, request.scope, request.documents)
      case Err(e) => Err(e)
      case Ok(targets) =>
        if !CheckNamespace(dossier.namespace) then Err(DocumentNotSignable)
        else if request.scope == DossierScope then
          match StampDossier(doc, dossier.namespace)
          case Ok(plan) => Ok([plan])
          case Err(e) => Err(e)
        else StampDocuments(doc, dossier.namespace, targets)
  }

  /** The planning loop. */
  method StampEachDocument(doc: Node, namespace: string, targets: seq<Document>) returns (r: Result<seq<StampPlan>, SignError>)
    ensures r == StampDocuments(doc, namespace, targets)
  {
    hide StampDocument;
    var plans: seq<StampPlan> := [];
    var i := 0;
    assert targets[0..] == targets;
    CarryNone(StampDocuments(doc, namespace, targets));
    while i < |targets|
      invariant i <= |targets|
      invariant Carry(plans, StampDocuments(doc, namespace, targets[i..])) == StampDocuments(doc, namespace, targets)
    {
      assert targets[i..][1..] == targets[i + 1..];
      var plan := StampDocument(doc, namespace, targets[i]);
      if plan.Err? {
        return Err(plan.error);
      }
      CarryOne(plans, plan.value, StampDocuments(doc, namespace, targets[i + 1..]));
      plans := plans + [plan.value];
      i := i + 1;
    }
    assert plans + [] == plans;
    return Ok(plans);
  }

  /** Planning never comes back with nothing to write. */
  lemma StampsExist(doc: Node, dossier: Dossier, request: StampRequest)
    requires PlanStamps(doc, dossier, request).Ok?
    ensures PlanStamps(doc, dossier, request).value != []
  {
    hide StampDocument, StampDossier, RefusesPlacement, Targets, CheckNamespace;
    if request.scope == DocumentScope {
      TargetsExist(dossier, request.documents);
    }
  }

  // ------------------------------------------------------------- what it promises

  lemma {:induction false} FreeIsFree(doc: Node, base: string, attempt: nat)
    requires attempt >= 1
    ensures var r := FreeFrom(doc, base, attempt);
            r.Ok? ==> ById(doc, r.value).None? && exists k: nat :: k >= 1 && r.value == Candidate(base, k)
    decreases MAX_SHARED_IDENTIFIERS + 1 - attempt
  {
    hide ById, Candidate;
    if attempt <= MAX_SHARED_IDENTIFIERS && !ById(doc, Candidate(base, attempt)).None? {
      FreeIsFree(doc, base, attempt + 1);
    }
  }

  lemma StampBasesArePlain()
    ensures IsPlain("ts-doc") && IsPlain("ts-dossier") && IsPlain("-")
  {}

  lemma StampIdPlain(index: Option<nat>, k: nat)
    ensures IsPlain(Candidate(StampBase(index), k)) && Candidate(StampBase(index), k) != ""
  {
    hide IsPlain, Decimal;
    StampBasesArePlain();
    DigitsArePlain(k);
    if index.Some? {
      DigitsArePlain(index.value);
      PlainJoin("ts-doc", Decimal(index.value));
    }
    PlainJoin(StampBase(index), "-");
    PlainJoin(StampBase(index) + "-", Decimal(k));
  }

  /** Timestamps of different documents have different identifiers. */
  lemma StampIdsDiffer(i: nat, k: nat, j: nat, l: nat)
    requires i != j
    ensures Candidate(StampBase(Some(i)), k) != Candidate(StampBase(Some(j)), l)
  {
    hide Decimal;
    var x := CandidateShape(StampBase(Some(i)), k);
    var y := CandidateShape(StampBase(Some(j)), l);
    var s, t := Candidate(StampBase(Some(i)), k), Candidate(StampBase(Some(j)), l);
    assert s[3..] == "doc" + Decimal(i) + x && t[3..] == "doc" + Decimal(j) + y;
    if s == t { OneNumber(i, x, j, y); }
  }

  /** An included element: found by its `Id`, below the container. */
  predicate IncludesKid(doc: Node, container: Path, x: string) {
    ById(doc, x).Some? && container < ById(doc, x).value
  }

  /** A plan over two elements to cover. */
  ghost predicate StampBuilt(doc: Node, namespace: string, plan: StampPlan, a: string, b: string) {
    && Spot(doc, plan.container) && plan.includes == [a, b] && CheckId(a) && CheckId(b)
    && IncludesKid(doc, plan.container, a) && IncludesKid(doc, plan.container, b)
    && ById(doc, plan.id).None? && !HasTimestamp(doc, plan.container, namespace) && !CoversAncestorOrSelf(doc, plan.container)
    && exists k: nat :: plan.id == Candidate(StampBase(plan.documentIndex), k)
  }

  lemma BuiltStamp(doc: Node, namespace: string, documentIndex: Option<nat>, container: Path, a: string, b: string)
    requires Valid(doc, container) && At(doc, container).Element?
    requires IncludesKid(doc, container, a) && IncludesKid(doc, container, b)
    ensures var r := BuildStamp(doc, namespace, documentIndex, container, [a, b]);
            r.Ok? ==> && r.value.documentIndex == documentIndex && r.value.container == container
                      && StampBuilt(doc, namespace, r.value, a, b)
  {
    hide CheckId, HasTimestamp, CoversAncestorOrSelf, ById, FreeFrom, Candidate, StampBase;
    FreeIsFree(doc, StampBase(documentIndex), 1);
    assert a in [a, b] && b in [a, b];
  }

  /** What a document timestamp covers. */
  ghost predicate StampsDocument(doc: Node, namespace: string, d: Document, plan: StampPlan) {
    && plan.container == d.node && plan.documentIndex == Some(d.index)
    && Valid(doc, d.node) && ChildId(doc, d.node, namespace, "DocumentProfile").Some?
    && StampBuilt(doc, namespace, plan, ChildId(doc, d.node, namespace, "DocumentProfile").value, d.objectRef)
  }

  /** What a dossier timestamp covers. */
  ghost predicate StampsDossier(doc: Node, namespace: string, plan: StampPlan) {
    var root := RootElement(doc);
    && plan.container == root && plan.documentIndex == None
    && ChildId(doc, root, namespace, "DossierProfile").Some? && ChildId(doc, root, namespace, "Documents").Some?
    && StampBuilt(doc, namespace, plan, ChildId(doc, root, namespace, "DossierProfile").value,
                  ChildId(doc, root, namespace, "Documents").value)
  }

  lemma DocumentStamped(doc: Node, documents: Path, namespace: string, d: Document)
    requires IdMap(doc).Some? && Modelled(doc, documents, namespace, d) && StampDocument(doc, namespace, d).Ok?
    ensures StampsDocument(doc, namespace, d, StampDocument(doc, namespace, d).value)
  {
    hide IdMap, ChildrenNamed, BuildStamp, StampBuilt, ChildId, ById, Modelled;
    assert Valid(doc, d.node) by { ModelledIsValid(doc, documents, namespace, d); }
    PayloadFound(doc, documents, namespace, d);
    ChildIdFound(doc, d.node, namespace, "DocumentProfile");
    BuiltStamp(doc, namespace, Some(d.index), d.node, ChildId(doc, d.node, namespace, "DocumentProfile").value, d.objectRef);
  }

  lemma DossierStamped(doc: Node, namespace: string)
    requires IdMap(doc).Some? && StampDossier(doc, namespace).Ok? && At(doc, RootElement(doc)).Element?
    ensures StampsDossier(doc, namespace, StampDossier(doc, namespace).value)
  {
    hide IdMap, ChildrenNamed, BuildStamp, StampBuilt, ChildId, ById, RootElement;
    var root := RootElement(doc);
    ChildIdFound(doc, root, namespace, "DossierProfile");
    ChildIdFound(doc, root, namespace, "Documents");
    BuiltStamp(doc, namespace, None, root, ChildId(doc, root, namespace, "DossierProfile").value,
               ChildId(doc, root, namespace, "Documents").value);
  }

  lemma {:induction false} DocumentsStampedAt(doc: Node, namespace: string, targets: seq<Document>)
    requires StampDocuments(doc, namespace, targets).Ok?
    ensures var plans := StampDocuments(doc, namespace, targets).value;
            && |plans| == |targets|
            && forall i :: 0 <= i < |targets| ==> StampDocument(doc, namespace, targets[i]) == Ok(plans[i])
  {
    hide StampDocument;
    if targets != [] {
      DocumentsStampedAt(doc, namespace, targets[1..]);
    }
  }

  /** What the plans of a run are for: the dossier, or documents of it, each once. */
  ghost predicate StampsFor(doc: Node, dossier: Dossier, scope: SignScope, plans: seq<StampPlan>, targets: seq<Document>) {
    if scope == DossierScope then |plans| == 1 && StampsDossier(doc, dossier.namespace, plans[0])
    else
      && |plans| == |targets| && InOrder(targets) && (forall d :: d in targets ==> d in dossier.documents)
      && forall i :: 0 <= i < |plans| ==> StampsDocument(doc, dossier.namespace, targets[i], plans[i])
  }

  lemma StampsPlanned(doc: Node, allowed: seq<string>, maxDocuments: nat, dossier: Dossier, request: StampRequest)
    returns (targets: seq<Document>)
    requires ParseDossier(doc, allowed, maxDocuments) == Ok(dossier) && doc.Root? && "" !in allowed
    requires PlanStamps(doc, dossier, request).Ok?
    ensures StampsFor(doc, dossier, request.scope, PlanStamps(doc, dossier, request).value, targets)
    ensures CheckNamespace(dossier.namespace)
  {
    hide ParseDossier, StampDossier, StampDocuments, StampDocument, RefusesPlacement, Targets, CheckNamespace, IdMap, InOrder,
         StampsDossier, StampsDocument, Modelled, RootElement;
    var profile, documents := AcceptedDossier(doc, allowed, maxDocuments, dossier);
    targets := [];
    if request.scope == DossierScope {
      NamedIsElement(At(doc, RootElement(doc)), dossier.namespace, "Dossier");
      DossierStamped(doc, dossier.namespace);
    } else {
      AcceptedInOrder(doc, allowed, maxDocuments, dossier);
      TargetsExact(dossier, request.documents);
      targets := Targets(dossier, request.scope, request.documents).value;
      DocumentsStampedAt(doc, dossier.namespace, targets);
      forall i | 0 <= i < |targets|
        ensures StampsDocument(doc, dossier.namespace, targets[i], PlanStamps(doc, dossier, request).value[i])
      {
        assert targets[i] in targets;
        var m := MemberAt(dossier.documents, targets[i]);
        DocumentStamped(doc, documents, dossier.namespace, targets[i]);
      }
    }
  }
}
