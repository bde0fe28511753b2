/**
 A whole timestamping run: all elements are put in first, and each token is
 requested over what its element then includes.

 `RunStamps` says what the run computes on trees. `Timestamp` does it on the
 text, as the writer does, and is proved to return the text of that tree.
 */
module StampRun {
  import opened Wrappers
  import opened XmlTree
  import opened Ids
  import opened Dossier
  import opened SourceText
  import opened Splicing
  import opened Growth
  import opened Names
  import opened SignatureXml
  import opened Planner
  import opened Reader
  import opened Run
  import opened Signer
  import opened StampXml
  import opened StampPlanner

  /** The timestamp authority: a token in Base64 over the octets; the number is the plan's. */
  type Authority = (nat, string) -> Option<string>

  function StampPlaces(plans: seq<StampPlan>): (r: seq<Path>)
    ensures |r| == |plans| && forall i :: 0 <= i < |plans| ==> r[i] == plans[i].container
  {
    seq(|plans|, i requires 0 <= i < |plans| => plans[i].container)
  }

  function Stamps(plans: seq<StampPlan>, stamping: Stamping, tokens: seq<string>): (r: seq<Node>)
    requires |tokens| == |plans|
    ensures |r| == |plans| && forall i :: 0 <= i < |plans| ==> r[i] == StampNode(plans[i], stamping, tokens[i])
  {
    seq(|plans|, i requires 0 <= i < |plans| => StampNode(plans[i], stamping, tokens[i]))
  }

  function StampHoles(plans: seq<StampPlan>): (r: seq<string>)
    ensures |r| == |plans| && forall i :: 0 <= i < |plans| ==> r[i] == StampHole(plans[i].id)
  {
    seq(|plans|, i requires 0 <= i < |plans| => StampHole(plans[i].id))
  }

  /** The document with every timestamp in place. */
  function StampedDocument(doc: Node, plans: seq<StampPlan>, stamping: Stamping, tokens: seq<string>): Node
    requires Spots(doc, StampPlaces(plans)) && |tokens| == |plans|
  {
    Grown(doc, StampPlaces(plans), Stamps(plans, stamping, tokens))
  }

  // ------------------------------------------------------------------- the run

  /** The octets a token is requested over: each included element on its own, in order. */
  function Imprint(doc: Node, includes: seq<string>): Result<string, SignError> {
    if includes == [] then Ok("")
    else
      match FoundById(doc, includes[0])
      case None => Err(SignFailed)
      case Some(t) =>
        match Imprint(doc, includes[1..])
        case Err(e) => Err(e)
        case Ok(rest) => Ok(Canonical(doc, t) + rest)
  }

  /** The imprints of all plans; every element being written has to be found as well. */
  function Imprints(doc: Node, plans: seq<StampPlan>): (r: Result<seq<string>, SignError>)
    ensures r.Ok? ==> |r.value| == |plans|
  {
    if plans == [] then Ok([])
    else
      var first := Imprint(doc, plans[0].includes);
      if first.Err? then Err(first.error)
      else if FoundById(doc, plans[0].id).None? then Err(SignFailed)
      else
        var rest := Imprints(doc, plans[1..]);
        if rest.Err? then rest else Ok([first.value] + rest.value)
  }

  function RequestTokens(imprints: seq<string>, authority: Authority, k: nat): (r: Result<seq<string>, SignError>)
    ensures r.Ok? ==> |r.value| == |imprints|
  {
    if imprints == [] then Ok([])
    else
      var token := authority(k, imprints[0]);
      if token.None? then Err(TsaFailed)
      else
        var rest := RequestTokens(imprints[1..], authority, k + 1);
        if rest.Err? then rest else Ok([token.value] + rest.value)
  }

  /** The tokens of a run. */
  function RunStamps(doc: Node, plans: seq<StampPlan>, stamping: Stamping, authority: Authority): (r: Result<seq<string>, SignError>)
    requires Spots(doc, StampPlaces(plans))
    ensures r.Ok? ==> |r.value| == |plans|
  {
    var imprints := Imprints(StampedDocument(doc, plans, stamping, StampHoles(plans)), plans);
    if imprints.Err? then Err(imprints.error) else RequestTokens(imprints.value, authority, 0)
  }

  lemma {:induction false} ImprintsAt(doc: Node, plans: seq<StampPlan>)
    requires Imprints(doc, plans).Ok?
    ensures forall i :: 0 <= i < |plans| ==> Imprint(doc, plans[i].includes) == Ok(Imprints(doc, plans).value[i])
  {
    hide Imprint, FoundById;
    if plans != [] {
      ImprintsAt(doc, plans[1..]);
      forall i | 0 <= i < |plans|
        ensures Imprint(doc, plans[i].includes) == Ok(Imprints(doc, plans).value[i])
      {
        if i > 0 { assert plans[i] == plans[1..][i - 1]; }
      }
    }
  }

  lemma {:induction false} TokensAt(imprints: seq<string>, authority: Authority, k: nat)
    requires RequestTokens(imprints, authority, k).Ok?
    ensures forall i :: 0 <= i < |imprints| ==> authority(k + i, imprints[i]) == Some(RequestTokens(imprints, authority, k).value[i])
  {
    if imprints != [] {
      TokensAt(imprints[1..], authority, k + 1);
      forall i | 0 <= i < |imprints|
        ensures authority(k + i, imprints[i]) == Some(RequestTokens(imprints, authority, k).value[i])
      {
        if i > 0 { assert imprints[i] == imprints[1..][i - 1] && k + i == (k + 1) + (i - 1); }
      }
    }
  }

  // --------------------------------------------------------- what plans promise

  predicate AllTidyStamps(plans: seq<StampPlan>) {
    forall p :: p in plans ==> TidyStamp(p)
  }

  /** The new identifiers: pairwise different, and none found in the original. */
  predicate FreshStamps(doc: Node, plans: seq<StampPlan>) {
    && (forall p :: p in plans ==> p.id != "" && ById(doc, p.id).None?)
    && (forall i, j :: 0 <= i < j < |plans| ==> plans[i].id != plans[j].id)
  }

  lemma BuiltIsTidyStamp(doc: Node, namespace: string, plan: StampPlan, a: string, b: string)
    requires StampBuilt(doc, namespace, plan, a, b)
    ensures TidyStamp(plan) && plan.id != "" && ById(doc, plan.id).None? && Spot(doc, plan.container)
  {
    hide CheckId, IncludesKid, HasTimestamp, CoversAncestorOrSelf, Candidate, StampBase, IsPlain;
    var k: nat :| plan.id == Candidate(StampBase(plan.documentIndex), k);
    StampIdPlain(plan.documentIndex, k);
    CheckedIsPlain(a);
    CheckedIsPlain(b);
  }

  lemma CheckedIsPlain(x: string)
    requires CheckId(x)
    ensures IsPlain(x)
  {
    NcNamesArePlain(x);
  }

  lemma DifferentStamps(doc: Node, namespace: string, c: Document, p: StampPlan, d: Document, q: StampPlan)
    requires StampsDocument(doc, namespace, c, p) && StampsDocument(doc, namespace, d, q) && c.index != d.index
    ensures p.id != q.id
  {
    hide CheckId, IncludesKid, HasTimestamp, CoversAncestorOrSelf, Candidate, StampBase, ChildId, ById;
    var k: nat :| p.id == Candidate(StampBase(p.documentIndex), k);
    var l: nat :| q.id == Candidate(StampBase(q.documentIndex), l);
    StampIdsDiffer(c.index, k, d.index, l);
  }

  lemma DocumentStampTidy(doc: Node, namespace: string, d: Document, plan: StampPlan)
    requires StampsDocument(doc, namespace, d, plan)
    ensures TidyStamp(plan) && plan.id != "" && ById(doc, plan.id).None? && Spot(doc, plan.container) && plan.container == d.node
  {
    hide StampBuilt, ChildId;
    BuiltIsTidyStamp(doc, namespace, plan, ChildId(doc, d.node, namespace, "DocumentProfile").value, d.objectRef);
  }

  lemma DossierStampTidy(doc: Node, namespace: string, plan: StampPlan)
    requires StampsDossier(doc, namespace, plan)
    ensures TidyStamp(plan) && plan.id != "" && ById(doc, plan.id).None? && Spot(doc, plan.container)
  {
    hide StampBuilt, ChildId, RootElement;
    var root := RootElement(doc);
    BuiltIsTidyStamp(doc, namespace, plan, ChildId(doc, root, namespace, "DossierProfile").value,
                     ChildId(doc, root, namespace, "Documents").value);
  }

  /** The pass can run on what planning yields. */
  predicate GoodStamps(doc: Node, plans: seq<StampPlan>) {
    Spots(doc, StampPlaces(plans)) && AllTidyStamps(plans) && FreshStamps(doc, plans)
  }

  lemma ManyGood(doc: Node, plans: seq<StampPlan>)
    requires forall i :: 0 <= i < |plans| ==>
               TidyStamp(plans[i]) && plans[i].id != "" && ById(doc, plans[i].id).None? && Spot(doc, plans[i].container)
    requires forall i, j :: 0 <= i < j < |plans| ==> Disjoint(plans[i].container, plans[j].container) && plans[i].id != plans[j].id
    ensures GoodStamps(doc, plans)
  {
    hide TidyStamp, ById, Spot, Disjoint;
    forall q | q in StampPlaces(plans)
      ensures Spot(doc, q)
    {
      var i :| 0 <= i < |plans| && StampPlaces(plans)[i] == q;
    }
  }

  lemma StampsAreGood(doc: Node, allowed: seq<string>, maxDocuments: nat, dossier: Dossier, scope: SignScope,
                      plans: seq<StampPlan>, targets: seq<Document>)
    requires ParseDossier(doc, allowed, maxDocuments) == Ok(dossier) && doc.Root? && "" !in allowed
    requires StampsFor(doc, dossier, scope, plans, targets)
    ensures GoodStamps(doc, plans)
  {
    hide ParseDossier, StampsDocument, StampsDossier, TidyStamp, ById, Spot, GoodStamps, Disjoint;
    if scope == DossierScope {
      DossierStampTidy(doc, dossier.namespace, plans[0]);
    } else {
      forall i | 0 <= i < |plans|
        ensures TidyStamp(plans[i]) && plans[i].id != "" && ById(doc, plans[i].id).None? && Spot(doc, plans[i].container)
        ensures plans[i].container == targets[i].node
      {
        DocumentStampTidy(doc, dossier.namespace, targets[i], plans[i]);
      }
      forall i, j | 0 <= i < j < |plans|
        ensures Disjoint(plans[i].container, plans[j].container) && plans[i].id != plans[j].id
      {
        assert targets[i] in targets && targets[j] in targets;
        var m, n := IndexIn(dossier.documents, targets[i]), IndexIn(dossier.documents, targets[j]);
        DocumentsApart(doc, allowed, maxDocuments, dossier, m, n);
        DifferentStamps(doc, dossier.namespace, targets[i], plans[i], targets[j], plans[j]);
      }
    }
    ManyGood(doc, plans);
  }

  ghost function IndexIn(ds: seq<Document>, d: Document): (i: nat)
    requires d in ds
    ensures i < |ds| && ds[i] == d
  {
    var i :| 0 <= i < |ds| && ds[i] == d;
    i
  }

  // ------------------------------------------------------------ from end to end

  function StampingOf(request: StampRequest, namespace: string): Stamping {
    Stamping(namespace, request.certificateValues)
  }

  /** The plans of a run over the dossier in `doc`, with the dossier's namespace. */
  function StampPlansFor(doc: Node, allowed: seq<string>, maxDocuments: nat, request: StampRequest)
    : Result<(string, seq<StampPlan>), SignError>
  {
    match ParseDossier(doc, allowed, maxDocuments)
    case Err(_) => Err(SignFailed)
    case Ok(dossier) =>
      match PlanStamps(doc, dossier, request)
      case Err(e) => Err(e)
      case Ok(plans) => Ok((dossier.namespace, plans))
  }

  lemma PlannedAreGood(doc: Node, allowed: seq<string>, maxDocuments: nat, request: StampRequest)
    requires doc.Root? && "" !in allowed && StampPlansFor(doc, allowed, maxDocuments, request).Ok?
    ensures var (namespace, plans) := StampPlansFor(doc, allowed, maxDocuments, request).value;
            GoodStamps(doc, plans) && CheckNamespace(namespace) && namespace in allowed
  {
    hide ParseDossier, PlanStamps, GoodStamps, CheckNamespace, StampsFor;
    var dossier := ParseDossier(doc, allowed, maxDocuments).value;
    var profile, documents := AcceptedDossier(doc, allowed, maxDocuments, dossier);
    var targets := StampsPlanned(doc, allowed, maxDocuments, dossier, request);
    StampsAreGood(doc, allowed, maxDocuments, dossier, request.scope, PlanStamps(doc, dossier, request).value, targets);
  }

  /** The tokens of a run over the dossier in `doc`. */
  function TokensFor(doc: Node, allowed: seq<string>, maxDocuments: nat, request: StampRequest, authority: Authority)
    : (r: Result<seq<string>, SignError>)
    requires doc.Root? && "" !in allowed
    ensures r.Ok? ==> var planned := StampPlansFor(doc, allowed, maxDocuments, request);
                      planned.Ok? && Spots(doc, StampPlaces(planned.value.1)) && |r.value| == |planned.value.1|
  {
    match StampPlansFor(doc, allowed, maxDocuments, request)
    case Err(e) => Err(e)
    case Ok((namespace, plans)) =>
      PlannedAreGood(doc, allowed, maxDocuments, request);
      RunStamps(doc, plans, StampingOf(request, namespace), authority)
  }

  /** Every text the run reads is within the limits: the dossier, under the caller's limits and once more under the
      default ones, and then the dossier with the elements in it. */
  predicate StampsRead(doc: Node, allowed: seq<string>, maxDocuments: nat, limits: Limits, request: StampRequest)
    requires doc.Root? && "" !in allowed
  {
    && Reads(doc, limits) && Reads(doc, DEFAULT_LIMITS)
    && match StampPlansFor(doc, allowed, maxDocuments, request)
       case Err(_) => true
       case Ok((namespace, plans)) =>
         PlannedAreGood(doc, allowed, maxDocuments, request);
         Reads(StampedDocument(doc, plans, StampingOf(request, namespace), StampHoles(plans)), DEFAULT_LIMITS)
  }

  /** The timestamped document as a tree. */
  function TimestampTree(doc: Node, allowed: seq<string>, maxDocuments: nat, limits: Limits, request: StampRequest,
                         authority: Authority): Result<Node, SignError>
    requires doc.Root? && "" !in allowed
  {
    if !StampsRead(doc, allowed, maxDocuments, limits, request) then Err(SignFailed)
    else
      match TokensFor(doc, allowed, maxDocuments, request, authority)
      case Err(e) => Err(e)
      case Ok(tokens) =>
        var (namespace, plans) := StampPlansFor(doc, allowed, maxDocuments, request).value;
        Ok(StampedDocument(doc, plans, StampingOf(request, namespace), tokens))
  }

  function TokenValues(plans: seq<StampPlan>, tokens: seq<string>): (r: seq<seq<Substitution>>)
    requires |tokens| == |plans|
    ensures |r| == |plans| && forall i :: 0 <= i < |plans| ==> r[i] == [Substitution(StampHole(plans[i].id), tokens[i])]
  {
    seq(|plans|, i requires 0 <= i < |plans| => [Substitution(StampHole(plans[i].id), tokens[i])])
  }

  lemma StampsLead(plans: seq<StampPlan>, stamping: Stamping, tokens: seq<string>)
    requires AllTidyStamps(plans) && TidyStamping(stamping) && |tokens| == |plans|
    ensures AllLead(Stamps(plans, stamping, StampHoles(plans)), TokenValues(plans, tokens), Stamps(plans, stamping, tokens))
  {
    hide StampNode, LeadsTo, TidyStamp, TidyStamping, StampHole;
    forall i | 0 <= i < |plans|
      ensures LeadsTo(StampNode(plans[i], stamping, StampHole(plans[i].id)), [Substitution(StampHole(plans[i].id), tokens[i])],
                      StampNode(plans[i], stamping, tokens[i]))
    {
      assert plans[i] in plans;
      StampLeads(plans[i], stamping, tokens[i]);
    }
  }

  lemma SpotsAreClosed(doc: Node, qs: seq<Path>)
    requires WellClosed(doc) && Spots(doc, qs)
    ensures EndTagged(doc, qs)
  {}

  lemma CarryText(done: string, next: string, rest: Result<string, SignError>)
    ensures Carry(done, if rest.Err? then rest else Ok(next + rest.value)) == Carry(done + next, rest)
  {
    if rest.Ok? { assert done + (next + rest.value) == done + next + rest.value; }
  }

  method ImprintOf(doc: Node, includes: seq<string>) returns (r: Result<string, SignError>)
    ensures r == Imprint(doc, includes)
  {
    hide FoundById, Canonical;
    var octets := "";
    var i := 0;
    assert includes[0..] == includes;
    CarryNone(Imprint(doc, includes));
    while i < |includes|
      invariant i <= |includes| && Carry(octets, Imprint(doc, includes[i..])) == Imprint(doc, includes)
    {
      assert includes[i..][1..] == includes[i + 1..];
      var t := FoundById(doc, includes[i]);
      if t.None? {
        return Err(SignFailed);
      }
      assert IsElement(doc, t.value);
      CarryText(octets, Canonical(doc, t.value), Imprint(doc, includes[i + 1..]));
      octets := octets + Canonical(doc, t.value);
      i := i + 1;
    }
    assert octets + "" == octets;
    return Ok(octets);
  }

  /** The loop that prepares every imprint before any token is requested. */
  method CollectImprints(doc: Node, plans: seq<StampPlan>) returns (r: Result<seq<string>, SignError>)
    ensures r == Imprints(doc, plans)
  {
    hide FoundById, Imprint;
    var imprints: seq<string> := [];
    var i := 0;
    assert plans[0..] == plans;
    CarryNone(Imprints(doc, plans));
    while i < |plans|
      invariant i <= |plans| && Carry(imprints, Imprints(doc, plans[i..])) == Imprints(doc, plans)
    {
      assert plans[i..][1..] == plans[i + 1..];
      var imprint := ImprintOf(doc, plans[i].includes);
      if imprint.Err? {
        return Err(imprint.error);
      }
      if FoundById(doc, plans[i].id).None? {
        return Err(SignFailed);
      }
      CarryOne(imprints, imprint.value, Imprints(doc, plans[i + 1..]));
      imprints := imprints + [imprint.value];
      i := i + 1;
    }
    assert imprints + [] == imprints;
    return Ok(imprints);
  }

  /** The loop that requests the tokens. */
  method RequestEach(imprints: seq<string>, authority: Authority) returns (r: Result<seq<string>, SignError>)
    ensures r == RequestTokens(imprints, authority, 0)
  {
    var tokens: seq<string> := [];
    var i := 0;
    assert imprints[0..] == imprints;
    CarryNone(RequestTokens(imprints, authority, 0));
    while i < |imprints|
      invariant i <= |imprints| && Carry(tokens, RequestTokens(imprints[i..], authority, i)) == RequestTokens(imprints, authority, 0)
    {
      assert imprints[i..][1..] == imprints[i + 1..];
      var token := authority(i, imprints[i]);
      if token.None? {
        return Err(TsaFailed);
      }
      CarryOne(tokens, token.value, RequestTokens(imprints[i + 1..], authority, i + 1));
      tokens := tokens + [token.value];
      i := i + 1;
    }
    assert tokens + [] == tokens;
    return Ok(tokens);
  }

  /** The second pass on the text. */
  method FillTokens(text: string, doc: Node, plans: seq<StampPlan>, stamping: Stamping, authority: Authority)
    returns (r: Result<string, SignError>)
    requires GoodStamps(doc, plans) && TidyStamping(stamping)
    requires text == Source(StampedDocument(doc, plans, stamping, StampHoles(plans)))
    ensures r == if !Reads(StampedDocument(doc, plans, stamping, StampHoles(plans)), DEFAULT_LIMITS) then Err(SignFailed)
                 else match RunStamps(doc, plans, stamping, authority)
                      case Err(e) => Err(e)
                      case Ok(tokens) => Ok(Source(StampedDocument(doc, plans, stamping, tokens)))
  {
    hide Grown, Source, Imprints, RequestTokens, Stamps, AllLead, Spots, AllTidyStamps, FreshStamps, Reads, TidyStamping;
    var places, skeletons := StampPlaces(plans), Stamps(plans, stamping, StampHoles(plans));
    var read := Read(text, Grown(doc, places, skeletons), DEFAULT_LIMITS);
    if !read {
      return Err(SignFailed);
    }
    var imprints := CollectImprints(Grown(doc, places, skeletons), plans);
    if imprints.Err? {
      return Err(imprints.error);
    }
    var tokens := RequestEach(imprints.value, authority);
    if tokens.Err? {
      return Err(tokens.error);
    }
    StampsLead(plans, stamping, tokens.value);
    var filled := FillKids(text, doc, places, skeletons, TokenValues(plans, tokens.value), Stamps(plans, stamping, tokens.value));
    return Ok(filled);
  }

  /** Timestamp the dossier `doc`: the result is the text of the timestamped tree. */
  method Timestamp(doc: Node, allowed: seq<string>, maxDocuments: nat, limits: Limits, request: StampRequest, authority: Authority)
    returns (r: Result<string, SignError>)
    requires doc.Root? && "" !in allowed && WellClosed(doc) && (forall n :: n in allowed ==> HoleFree(n))
    requires forall c :: c in request.certificateValues ==> IsPlain(c)
    ensures var stamped := TimestampTree(doc, allowed, maxDocuments, limits, request, authority);
            r == if stamped.Err? then Err(stamped.error) else Ok(Source(stamped.value))
  {
    hide ParseDossier, PlanStamps, Grown, Source, CheckNamespace, HoleFree, IsPlain, WellClosed, RunStamps, Stamps, Spots, AllTidyStamps,
         FreshStamps, Reads;
    var read := Read(Source(doc), doc, limits);
    if !read {
      return Err(SignFailed);
    }
    var dossier := ParseDossier(doc, allowed, maxDocuments);
    if dossier.Err? {
      return Err(SignFailed);
    }
    read := Read(Source(doc), doc, DEFAULT_LIMITS);
    if !read {
      return Err(SignFailed);
    }
    var plans := PlanStamps(doc, dossier.value, request);
    if plans.Err? {
      return Err(plans.error);
    }
    PlannedAreGood(doc, allowed, maxDocuments, request);
    var stamping := StampingOf(request, dossier.value.namespace);
    SpotsAreClosed(doc, StampPlaces(plans.value));
    var text := WriteKids(doc, StampPlaces(plans.value), Stamps(plans.value, stamping, StampHoles(plans.value)));
    r := FillTokens(text, doc, plans.value, stamping, authority);
  }
}
