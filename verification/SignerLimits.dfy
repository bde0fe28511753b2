/**
 What the reader's limits mean for signing, in numbers a caller has: the size of
 the dossier, of its elements and of the signatures that go into it.
 */
module SignerLimits {
  import opened Wrappers
  import opened XmlTree
  import opened SourceText
  import opened Names
  import opened SignatureXml
  import opened SignatureFilling
  import opened Planner
  import opened Growth
  import opened Reader
  import opened TreeScan
  import opened GrownSize
  import opened WrittenScan
  import opened Working
  import opened Placeholders
  import opened Passes
  import opened Run
  import opened RunTheorems
  import opened Signer

  /** Base64 begins no tag. */
  ghost predicate WritesNoTag(b: Backend) {
    && (forall octets :: '<' !in b.digest(octets))
    && (forall i, octets :: b.sign(i, octets).Some? ==> '<' !in b.sign(i, octets).value)
    && (forall i, octets :: b.stamp(i, octets).Some? ==> '<' !in b.stamp(i, octets).value)
  }

  predicate AllTagless(fills: seq<Filling>) {
    forall f :: f in fills ==> TaglessFilling(f)
  }

  // ---------------------------------------------------------- one working document

  lemma {:induction false} SignaturesScan(plans: seq<Plan>, signing: Signing, fills: seq<Filling>)
    requires Matching(plans, fills) && TaglessSigning(signing) && AllTagless(fills)
    ensures ScannableAll(Signatures(plans, signing, fills))
  {
    hide Scannable, TaglessSigning, TaglessFilling, SignatureOf;
    var kids := Signatures(plans, signing, fills);
    forall k | k in kids
      ensures Scannable(k)
    {
      var i :| 0 <= i < |kids| && kids[i] == k;
      assert fills[i] in fills;
      OneSignatureScans(plans[i], signing, fills[i]);
    }
    EachScans(kids);
  }

  lemma OneSignatureScans(plan: Plan, signing: Signing, f: Filling)
    requires |plan.references| == |f.digests| && TaglessSigning(signing) && TaglessFilling(f)
    ensures Scannable(SignatureOf(plan, signing, f))
  {
    hide Scannable, TaglessSigning, TaglessFilling, SignatureNode;
    SignatureScans(plan.id, signing, plan.references, f);
  }

  lemma {:induction false} EachScans(kids: seq<Node>)
    requires forall k :: k in kids ==> Scannable(k)
    ensures ScannableAll(kids)
  {
    hide Scannable;
    if kids != [] {
      assert kids[0] in kids && forall k :: k in kids[1..] ==> k in kids;
      EachScans(kids[1..]);
    }
  }

  /** The dossier with these signatures is within the limits. */
  predicate HasRoom(doc: Node, plans: seq<Plan>, signing: Signing, fills: seq<Filling>, limits: Limits)
    requires AllInsertable(doc, plans) && Matching(plans, fills)
  {
    ContainersAreSpots(doc, plans);
    Within(doc, Containers(plans), Signatures(plans, signing, fills), limits)
  }

  /** A working document is read exactly when the dossier has room for its signatures. */
  lemma WorkingReads(doc: Node, plans: seq<Plan>, signing: Signing, fills: seq<Filling>, limits: Limits)
    requires AllInsertable(doc, plans) && Matching(plans, fills)
    requires Scannable(doc) && TaglessSigning(signing) && AllTagless(fills)
    ensures Reads(WorkingDocument(doc, plans, signing, fills), limits) <==> HasRoom(doc, plans, signing, fills, limits)
  {
    hide Grown, Reads, Within, Scannable, ScannableAll, SignatureOf, TaglessSigning, TaglessFilling;
    ContainersAreSpots(doc, plans);
    SignaturesScan(plans, signing, fills);
    GrownReads(doc, Containers(plans), Signatures(plans, signing, fills), limits);
  }

  // -------------------------------------------------------------- the fillings

  lemma PlainHasNoTag(s: string)
    requires IsPlain(s)
    ensures '<' !in s
  {}

  lemma HoleHasNoTag(kind: string, id: string)
    requires '<' !in kind && IsPlain(id)
    ensures '<' !in Hole(MARK + kind + id)
  {
    PlainHasNoTag(id);
    assert forall c :: c in Hole(MARK + kind + id) ==> c in "@@" || c in MARK || c in kind || c in id;
  }

  lemma {:induction false} DigestHolesTagless(refs: seq<PlannedReference>)
    requires TidyReferences(refs)
    ensures forall d :: d in DigestHoles(refs) ==> '<' !in d
  {
    hide IsPlain, Hole;
    if refs != [] {
      assert refs[0] in refs && TidyReference(refs[0]) && forall r :: r in refs[1..] ==> r in refs;
      HoleHasNoTag("digest:", refs[0].id);
      DigestHolesTagless(refs[1..]);
    }
  }

  lemma SkeletonIsTagless(plan: Plan)
    requires TidyPlan(plan)
    ensures TaglessFilling(Unfilled(plan.id, plan.references))
  {
    hide IsPlain, Hole, DistinctIds, TidyReferences;
    DigestHolesTagless(plan.references);
    HoleHasNoTag("value:", plan.id);
    HoleHasNoTag("timestamp:", plan.id);
  }

  lemma SkeletonsAreTagless(plans: seq<Plan>)
    requires AllTidy(plans)
    ensures AllTagless(Skeletons(plans))
  {
    hide TidyPlan, TaglessFilling, Unfilled;
    forall f | f in Skeletons(plans)
      ensures TaglessFilling(f)
    {
      var i :| 0 <= i < |plans| && Skeletons(plans)[i] == f;
      assert plans[i] in plans;
      SkeletonIsTagless(plans[i]);
    }
  }

  lemma {:induction false} DigestsTagless(doc: Node, refs: seq<PlannedReference>, b: Backend)
    requires WritesNoTag(b) && DigestsOf(doc, refs, b).Ok?
    ensures forall d :: d in DigestsOf(doc, refs, b).value ==> '<' !in d
  {
    hide Canonical, FoundById;
    if refs != [] { DigestsTagless(doc, refs[1..], b); }
  }

  lemma DigestedTagless(doc: Node, plans: seq<Plan>, signing: Signing, b: Backend)
    requires AllInsertable(doc, plans) && AllTidy(plans) && WritesNoTag(b) && Digested(doc, plans, signing, b).Ok?
    ensures AllTagless(Digested(doc, plans, signing, b).value)
  {
    hide WorkingDocument, DigestsOf, Unfilled, TidyPlan, WritesNoTag;
    var w, skeletons := WorkingDocument(doc, plans, signing, Skeletons(plans)), Skeletons(plans);
    SkeletonsAreTagless(plans);
    DigestEachAt(w, plans, skeletons, b);
    var digested := Digested(doc, plans, signing, b).value;
    forall f | f in digested
      ensures TaglessFilling(f)
    {
      var i :| 0 <= i < |digested| && digested[i] == f;
      assert skeletons[i] in skeletons;
      DigestsTagless(w, plans[i].references, b);
    }
  }

  lemma SignedTagless(doc: Node, plans: seq<Plan>, signing: Signing, fills: seq<Filling>, b: Backend)
    requires AllInsertable(doc, plans) && Matching(plans, fills) && WritesNoTag(b) && AllTagless(fills)
    requires Signed(doc, plans, signing, fills, b).Ok?
    ensures AllTagless(Signed(doc, plans, signing, fills, b).value)
  {
    hide WorkingDocument, SignatureChild, Canonical;
    SignEachAt(WorkingDocument(doc, plans, signing, fills), plans, fills, b, 0);
    var signed := Signed(doc, plans, signing, fills, b).value;
    forall f | f in signed
      ensures TaglessFilling(f)
    {
      var i :| 0 <= i < |signed| && signed[i] == f;
      assert fills[i] in fills;
    }
  }

  // -------------------------------------------------------------- the whole run

  /** The dossier has room for its signatures before each pass. */
  predicate PassesHaveRoom(doc: Node, plans: seq<Plan>, signing: Signing, b: Backend)
    requires AllInsertable(doc, plans)
  {
    && HasRoom(doc, plans, signing, Skeletons(plans), DEFAULT_LIMITS)
    && var digested := Digested(doc, plans, signing, b);
       digested.Ok? ==>
         && HasRoom(doc, plans, signing, digested.value, DEFAULT_LIMITS)
         && var signed := Signed(doc, plans, signing, digested.value, b);
            signed.Ok? && signing.timestamped ==> HasRoom(doc, plans, signing, signed.value, DEFAULT_LIMITS)
  }

  lemma PassesReadExactly(doc: Node, plans: seq<Plan>, signing: Signing, b: Backend)
    requires AllInsertable(doc, plans) && AllTidy(plans) && TaglessSigning(signing) && WritesNoTag(b) && Scannable(doc)
    ensures PassesRead(doc, plans, signing, b) <==> PassesHaveRoom(doc, plans, signing, b)
  {
    hide WorkingDocument, Reads, HasRoom, Digested, Signed, Scannable, AllTidy, WritesNoTag, AllTagless, TaglessSigning;
    SkeletonsAreTagless(plans);
    WorkingReads(doc, plans, signing, Skeletons(plans), DEFAULT_LIMITS);
    var digested := Digested(doc, plans, signing, b);
    if digested.Ok? {
      DigestedTagless(doc, plans, signing, b);
      WorkingReads(doc, plans, signing, digested.value, DEFAULT_LIMITS);
      var signed := Signed(doc, plans, signing, digested.value, b);
      if signed.Ok? {
        SignedTagless(doc, plans, signing, digested.value, b);
        WorkingReads(doc, plans, signing, signed.value, DEFAULT_LIMITS);
      }
    }
  }

  /** A document within the limits. */
  predicate Fitting(doc: Node, limits: Limits) {
    && |Source(doc)| <= limits.maxInput && ElementCount(doc) <= limits.maxElements && ElementDepth(doc) <= limits.maxDepth
    && NodeCount(doc) <= MaxNodes(limits)
  }

  lemma DocumentReads(doc: Node, limits: Limits)
    requires Scannable(doc)
    ensures Reads(doc, limits) <==> Fitting(doc, limits)
  {
    hide Source, NodeCount, ElementCount, ElementDepth, Scannable, Scans;
    DocumentScans(doc, limits);
  }

  lemma SigningIsTagless(request: SignRequest, namespace: string)
    requires TidyRequest(request)
    ensures TaglessSigning(SigningFor(request, namespace))
  {
    hide HoleFree, EscapeTextValue;
    forall c | c in request.certificateValues
      ensures '<' !in c
    {
      PlainHasNoTag(c);
    }
  }

  /** After planning, signing succeeds exactly when the dossier is within the limits, has room for its signatures
      before each pass, and the signer and the timestamp authority answer. */
  lemma SucceedsExactly(doc: Node, allowed: seq<string>, maxDocuments: nat, limits: Limits, request: SignRequest, b: Backend)
    requires doc.Root? && "" !in allowed && PlansFor(doc, allowed, maxDocuments, request).Ok?
    requires Scannable(doc) && TidyRequest(request) && WritesNoTag(b)
    ensures var (namespace, plans) := PlansFor(doc, allowed, maxDocuments, request).value;
            var signing := SigningFor(request, namespace);
            && AllInsertable(doc, plans)
            && (SignTree(doc, allowed, maxDocuments, limits, request, b).Ok? <==>
                  && Fitting(doc, limits) && Fitting(doc, DEFAULT_LIMITS) && PassesHaveRoom(doc, plans, signing, b)
                  && Answers(doc, plans, signing, b))
  {
    hide PlansFor, SignTree, PassesRead, PassesHaveRoom, Answers, AllTidy, CheckNamespace, Reads, Fitting, Scannable, WritesNoTag, TidyRequest,
         TaglessSigning, Runnable;
    PlansAreGood(doc, allowed, maxDocuments, request);
    var (namespace, plans) := PlansFor(doc, allowed, maxDocuments, request).value;
    RunnableInserts(doc, plans);
    FailsOnlyOutside(doc, allowed, maxDocuments, limits, request, b);
    DocumentReads(doc, limits);
    DocumentReads(doc, DEFAULT_LIMITS);
    SigningIsTagless(request, namespace);
    PassesReadExactly(doc, plans, SigningFor(request, namespace), b);
  }

  /** A dossier that is accepted and planned for but has no room left for the skeletons: the run fails, whatever the
      signer and the authority would answer. */
  lemma NoRoomForSignatures(doc: Node, allowed: seq<string>, maxDocuments: nat, limits: Limits, request: SignRequest, b: Backend)
    requires doc.Root? && "" !in allowed && PlansFor(doc, allowed, maxDocuments, request).Ok? && Scannable(doc) && TidyRequest(request)
    requires var (namespace, plans) := PlansFor(doc, allowed, maxDocuments, request).value;
             AllInsertable(doc, plans) ==> !HasRoom(doc, plans, SigningFor(request, namespace), Skeletons(plans), DEFAULT_LIMITS)
    ensures SignTree(doc, allowed, maxDocuments, limits, request, b) == Err(SignFailed)
  {
    hide PlansFor, WorkingDocument, RunPasses, AllTidy, CheckNamespace, Reads, Digested, Signed, HasRoom, Scannable, Runnable, TidyRequest,
         TaglessSigning;
    PlansAreGood(doc, allowed, maxDocuments, request);
    var (namespace, plans) := PlansFor(doc, allowed, maxDocuments, request).value;
    RunnableInserts(doc, plans);
    SigningIsTagless(request, namespace);
    SkeletonsAreTagless(plans);
    WorkingReads(doc, plans, SigningFor(request, namespace), Skeletons(plans), DEFAULT_LIMITS);
  }
}
