/**
 Which modelled documents the signatures cover, and the dossier verdict.

 What the per-signature stages found enters as arbitrary check lists. `ValidMeans`
 says what a valid dossier verdict claims.
 */
module Coverage {
  import opened Wrappers
  import opened XmlTree
  import opened Ids
  import opened Dossier
  import opened References
  import opened Scope
  import opened Verdict

  // ------------------------------------------------------------ one signature

  /** `undetermined` when there is nothing to go by. */
  datatype SignatureCoverage = SignatureCoverage(scopes: seq<ReferenceScope>, scopeComplete: bool, undetermined: bool)

  predicate Clouds(c: Check) {
    || (c.status == Failed
        && (c.code == SigStructureInvalid || c.code == SigPlacementInvalid || c.code == ReferenceExternal
            || c.code == ReferenceUnresolved || c.code == TransformNotAllowed || c.code == C14nUnsupported))
    || (c.status == Unknown && c.code == ReferenceScopeUnknown)
  }

  predicate ScopeIsComplete(checks: seq<Check>) {
    exists c :: c in checks && c.code == ReferenceScopeComplete
  }

  function CoverageOf(c: Context, signature: Path, checks: seq<Check>, limit: nat): SignatureCoverage
    requires Valid(c.doc, signature)
  {
    SignatureCoverage(
      (match IdMap(c.doc)
       case Some(ids) => ScopesOf(c.doc, ids, signature, limit)
       case None => []),
      ScopeIsComplete(checks), exists k :: k in checks && Clouds(k))
  }

  /** One examined signature. */
  datatype SignatureReport = SignatureReport(placement: SignatureScope, checks: seq<Check>, verdict: Verdict)

  /** What coverage needs of a signature; one that was never examined has no index. */
  datatype Source = Source(index: Option<nat>, node: Path, scope: SignatureScope, verdict: Verdict, coverage: SignatureCoverage)

  const UNEXAMINED: SignatureCoverage := SignatureCoverage([], false, true)

  function SourceAt(c: Context, reports: seq<SignatureReport>, limit: nat, i: nat): Source
    requires i < |c.signatures| && Valid(c.doc, c.signatures[i])
  {
    var node := c.signatures[i];
    if i < |reports| then Source(Some(i), node, reports[i].placement, reports[i].verdict, CoverageOf(c, node, reports[i].checks, limit))
    else Source(None, node, UnknownPlacement, Indeterminate, UNEXAMINED)
  }

  function Sources(c: Context, reports: seq<SignatureReport>, limit: nat): (r: seq<Source>)
    requires AllValidPaths(c.doc, c.signatures)
    ensures |r| == |c.signatures|
    ensures forall i :: 0 <= i < |r| ==> Valid(c.doc, c.signatures[i]) && r[i] == SourceAt(c, reports, limit, i)
  {
    assert forall i :: 0 <= i < |c.signatures| ==> c.signatures[i] in c.signatures;
    seq(|c.signatures|, i requires 0 <= i < |c.signatures| => SourceAt(c, reports, limit, i))
  }

  // ------------------------------------------------------------- one document

  datatype CoverageVia = Direct | Frame

  datatype CoveringSignature = CoveringSignature(index: nat, via: CoverageVia, verdict: Verdict)

  datatype CoverageState = Covered | CoveredUnverified | Uncovered | Undetermined | NotModelled

  datatype DocumentCoverage = DocumentCoverage(index: Option<nat>, state: CoverageState, coveredBy: seq<CoveringSignature>)

  /** How a signature covers a document, if it does. */
  function ViaOf(c: Context, s: Source, node: Path, profile: Path, payload: Option<Path>): Option<CoverageVia> {
    match s.scope
    case InDocument =>
      if s.node != [] && Parent(s.node) == node && CoveredBySome(s.coverage.scopes, profile)
         && payload.Some? && CoveredBySome(s.coverage.scopes, payload.value)
      then Some(Direct) else None
    case InDossier => if CoveredBySome(s.coverage.scopes, node) then Some(Frame) else None
    case Countersignature => None
    case UnknownPlacement => None
  }

  function Covering(c: Context, sources: seq<Source>, node: Path, profile: Path, payload: Option<Path>): seq<CoveringSignature> {
    if sources == [] then []
    else
      var s := sources[0];
      (if s.coverage.undetermined || !s.coverage.scopeComplete || s.index.None? then []
       else
         match ViaOf(c, s, node, profile, payload)
         case Some(via) => [CoveringSignature(s.index.value, via, s.verdict)]
         case None => [])
      + Covering(c, sources[1..], node, profile, payload)
  }

  function Best(covering: seq<CoveringSignature>): Option<Verdict> {
    if covering == [] then None
    else
      match Best(covering[1..])
      case Some(v) => Some(if Rank(covering[0].verdict) <= Rank(v) then covering[0].verdict else v)
      case None => Some(covering[0].verdict)
  }

  /** The nearest `es:Document` at or above a node. */
  function ContainingDocument(c: Context, p: Path): Option<Path>
    requires Valid(c.doc, p)
    decreases |p|
  {
    if IsNamed(At(c.doc, p), c.namespace, "Document") then Some(p)
    else if p == [] then None
    else
      AbovePath(c.doc, p);
      ContainingDocument(c, Parent(p))
  }

  /** Nothing rules out that this undetermined signature covers the document. */
  predicate MightCover(c: Context, s: Source, node: Path) {
    s.coverage.undetermined && Valid(c.doc, s.node)
    && (ContainingDocument(c, s.node).None? || ContainingDocument(c, s.node) == Some(node))
  }

  function StateOf(c: Context, sources: seq<Source>, node: Path, covering: seq<CoveringSignature>): CoverageState {
    match Best(covering)
    case Some(TotalPassed) => Covered
    case Some(_) => CoveredUnverified
    case None => if exists s :: s in sources && MightCover(c, s, node) then Undetermined else Uncovered
  }

  function PayloadOf(c: Context, node: Path, objectRef: string): Option<Path>
    requires Valid(c.doc, node)
  {
    ChildrenValid(c.doc, node, XMLDSIG, "Object");
    FirstWithIdOf(c.doc, ChildrenNamed(c.doc, node, XMLDSIG, "Object"), objectRef)
  }

  function FirstWithIdOf(doc: Node, objects: seq<Path>, id: string): Option<Path>
    requires AllValidPaths(doc, objects)
  {
    if objects == [] then None
    else
      assert objects[0] in objects;
      if IdOf(At(doc, objects[0])) == Some(id) then Some(objects[0]) else FirstWithIdOf(doc, objects[1..], id)
  }

  /** The report of one modelled document. */
  function CoverDocument(c: Context, sources: seq<Source>, node: Path, profile: Path, d: Document): DocumentCoverage
    requires Valid(c.doc, node)
  {
    var covering := Covering(c, sources, node, profile, PayloadOf(c, node, d.objectRef));
    DocumentCoverage(Some(d.index), StateOf(c, sources, node, covering), covering)
  }

  // ------------------------------------------------------------ all documents

  function CoverDocuments(c: Context, sources: seq<Source>, nodes: seq<Path>, documents: seq<Document>, modelled: nat)
    : seq<DocumentCoverage>
    requires AllValidPaths(c.doc, nodes)
  {
    if nodes == [] then []
    else
      assert nodes[0] in nodes;
      var rest := nodes[1..];
      match ChildNamed(c.doc, nodes[0], c.namespace, "DocumentProfile")
      case None =>
        [DocumentCoverage(None, NotModelled, [])] + CoverDocuments(c, sources, rest, documents, modelled)
      case Some(profile) =>
        if modelled >= |documents| then CoverDocuments(c, sources, rest, documents, modelled)
        else [CoverDocument(c, sources, nodes[0], profile, documents[modelled])]
             + CoverDocuments(c, sources, rest, documents, modelled + 1)
  }

  /** The coverage report of a dossier, in source order. */
  function CoverageReport(c: Context, dossier: Dossier, reports: seq<SignatureReport>, limit: nat): seq<DocumentCoverage>
    requires AllValidPaths(c.doc, c.signatures)
  {
    var sources := Sources(c, reports, limit);
    match ChildNamed(c.doc, RootElement(c.doc), c.namespace, "Documents")
    case None => []
    case Some(documents) =>
      ChildrenNamedExact(c.doc, RootElement(c.doc), c.namespace, "Documents", documents);
      ChildrenValid(c.doc, documents, c.namespace, "Document");
      CoverDocuments(c, sources, ChildrenNamed(c.doc, documents, c.namespace, "Document"), dossier.documents, 0)
  }

  /** What is reported so far, with what is left to report, is the whole report. */
  predicate Reporting(c: Context, sources: seq<Source>, nodes: seq<Path>, documents: seq<Document>, i: nat, modelled: nat,
                      report: seq<DocumentCoverage>) {
    && i <= |nodes| && AllValidPaths(c.doc, nodes) && AllValidPaths(c.doc, nodes[i..])
    && report + CoverDocuments(c, sources, nodes[i..], documents, modelled) == CoverDocuments(c, sources, nodes, documents, 0)
  }

  lemma ReportingStarts(c: Context, sources: seq<Source>, nodes: seq<Path>, documents: seq<Document>)
    requires AllValidPaths(c.doc, nodes)
    ensures Reporting(c, sources, nodes, documents, 0, 0, [])
  {
    hide CoverDocuments;
    assert nodes[0..] == nodes;
    var all := CoverDocuments(c, sources, nodes, documents, 0);
    assert [] + all == all;
  }

  lemma ReportingGoesOn(c: Context, sources: seq<Source>, nodes: seq<Path>, documents: seq<Document>, i: nat, modelled: nat,
                        report: seq<DocumentCoverage>)
    requires Reporting(c, sources, nodes, documents, i, modelled, report) && i < |nodes|
    ensures Valid(c.doc, nodes[i])
    ensures match ChildNamed(c.doc, nodes[i], c.namespace, "DocumentProfile")
            case None => Reporting(c, sources, nodes, documents, i + 1, modelled, report + [DocumentCoverage(None, NotModelled, [])])
            case Some(profile) =>
              if modelled >= |documents| then Reporting(c, sources, nodes, documents, i + 1, modelled, report)
              else Reporting(c, sources, nodes, documents, i + 1, modelled + 1,
                             report + [CoverDocument(c, sources, nodes[i], profile, documents[modelled])])
  {
    hide ChildNamed, CoverDocument, Valid;
    assert nodes[i] in nodes && nodes[i..][0] == nodes[i] && nodes[i..][1..] == nodes[i + 1..];
    assert AllValidPaths(c.doc, nodes[i + 1..]);
    match ChildNamed(c.doc, nodes[i], c.namespace, "DocumentProfile") {
      case None =>
        var first := DocumentCoverage(None, NotModelled, []);
        var rest := CoverDocuments(c, sources, nodes[i + 1..], documents, modelled);
        assert report + ([first] + rest) == report + [first] + rest;
      case Some(profile) =>
        if modelled < |documents| {
          var first := CoverDocument(c, sources, nodes[i], profile, documents[modelled]);
          var rest := CoverDocuments(c, sources, nodes[i + 1..], documents, modelled + 1);
          assert report + ([first] + rest) == report + [first] + rest;
        }
    }
  }

  lemma ReportingEnds(c: Context, sources: seq<Source>, nodes: seq<Path>, documents: seq<Document>, modelled: nat,
                      report: seq<DocumentCoverage>)
    requires Reporting(c, sources, nodes, documents, |nodes|, modelled, report)
    ensures report == CoverDocuments(c, sources, nodes, documents, 0)
  {
    assert nodes[|nodes|..] == [];
  }

  /** The loop over the documents. */
  method ReportDocuments(c: Context, sources: seq<Source>, nodes: seq<Path>, documents: seq<Document>)
    returns (report: seq<DocumentCoverage>)
    requires AllValidPaths(c.doc, nodes)
    ensures report == CoverDocuments(c, sources, nodes, documents, 0)
  {
    hide ChildNamed, CoverDocument, Valid, CoverDocuments, Reporting;
    report := [];
    var modelled := 0;
    var i := 0;
    ReportingStarts(c, sources, nodes, documents);
    while i < |nodes|
      invariant i <= |nodes| && Reporting(c, sources, nodes, documents, i, modelled, report)
    {
      ReportingGoesOn(c, sources, nodes, documents, i, modelled, report);
      var profile := ChildNamed(c.doc, nodes[i], c.namespace, "DocumentProfile");
      if profile.None? {
        report := report + [DocumentCoverage(None, NotModelled, [])];
      } else if modelled < |documents| {
        report := report + [CoverDocument(c, sources, nodes[i], profile.value, documents[modelled])];
        modelled := modelled + 1;
      }
      i := i + 1;
    }
    ReportingEnds(c, sources, nodes, documents, modelled, report);
  }

  // ------------------------------------------------------------------- verdict

  predicate HasState(documents: seq<DocumentCoverage>, state: CoverageState) {
    exists d :: d in documents && d.state == state
  }

  /** An uncovered document is one with an index; only skipped documents have none. */
  predicate HasUncovered(documents: seq<DocumentCoverage>) {
    exists d :: d in documents && d.state == Uncovered && d.index.Some?
  }

  function CoverageChecks(documents: seq<DocumentCoverage>): seq<Check> {
    (if !HasUncovered(documents) && !HasState(documents, Undetermined) then
       [Check(DocumentsAllCovered, if HasState(documents, CoveredUnverified) then Info else Passed)] else [])
    + (if HasUncovered(documents) then [Check(DocumentsUncovered, Unknown)] else [])
    + (if HasState(documents, Undetermined) then [Check(DocumentsCoverageUndetermined, Unknown)] else [])
  }

  /** Every failure of the signature comes from where it stands. */
  predicate UnsupportedPlacementOnly(r: SignatureReport) {
    r.placement == UnknownPlacement && forall c :: c in r.checks && c.status == Failed ==> c.code == SigPlacementInvalid
  }

  function DossierChecks(found: seq<Check>, reports: seq<SignatureReport>, documents: seq<DocumentCoverage>): seq<Check> {
    found
    + (if reports == [] then [Check(NoSignatures, Unknown)] else [])
    + (if exists r :: r in reports && UnsupportedPlacementOnly(r) then [Check(SignaturesUnsupported, Unknown)] else [])
    + CoverageChecks(documents)
  }

  function FoldReports(reports: seq<SignatureReport>, verdict: Verdict): Verdict {
    if reports == [] then verdict
    else FoldReports(reports[1..], if UnsupportedPlacementOnly(reports[0]) then verdict else Worst(verdict, reports[0].verdict))
  }

  /** The dossier verdict, `found` being the dossier-level checks of the stages before. */
  function DossierVerdict(found: seq<Check>, reports: seq<SignatureReport>, documents: seq<DocumentCoverage>): Verdict {
    FoldReports(reports, VerdictOf(DossierChecks(found, reports, documents)))
  }

  method FoldVerdict(found: seq<Check>, reports: seq<SignatureReport>, documents: seq<DocumentCoverage>) returns (verdict: Verdict)
    ensures verdict == DossierVerdict(found, reports, documents)
  {
    var checks := DossierChecks(found, reports, documents);
    verdict := FoldChecks(checks);
    var i := 0;
    while i < |reports|
      invariant i <= |reports| && FoldReports(reports[i..], verdict) == DossierVerdict(found, reports, documents)
    {
      assert reports[i..][1..] == reports[i + 1..];
      if !UnsupportedPlacementOnly(reports[i]) {
        verdict := Worst(verdict, reports[i].verdict);
      }
      i := i + 1;
    }
  }

  /** The note a signature gets about an unsupported one inside it changes nothing. */
  lemma ToldNothingNew(r: SignatureReport)
    requires r.verdict == VerdictOf(r.checks)
    ensures r.verdict == VerdictOf(r.checks + [Check(NestedSignaturesUnsupported, Info)])
  {
    VerdictIsMonotone(r.checks, Check(NestedSignaturesUnsupported, Info));
  }

  // ------------------------------------------------------------- what valid means

  lemma {:induction false} FoldReportsValid(reports: seq<SignatureReport>, verdict: Verdict)
    ensures FoldReports(reports, verdict) == TotalPassed
       <==> verdict == TotalPassed && forall r :: r in reports && !UnsupportedPlacementOnly(r) ==> r.verdict == TotalPassed
  {
    if reports != [] {
      assert reports == [reports[0]] + reports[1..];
      FoldReportsValid(reports[1..], if UnsupportedPlacementOnly(reports[0]) then verdict else Worst(verdict, reports[0].verdict));
    }
  }

  lemma Passes(checks: seq<Check>, more: seq<Check>)
    ensures VerdictOf(checks + more) == TotalPassed <==> VerdictOf(checks) == TotalPassed && VerdictOf(more) == TotalPassed
  {
    FoldExact(checks + more, TotalPassed);
    FoldExact(checks, TotalPassed);
    FoldExact(more, TotalPassed);
  }

  lemma CoveragePasses(documents: seq<DocumentCoverage>)
    ensures VerdictOf(CoverageChecks(documents)) == TotalPassed <==> !HasUncovered(documents) && !HasState(documents, Undetermined)
  {
    FoldExact(CoverageChecks(documents), TotalPassed);
  }

  /** The verdict is valid exactly when nothing else was found, there is a signature, no signature is
      left unjudged or less than valid, and no document is uncovered or undetermined. */
  lemma ValidExactly(found: seq<Check>, reports: seq<SignatureReport>, documents: seq<DocumentCoverage>)
    ensures DossierVerdict(found, reports, documents) == TotalPassed
       <==> && VerdictOf(found) == TotalPassed && reports != []
            && (forall r :: r in reports ==> !UnsupportedPlacementOnly(r) && r.verdict == TotalPassed)
            && !HasUncovered(documents) && !HasState(documents, Undetermined)
  {
    hide HasUncovered, HasState, UnsupportedPlacementOnly, VerdictOf, CoverageChecks;
    var none: seq<Check> := if reports == [] then [Check(NoSignatures, Unknown)] else [];
    var unjudged: seq<Check> := if exists r :: r in reports && UnsupportedPlacementOnly(r) then [Check(SignaturesUnsupported, Unknown)] else [];
    Passes(found + none + unjudged, CoverageChecks(documents));
    Passes(found + none, unjudged);
    Passes(found, none);
    OneUnknown(NoSignatures);
    OneUnknown(SignaturesUnsupported);
    CoveragePasses(documents);
    FoldReportsValid(reports, VerdictOf(DossierChecks(found, reports, documents)));
  }

  lemma OneUnknown(code: CheckCode)
    ensures VerdictOf([Check(code, Unknown)]) != TotalPassed && VerdictOf([]) == TotalPassed
  {
    FoldExact([Check(code, Unknown)], TotalPassed);
    assert Check(code, Unknown) in [Check(code, Unknown)];
  }

  // ---------------------------------------------------------- from states to signatures

  lemma {:induction false} BestExact(covering: seq<CoveringSignature>)
    ensures Best(covering).None? <==> covering == []
    ensures Best(covering) == Some(TotalPassed) <==> exists k :: k in covering && k.verdict == TotalPassed
  {
    if covering != [] {
      assert covering == [covering[0]] + covering[1..];
      BestExact(covering[1..]);
    }
  }

  /** Signature `j` covers the document: its scope is complete, its placement known, and its references
      hold what they must. */
  predicate CoversIt(c: Context, reports: seq<SignatureReport>, limit: nat, j: nat, node: Path, profile: Path, payload: Option<Path>) {
    && j < |reports| && j < |c.signatures| && Valid(c.doc, c.signatures[j])
    && ScopeIsComplete(reports[j].checks)
    && var coverage := CoverageOf(c, c.signatures[j], reports[j].checks, limit);
       && !coverage.undetermined
       && ((reports[j].placement == InDocument && c.signatures[j] != [] && Parent(c.signatures[j]) == node
            && CoveredBySome(coverage.scopes, profile) && payload.Some? && CoveredBySome(coverage.scopes, payload.value))
           || (reports[j].placement == InDossier && CoveredBySome(coverage.scopes, node)))
  }

  lemma {:induction false} CoveringMembers(c: Context, sources: seq<Source>, node: Path, profile: Path, payload: Option<Path>,
                                           k: CoveringSignature)
    requires k in Covering(c, sources, node, profile, payload)
    ensures exists s :: s in sources && !s.coverage.undetermined && s.coverage.scopeComplete && s.index == Some(k.index)
                        && ViaOf(c, s, node, profile, payload) == Some(k.via) && s.verdict == k.verdict
  {
    hide ViaOf;
    var first := sources[0];
    if k !in Covering(c, sources[1..], node, profile, payload) {
      assert first in sources;
    } else {
      CoveringMembers(c, sources[1..], node, profile, payload, k);
      assert forall s :: s in sources[1..] ==> s in sources;
    }
  }

  /** A covering signature in a report is a signature that covers. */
  lemma CoveringIsCovering(c: Context, reports: seq<SignatureReport>, limit: nat, node: Path, profile: Path, payload: Option<Path>,
                           k: CoveringSignature)
    requires AllValidPaths(c.doc, c.signatures) && k in Covering(c, Sources(c, reports, limit), node, profile, payload)
    ensures CoversIt(c, reports, limit, k.index, node, profile, payload) && reports[k.index].verdict == k.verdict
  {
    hide CoveredBySome, ScopesOf, Valid, Clouds, IdMap;
    var sources := Sources(c, reports, limit);
    CoveringMembers(c, sources, node, profile, payload, k);
    var s :| s in sources && !s.coverage.undetermined && s.coverage.scopeComplete && s.index == Some(k.index)
             && ViaOf(c, s, node, profile, payload) == Some(k.via) && s.verdict == k.verdict;
    var i :| 0 <= i < |sources| && sources[i] == s;
    assert c.signatures[i] in c.signatures;
    assert s == SourceAt(c, reports, limit, i);
  }

  lemma {:induction false} CoveringHas(c: Context, sources: seq<Source>, node: Path, profile: Path, payload: Option<Path>, s: Source)
    requires s in sources && !s.coverage.undetermined && s.coverage.scopeComplete && s.index.Some?
    requires ViaOf(c, s, node, profile, payload).Some?
    ensures CoveringSignature(s.index.value, ViaOf(c, s, node, profile, payload).value, s.verdict)
            in Covering(c, sources, node, profile, payload)
  {
    hide ViaOf;
    if s != sources[0] { CoveringHas(c, sources[1..], node, profile, payload, s); }
  }

  /** A signature that covers is among the covering signatures of the report, with its own verdict. */
  lemma CoversIsListed(c: Context, reports: seq<SignatureReport>, limit: nat, node: Path, profile: Path, payload: Option<Path>, j: nat)
    returns (k: CoveringSignature)
    requires AllValidPaths(c.doc, c.signatures) && CoversIt(c, reports, limit, j, node, profile, payload)
    ensures k in Covering(c, Sources(c, reports, limit), node, profile, payload) && k.index == j && k.verdict == reports[j].verdict
  {
    hide CoveredBySome, ScopesOf, Valid, Clouds, IdMap;
    var sources := Sources(c, reports, limit);
    var s := sources[j];
    assert s == SourceAt(c, reports, limit, j) && s in sources;
    CoveringHas(c, sources, node, profile, payload, s);
    k := CoveringSignature(j, ViaOf(c, s, node, profile, payload).value, s.verdict);
  }

  /** Some examined signature covers the document. */
  ghost predicate SomeCovers(c: Context, reports: seq<SignatureReport>, limit: nat, node: Path, profile: Path, payload: Option<Path>) {
    exists j: nat :: CoversIt(c, reports, limit, j, node, profile, payload)
  }

  /** Some valid signature covers the document. */
  ghost predicate ValidCovers(c: Context, reports: seq<SignatureReport>, limit: nat, node: Path, profile: Path, payload: Option<Path>) {
    exists j: nat :: CoversValidly(c, reports, limit, j, node, profile, payload)
  }

  predicate CoversValidly(c: Context, reports: seq<SignatureReport>, limit: nat, j: nat, node: Path, profile: Path, payload: Option<Path>) {
    CoversIt(c, reports, limit, j, node, profile, payload) && reports[j].verdict == TotalPassed
  }

  /** The state reported for a document is decided by the signatures that cover it, and only without any
      by those that could not be evaluated. */
  lemma StateExact(c: Context, reports: seq<SignatureReport>, limit: nat, node: Path, profile: Path, payload: Option<Path>)
    requires AllValidPaths(c.doc, c.signatures)
    ensures var sources := Sources(c, reports, limit);
            StateOf(c, sources, node, Covering(c, sources, node, profile, payload))
            == if ValidCovers(c, reports, limit, node, profile, payload) then Covered
               else if SomeCovers(c, reports, limit, node, profile, payload) then CoveredUnverified
               else if exists s :: s in sources && MightCover(c, s, node) then Undetermined
               else Uncovered
  {
    hide CoversIt, MightCover, Sources, Covering;
    var sources := Sources(c, reports, limit);
    var covering := Covering(c, sources, node, profile, payload);
    BestExact(covering);
    if covering != [] {
      CoveringIsCovering(c, reports, limit, node, profile, payload, covering[0]);
    }
    if exists k :: k in covering && k.verdict == TotalPassed {
      var k :| k in covering && k.verdict == TotalPassed;
      CoveringIsCovering(c, reports, limit, node, profile, payload, k);
      assert CoversValidly(c, reports, limit, k.index, node, profile, payload);
    }
    if SomeCovers(c, reports, limit, node, profile, payload) {
      var j: nat :| CoversIt(c, reports, limit, j, node, profile, payload);
      var k := CoversIsListed(c, reports, limit, node, profile, payload, j);
    }
    if ValidCovers(c, reports, limit, node, profile, payload) {
      var j: nat :| CoversValidly(c, reports, limit, j, node, profile, payload);
      var k := CoversIsListed(c, reports, limit, node, profile, payload, j);
    }
  }

  /** Every document the parser modelled is reported, under its own node and profile. */
  lemma {:induction false} EachIsReported(c: Context, sources: seq<Source>, nodes: seq<Path>, documents: seq<Document>, modelled: nat, k: nat)
    requires AllValidPaths(c.doc, nodes) && modelled <= k < |documents|
    requires NodesOf(documents[modelled..]) == WithProfile(c.doc, nodes, c.namespace)
    ensures Valid(c.doc, documents[k].node) && ChildNamed(c.doc, documents[k].node, c.namespace, "DocumentProfile").Some?
    ensures CoverDocument(c, sources, documents[k].node,
                          ChildNamed(c.doc, documents[k].node, c.namespace, "DocumentProfile").value, documents[k])
            in CoverDocuments(c, sources, nodes, documents, modelled)
    decreases |nodes|
  {
    hide CoverDocument, ChildrenNamed, Valid;
    NodesOfAt(documents[modelled..]);
    assert documents[modelled..][0] == documents[modelled];
    if nodes != [] {
      assert nodes[0] in nodes && AllValidPaths(c.doc, nodes[1..]);
      if ChildrenNamed(c.doc, nodes[0], c.namespace, "DocumentProfile") == [] {
        assert [] + WithProfile(c.doc, nodes[1..], c.namespace) == WithProfile(c.doc, nodes[1..], c.namespace);
        EachIsReported(c, sources, nodes[1..], documents, modelled, k);
      } else {
        var rest := WithProfile(c.doc, nodes[1..], c.namespace);
        assert ([nodes[0]] + rest)[0] == nodes[0] && ([nodes[0]] + rest)[1..] == rest;
        assert NodesOf(documents[modelled..])[0] == documents[modelled].node;
        if k > modelled {
          assert documents[modelled..][1..] == documents[modelled + 1..];
          EachIsReported(c, sources, nodes[1..], documents, modelled + 1, k);
        }
      }
    }
  }

  /** Document `k` is covered by signature `j`, which verified. */
  predicate CoveredBy(c: Context, dossier: Dossier, reports: seq<SignatureReport>, limit: nat, k: nat, j: nat)
    requires k < |dossier.documents|
  {
    var d := dossier.documents[k];
    && j < |reports| && reports[j].verdict == TotalPassed && (reports[j].placement == InDocument || reports[j].placement == InDossier)
    && Valid(c.doc, d.node) && ChildNamed(c.doc, d.node, c.namespace, "DocumentProfile").Some?
    && CoversIt(c, reports, limit, j, d.node, ChildNamed(c.doc, d.node, c.namespace, "DocumentProfile").value,
                PayloadOf(c, d.node, d.objectRef))
  }

  lemma ReportedDocument(c: Context, allowed: seq<string>, maxDocuments: nat, dossier: Dossier, reports: seq<SignatureReport>,
                         limit: nat, k: nat) returns (covering: seq<CoveringSignature>)
    requires ParseDossier(c.doc, allowed, maxDocuments) == Ok(dossier) && c.doc.Root? && "" !in allowed
    requires c.namespace == dossier.namespace && AllValidPaths(c.doc, c.signatures) && k < |dossier.documents|
    ensures var d := dossier.documents[k];
            && Valid(c.doc, d.node) && ChildNamed(c.doc, d.node, c.namespace, "DocumentProfile").Some?
            && covering == Covering(c, Sources(c, reports, limit), d.node,
                                    ChildNamed(c.doc, d.node, c.namespace, "DocumentProfile").value, PayloadOf(c, d.node, d.objectRef))
            && DocumentCoverage(Some(d.index), StateOf(c, Sources(c, reports, limit), d.node, covering), covering)
               in CoverageReport(c, dossier, reports, limit)
  {
    hide ParseDossier, StateOf, Covering, Sources, PayloadOf, ChildrenNamed, CoverDocuments, WithProfile, Valid, RootElement;
    var profile, documents := AcceptedDossier(c.doc, allowed, maxDocuments, dossier);
    var d := dossier.documents[k];
    ChildrenValid(c.doc, documents, c.namespace, "Document");
    assert dossier.documents[0..] == dossier.documents;
    EachIsReported(c, Sources(c, reports, limit), ChildrenNamed(c.doc, documents, c.namespace, "Document"), dossier.documents, 0, k);
    covering := Covering(c, Sources(c, reports, limit), d.node,
                         ChildNamed(c.doc, d.node, c.namespace, "DocumentProfile").value, PayloadOf(c, d.node, d.objectRef));
  }

  /** A valid dossier verdict means what it says: there is a signature; every signature is valid and at
      a placement the format knows or judged on its own; and every modelled document is covered by a
      valid signature whose scope is complete and whose placement is known. */
  lemma ValidMeans(c: Context, allowed: seq<string>, maxDocuments: nat, dossier: Dossier, found: seq<Check>,
                   reports: seq<SignatureReport>, limit: nat, k: nat) returns (j: nat)
    requires ParseDossier(c.doc, allowed, maxDocuments) == Ok(dossier) && c.doc.Root? && "" !in allowed
    requires c.namespace == dossier.namespace && AllValidPaths(c.doc, c.signatures) && k < |dossier.documents|
    requires DossierVerdict(found, reports, CoverageReport(c, dossier, reports, limit)) == TotalPassed
    ensures reports != [] && forall r :: r in reports ==> r.verdict == TotalPassed && !UnsupportedPlacementOnly(r)
    ensures CoveredBy(c, dossier, reports, limit, k, j)
  {
    hide ParseDossier, CoverageReport, Covering, Sources, PayloadOf, ChildNamed, Valid, CoverageOf, CoveredBySome,
         UnsupportedPlacementOnly, MightCover, ScopeIsComplete;
    var report := CoverageReport(c, dossier, reports, limit);
    ValidExactly(found, reports, report);
    var covering := ReportedDocument(c, allowed, maxDocuments, dossier, reports, limit, k);
    var d := dossier.documents[k];
    var entry := DocumentCoverage(Some(d.index), StateOf(c, Sources(c, reports, limit), d.node, covering), covering);
    assert entry.state != Uncovered && entry.state != Undetermined;
    BestExact(covering);
    var best := covering[0];
    assert best in covering;
    CoveringIsCovering(c, reports, limit, d.node, ChildNamed(c.doc, d.node, c.namespace, "DocumentProfile").value,
                       PayloadOf(c, d.node, d.objectRef), best);
    j := best.index;
    assert reports[j] in reports;
  }
}
