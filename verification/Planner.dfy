/**
 Which signatures a run writes: the documents selected, the refusals that keep
 older signatures intact, and one plan per signature.

 A plan names the element the signature goes into (its last child, after what is
 already there), the identifiers it introduces and the references it makes.
 */
module Planner {
  import opened Wrappers
  import opened XmlTree
  import opened Ids
  import opened Dossier
  import opened Names
  import opened SignatureXml

  datatype SignScope = DocumentScope | DossierScope

  /** `documents` are selectors: `#<index>` or a document's `OBJREF`; none means every document. */
  datatype SignRequest = SignRequest(scope: SignScope, documents: seq<string>, algorithm: SignatureAlgorithm,
                                     certificate: string, certificateDigest: string, certificateValues: seq<string>,
                                     signingTime: string, timestamped: bool)

  function SigningOf(request: SignRequest, namespace: string): Signing {
    Signing(request.algorithm, request.certificate, request.certificateDigest, request.certificateValues,
            request.signingTime, namespace, request.timestamped)
  }

  /** `container` is the element the signature is written into. */
  datatype Plan = Plan(id: string, documentIndex: Option<nat>, container: Path, references: seq<PlannedReference>)

  // ----------------------------------------------------------------- lookups

  predicate IsSignature(doc: Node, p: Path) {
    Valid(doc, p) && IsNamed(At(doc, p), XMLDSIG, "Signature")
  }

  /** A `ds:Reference` anywhere inside the signature at `s`. */
  predicate IsReferenceOf(doc: Node, s: Path, p: Path) {
    s <= p && Valid(doc, p) && IsNamed(At(doc, p), XMLDSIG, "Reference")
  }

  function UriOf(n: Node): string {
    match AttributeOf(n, "URI")
    case Some(uri) => uri
    case None => ""
  }

  predicate HasWholeDocumentReference(doc: Node, s: Path) {
    exists p :: p in Elements(doc, []) && IsReferenceOf(doc, s, p) && UriOf(At(doc, p)) == ""
  }

  /** The element an existing reference names: only the `#id` form is resolved. */
  function TargetOf(doc: Node, reference: Node): Option<Path> {
    match AttributeOf(reference, "URI")
    case Some(uri) => if uri != "" && uri[0] == '#' then ById(doc, uri[1..]) else None
    case None => None
  }

  /** An existing reference names `insertion` or an ancestor of it, or nothing this search can find. */
  predicate CoversAncestorOrSelf(doc: Node, insertion: Path) {
    exists s :: s in Elements(doc, []) && IsSignature(doc, s) && SignatureCovers(doc, s, insertion)
  }

  predicate SignatureCovers(doc: Node, s: Path, insertion: Path) {
    exists p :: p in Elements(doc, []) && IsReferenceOf(doc, s, p) && ReferenceCovers(doc, p, insertion)
  }

  predicate ReferenceCovers(doc: Node, p: Path, insertion: Path)
    requires Valid(doc, p)
  {
    TargetOf(doc, At(doc, p)).Some? ==> TargetOf(doc, At(doc, p)).value <= insertion
  }

  predicate HasDossierLevelCover(doc: Node) {
    var root := RootElement(doc);
    var namespace := if At(doc, root).Element? then At(doc, root).ns else "";
    exists k :: 0 <= k < |Kids(At(doc, root))| && LevelCover(Kids(At(doc, root))[k], namespace)
  }

  predicate LevelCover(kid: Node, namespace: string) {
    IsNamed(kid, XMLDSIG, "Signature") || (kid.Element? && kid.local == "TimeStamp" && kid.ns == namespace)
  }

  predicate RefusesPlacement(doc: Node, scope: SignScope) {
    || (exists s :: s in Elements(doc, []) && IsSignature(doc, s) && HasWholeDocumentReference(doc, s))
    || (scope == DocumentScope && HasDossierLevelCover(doc))
  }

  /** The `Id` of the first child with this name. */
  function ChildId(doc: Node, p: Path, namespace: string, name: string): Option<string>
    requires Valid(doc, p)
  {
    match ChildNamed(doc, p, namespace, name)
    case None => None
    case Some(c) =>
      ChildrenNamedExact(doc, p, namespace, name, c);
      AttributeOf(At(doc, c), "Id")
  }

  // ----------------------------------------------------------------- targets

  /** A decimal index, as `usize` reads one. */
  function ParseIndex(s: string): Option<nat> {
    var digits := if s != "" && s[0] == '+' then s[1..] else s;
    if digits != "" && (forall c :: c in digits ==> IsDigit(c)) && Value(digits) < 0x1_0000_0000_0000_0000
    then Some(Value(digits)) else None
  }

  function FindIndex(documents: seq<Document>, index: nat): Option<Document> {
    if documents == [] then None
    else if documents[0].index == index then Some(documents[0]) else FindIndex(documents[1..], index)
  }

  function FindRef(documents: seq<Document>, objectRef: string): Option<Document> {
    if documents == [] then None
    else if documents[0].objectRef == objectRef then Some(documents[0]) else FindRef(documents[1..], objectRef)
  }

  function ResolveSelector(dossier: Dossier, selector: string): Option<Document> {
    if selector != "" && selector[0] == '#' then
      match ParseIndex(selector[1..])
      case Some(index) => FindIndex(dossier.documents, index)
      case None => None
    else FindRef(dossier.documents, selector)
  }

  predicate HasIndex(documents: seq<Document>, index: nat) {
    exists d :: d in documents && d.index == index
  }

  /** The selected documents in the order their selectors name them, each once. */
  function Select(dossier: Dossier, selectors: seq<string>, selected: seq<Document>): Result<seq<Document>, SignError> {
    if selectors == [] then Ok(selected)
    else
      match ResolveSelector(dossier, selectors[0])
      case None => Err(DocumentNotFound)
      case Some(d) => Select(dossier, selectors[1..], if HasIndex(selected, d.index) then selected else selected + [d])
  }

  function InsertByIndex(sorted: seq<Document>, d: Document): seq<Document> {
    if sorted == [] || d.index < sorted[0].index then [d] + sorted else [sorted[0]] + InsertByIndex(sorted[1..], d)
  }

  function SortByIndex(documents: seq<Document>): seq<Document> {
    if documents == [] then [] else InsertByIndex(SortByIndex(documents[..|documents| - 1]), documents[|documents| - 1])
  }

  function Targets(dossier: Dossier, scope: SignScope, selectors: seq<string>): Result<seq<Document>, SignError> {
    if scope == DossierScope then Ok([])
    else if selectors == [] then
      if dossier.documents == [] then Err(DocumentNotSignable) else Ok(dossier.documents)
    else
      match Select(dossier, selectors, [])
      case Ok(selected) => Ok(SortByIndex(selected))
      case Err(e) => Err(e)
  }

  method SelectTargets(dossier: Dossier, selectors: seq<string>) returns (r: Result<seq<Document>, SignError>)
    ensures r == Select(dossier, selectors, [])
  {
    var selected: seq<Document> := [];
    var i := 0;
    while i < |selectors|
      invariant i <= |selectors|
      invariant Select(dossier, selectors[i..], selected) == Select(dossier, selectors, [])
    {
      assert selectors[i..][1..] == selectors[i + 1..];
      var found := ResolveSelector(dossier, selectors[i]);
      if found.None? {
        return Err(DocumentNotFound);
      }
      if !HasIndex(selected, found.value.index) {
        selected := selected + [found.value];
      }
      i := i + 1;
    }
    return Ok(selected);
  }

  /** Strictly increasing indexes. */
  predicate InOrder(documents: seq<Document>) {
    forall i, j :: 0 <= i < j < |documents| ==> documents[i].index < documents[j].index
  }

  lemma {:induction false} InsertByIndexExact(sorted: seq<Document>, d: Document)
    requires InOrder(sorted) && !HasIndex(sorted, d.index)
    ensures InOrder(InsertByIndex(sorted, d))
    ensures forall x :: x in InsertByIndex(sorted, d) <==> x == d || x in sorted
  {
    if sorted != [] {
      assert sorted == [sorted[0]] + sorted[1..];
      assert forall x :: x in sorted[1..] ==> x in sorted;
      if !(d.index < sorted[0].index) {
        InsertByIndexExact(sorted[1..], d);
        var rest := InsertByIndex(sorted[1..], d);
        assert d.index != sorted[0].index;
        forall x | x in rest
          ensures sorted[0].index < x.index
        {
          if x in sorted[1..] {
            var k :| 0 <= k < |sorted[1..]| && sorted[1..][k] == x;
            assert sorted[k + 1] == x;
          }
        }
        OrderCons(sorted[0], rest);
      } else {
        OrderCons(d, sorted);
      }
    }
  }

  lemma OrderCons(d: Document, rest: seq<Document>)
    requires InOrder(rest) && forall x :: x in rest ==> d.index < x.index
    ensures InOrder([d] + rest)
  {
    var all := [d] + rest;
    forall i, j | 0 <= i < j < |all|
      ensures all[i].index < all[j].index
    {
      assert all[j] == rest[j - 1] && (i > 0 ==> all[i] == rest[i - 1]);
    }
  }

  /** No two documents share an index. */
  predicate NoSharedIndex(documents: seq<Document>) {
    forall i, j :: 0 <= i < j < |documents| ==> documents[i].index != documents[j].index
  }

  lemma {:induction false} SortByIndexExact(documents: seq<Document>)
    requires NoSharedIndex(documents)
    ensures InOrder(SortByIndex(documents)) && forall x :: x in SortByIndex(documents) <==> x in documents
  {
    if documents != [] {
      var most, last := documents[..|documents| - 1], documents[|documents| - 1];
      assert documents == most + [last];
      SortByIndexExact(most);
      InsertByIndexExact(SortByIndex(most), last);
    }
  }

  lemma {:induction false} FindMembers(documents: seq<Document>, index: nat, objectRef: string)
    ensures FindIndex(documents, index).Some? ==> FindIndex(documents, index).value in documents
    ensures FindRef(documents, objectRef).Some? ==> FindRef(documents, objectRef).value in documents
  {
    if documents != [] { FindMembers(documents[1..], index, objectRef); }
  }

  lemma ResolvedIsMember(dossier: Dossier, selector: string)
    ensures ResolveSelector(dossier, selector).Some? ==> ResolveSelector(dossier, selector).value in dossier.documents
  {
    if selector != "" && selector[0] == '#' {
      if ParseIndex(selector[1..]).Some? { FindMembers(dossier.documents, ParseIndex(selector[1..]).value, ""); }
    } else {
      FindMembers(dossier.documents, 0, selector);
    }
  }

  predicate Resolves(dossier: Dossier, selectors: seq<string>, d: Document) {
    exists s :: s in selectors && ResolveSelector(dossier, s) == Some(d)
  }

  lemma {:induction false} SelectExact(dossier: Dossier, selectors: seq<string>, selected: seq<Document>)
    requires NoSharedIndex(selected) && Select(dossier, selectors, selected).Ok?
    requires NoSharedIndex(dossier.documents) && forall d :: d in selected ==> d in dossier.documents
    ensures var r := Select(dossier, selectors, selected).value;
            && NoSharedIndex(r) && (forall d :: d in r ==> d in dossier.documents)
            && forall d :: d in r <==> d in selected || Resolves(dossier, selectors, d)
    decreases |selectors|
  {
    if selectors != [] {
      assert selectors == [selectors[0]] + selectors[1..];
      ResolvedIsMember(dossier, selectors[0]);
      var d := ResolveSelector(dossier, selectors[0]).value;
      SameIndexSameDocument(dossier, selected, d);
      SelectExact(dossier, selectors[1..], if HasIndex(selected, d.index) then selected else selected + [d]);
    }
  }

  lemma SameIndexSameDocument(dossier: Dossier, selected: seq<Document>, d: Document)
    requires NoSharedIndex(dossier.documents) && d in dossier.documents
    requires forall x :: x in selected ==> x in dossier.documents
    ensures HasIndex(selected, d.index) ==> d in selected
  {
    if HasIndex(selected, d.index) {
      var x :| x in selected && x.index == d.index;
      var i :| 0 <= i < |dossier.documents| && dossier.documents[i] == x;
      var j :| 0 <= j < |dossier.documents| && dossier.documents[j] == d;
      assert i == j;
    }
  }

  /** Document scope selects exactly the documents the selectors name (all of them without selectors),
      in document order and each once; a selector that names nothing is refused. */
  lemma TargetsExact(dossier: Dossier, selectors: seq<string>)
    requires InOrder(dossier.documents)
    ensures var r := Targets(dossier, DocumentScope, selectors);
            && (r.Ok? ==> InOrder(r.value)
                          && forall d :: d in r.value <==>
                               d in dossier.documents && (selectors == [] || Resolves(dossier, selectors, d)))
            && (selectors == [] ==> (r.Ok? <==> dossier.documents != []))
            && (selectors != [] ==> (r.Ok? <==> forall s :: s in selectors ==> ResolveSelector(dossier, s).Some?))
  {
    if selectors != [] {
      SelectSucceeds(dossier, selectors, []);
      if Select(dossier, selectors, []).Ok? {
        SelectExact(dossier, selectors, []);
        SortByIndexExact(Select(dossier, selectors, []).value);
      }
    }
  }

  lemma {:induction false} SelectSucceeds(dossier: Dossier, selectors: seq<string>, selected: seq<Document>)
    ensures Select(dossier, selectors, selected).Ok? <==> forall s :: s in selectors ==> ResolveSelector(dossier, s).Some?
    ensures Select(dossier, selectors, selected).Err? ==> Select(dossier, selectors, selected).error == DocumentNotFound
    decreases |selectors|
  {
    if selectors != [] {
      assert selectors == [selectors[0]] + selectors[1..];
      if ResolveSelector(dossier, selectors[0]).Some? {
        var d := ResolveSelector(dossier, selectors[0]).value;
        SelectSucceeds(dossier, selectors[1..], if HasIndex(selected, d.index) then selected else selected + [d]);
      }
    }
  }

  // ------------------------------------------------------------------- plans

  /** An element a signature must cover: the reference's name, the target's `Id`, its media type. */
  datatype Covered = Covered(name: string, target: string, mime: Option<string>)

  function NamesOf(covered: seq<Covered>): seq<string> {
    if covered == [] then [] else [covered[0].name] + NamesOf(covered[1..])
  }

  function ReferencesTo(id: string, covered: seq<Covered>): seq<PlannedReference> {
    if covered == [] then []
    else [PlannedReference(ReferenceId(id, covered[0].name), "#" + covered[0].target, None, covered[0].mime)]
         + ReferencesTo(id, covered[1..])
  }

  const OWN_NAMES: seq<string> := ["signature-profile", "signed-properties"]

  /** The two references every signature makes into itself. */
  function OwnReferences(id: string): seq<PlannedReference> {
    [PlannedReference(ReferenceId(id, "signature-profile"), "#" + ProfileObjectId(id), None, None),
     PlannedReference(ReferenceId(id, "signed-properties"), "#" + SignedPropertiesId(id), Some(SIGNED_PROPERTIES_TYPE), None)]
  }

  function BuildPlan(doc: Node, documentIndex: Option<nat>, container: Path, covered: seq<Covered>): Result<Plan, SignError> {
    match AllocateId(doc, BaseId(documentIndex), NamesOf(covered) + OWN_NAMES)
    case Err(e) => Err(e)
    case Ok(id) => Ok(Plan(id, documentIndex, container, ReferencesTo(id, covered) + OwnReferences(id)))
  }

  function PlanDocument(doc: Node, namespace: string, d: Document): Result<Plan, SignError> {
    if !CheckId(d.objectRef) || !CheckMimeEssence(Essence(d)) then Err(DocumentNotSignable)
    else
      match ById(doc, d.objectRef)
      case None => Err(DocumentNotSignable)
      case Some(node) =>
        ByIdExact(doc, d.objectRef);
        if node == [] then Err(DocumentNotSignable)
        else
          var container := node[..|node| - 1];
          assert Valid(doc, container) by { ParentIsValid(doc, node); }
          if !At(doc, container).Element? then Err(DocumentNotSignable)
          else
            match ChildId(doc, container, namespace, "DocumentProfile")
            case None => Err(DocumentNotSignable)
            case Some(profile) =>
              if !CheckId(profile) then Err(DocumentNotSignable)
              else if CoversAncestorOrSelf(doc, container) then Err(DocumentAlreadySigned)
              else if Kids(At(doc, container)) == [] then Err(SignFailed)
              else BuildPlan(doc, Some(d.index), container,
                             [Covered("object", d.objectRef, Some(Essence(d))), Covered("document-profile", profile, None)])
  }

  lemma ParentIsValid(doc: Node, p: Path)
    requires Valid(doc, p) && p != []
    ensures Valid(doc, p[..|p| - 1]) && p[|p| - 1] < |Kids(At(doc, p[..|p| - 1]))|
    ensures Kids(At(doc, p[..|p| - 1]))[p[|p| - 1]] == At(doc, p)
  {
    var parent, last := p[..|p| - 1], p[|p| - 1];
    assert p == parent + [last];
    AtConcat(doc, parent, [last]);
    assert [last][1..] == [];
  }

  function PlanDossier(doc: Node, namespace: string): Result<Plan, SignError> {
    var root := RootElement(doc);
    match (ChildId(doc, root, namespace, "DossierProfile"), ChildId(doc, root, namespace, "Documents"))
    case (Some(profile), Some(documents)) =>
      if !CheckId(profile) || !CheckId(documents) then Err(DocumentNotSignable)
      else if CoversAncestorOrSelf(doc, root) then Err(DocumentAlreadySigned)
      else if Kids(At(doc, root)) == [] then Err(SignFailed)
      else BuildPlan(doc, None, root, [Covered("dossier-profile", profile, None), Covered("documents", documents, None)])
    case (None, _) => Err(SignFailed)
    case (_, None) => Err(SignFailed)
  }

  function PlanDocuments(doc: Node, namespace: string, targets: seq<Document>): Result<seq<Plan>, SignError> {
    if targets == [] then Ok([])
    else
      var first := PlanDocument(doc, namespace, targets[0]);
      if first.Err? then Err(first.error)
      else
        var rest := PlanDocuments(doc, namespace, targets[1..]);
        if rest.Err? then rest else Ok([first.value] + rest.value)
  }

  function PlanSignatures(doc: Node, dossier: Dossier, scope: SignScope, targets: seq<Document>): Result<seq<Plan>, SignError> {
    if !CheckNamespace(dossier.namespace) then Err(DocumentNotSignable)
    else if scope == DossierScope then
      match PlanDossier(doc, dossier.namespace)
      case Ok(plan) => Ok([plan])
      case Err(e) => Err(e)
    else PlanDocuments(doc, dossier.namespace, targets)
  }

  /** Everything decided before anything is written. */
  function PlanRun(doc: Node, dossier: Dossier, request: SignRequest): Result<seq<Plan>, SignError> {
    if RefusesPlacement(doc, request.scope) then Err(DocumentAlreadySigned)
    else
      match Targets(dossier, request.scope, request.documents)
      case Err(e) => Err(e)
      case Ok(targets) => PlanSignatures(doc, dossier, request.scope, targets)
  }

  /** The planning loop. */
  method PlanEach(doc: Node, namespace: string, targets: seq<Document>) returns (r: Result<seq<Plan>, SignError>)
    ensures r == PlanDocuments(doc, namespace, targets)
  {
    hide PlanDocument;
    var plans: seq<Plan> := [];
    var i := 0;
    assert targets[0..] == targets;
    CarryNone(PlanDocuments(doc, namespace, targets));
    while i < |targets|
      invariant i <= |targets|
      invariant Carry(plans, PlanDocuments(doc, namespace, targets[i..])) == PlanDocuments(doc, namespace, targets)
    {
      assert targets[i..][1..] == targets[i + 1..];
      var plan := PlanDocument(doc, namespace, targets[i]);
      if plan.Err? {
        return Err(plan.error);
      }
      CarryOne(plans, plan.value, PlanDocuments(doc, namespace, targets[i + 1..]));
      plans := plans + [plan.value];
      i := i + 1;
    }
    assert plans + [] == plans;
    return Ok(plans);
  }

  // ---------------------------------------------------- a run writes something

  lemma {:induction false} SelectGrows(dossier: Dossier, selectors: seq<string>, selected: seq<Document>)
    requires Select(dossier, selectors, selected).Ok? && (selectors != [] || selected != [])
    ensures Select(dossier, selectors, selected).value != []
    decreases |selectors|
  {
    hide ResolveSelector;
    if selectors != [] {
      var d := ResolveSelector(dossier, selectors[0]).value;
      if HasIndex(selected, d.index) {
        assert selected != [];
      }
      SelectGrows(dossier, selectors[1..], if HasIndex(selected, d.index) then selected else selected + [d]);
    }
  }

  lemma {:induction false} SortKeepsLength(documents: seq<Document>)
    ensures |SortByIndex(documents)| == |documents|
  {
    if documents != [] {
      SortKeepsLength(documents[..|documents| - 1]);
      InsertLengthens(SortByIndex(documents[..|documents| - 1]), documents[|documents| - 1]);
    }
  }

  lemma {:induction false} InsertLengthens(sorted: seq<Document>, d: Document)
    ensures |InsertByIndex(sorted, d)| == |sorted| + 1
  {
    if sorted != [] { InsertLengthens(sorted[1..], d); }
  }

  lemma TargetsExist(dossier: Dossier, selectors: seq<string>)
    requires Targets(dossier, DocumentScope, selectors).Ok?
    ensures Targets(dossier, DocumentScope, selectors).value != []
  {
    if selectors != [] {
      SelectGrows(dossier, selectors, []);
      SortKeepsLength(Select(dossier, selectors, []).value);
    }
  }

  /** Planning never comes back with nothing to write. */
  lemma PlansExist(doc: Node, dossier: Dossier, request: SignRequest)
    requires PlanRun(doc, dossier, request).Ok?
    ensures PlanRun(doc, dossier, request).value != []
  {
    hide PlanDocument, PlanDossier, RefusesPlacement, Targets, CheckNamespace;
    if request.scope == DocumentScope {
      TargetsExist(dossier, request.documents);
    }
  }
}
