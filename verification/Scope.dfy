/**
 The verifier's rules about placement: what a signature's surroundings make of
 it, and what its references must reach for that.
 */
module Scope {
  import opened Wrappers
  import opened XmlTree
  import opened Ids
  import opened Dossier
  import opened References
  import opened ReferenceParsing

  const XADES_NAMESPACES: seq<string> := [
    "http://uri.etsi.org/01903/v1.3.2#", "http://uri.etsi.org/01903/v1.2.2#",
    "http://uri.etsi.org/01903/v1.1.1#", "http://uri.etsi.org/01903/v1.4.1#"]

  datatype SignatureScope = InDocument | InDossier | Countersignature | UnknownPlacement

  datatype Placement = Placement(scope: SignatureScope, enclosing: Option<Path>, enclosingIndex: Option<nat>)

  /** What every signature of a dossier is judged against. */
  datatype Context = Context(doc: Node, namespace: string, allowed: seq<string>, signatures: seq<Path>)

  // -------------------------------------------------------------- placement

  predicate IsDsSignature(n: Node) {
    IsNamed(n, XMLDSIG, "Signature")
  }

  predicate IsXades(n: Node, name: string) {
    n.Element? && n.local == name && n.ns in XADES_NAMESPACES
  }

  function Parent(p: Path): Path
    requires p != []
  {
    p[..|p| - 1]
  }

  /** The owner of a node: the lowest signature on its own path, the node included. */
  function OwningSignature(doc: Node, p: Path): Option<Path>
    requires Valid(doc, p)
    decreases |p|
  {
    if IsDsSignature(At(doc, p)) then Some(p)
    else if p == [] then None
    else
      AbovePath(doc, p);
      OwningSignature(doc, Parent(p))
  }

  /** The owner of a node's parent. */
  function EnclosingSignature(doc: Node, p: Path): Option<Path>
    requires Valid(doc, p)
  {
    if p == [] then None
    else
      AbovePath(doc, p);
      OwningSignature(doc, Parent(p))
  }

  lemma AbovePath(doc: Node, p: Path)
    requires Valid(doc, p) && p != []
    ensures Valid(doc, Parent(p))
  {
    assert p == Parent(p) + [p[|p| - 1]];
    AtConcat(doc, Parent(p), [p[|p| - 1]]);
  }

  function IndexOf(signatures: seq<Path>, p: Path): Option<nat> {
    if signatures == [] then None
    else if signatures[0] == p then Some(0)
    else match IndexOf(signatures[1..], p)
      case Some(i) => Some(i + 1)
      case None => None
  }

  function Unsupported(enclosing: Option<Path>, index: Option<nat>): Placement {
    Placement(UnknownPlacement, enclosing, index)
  }

  /** A signature inside another one, `parent` being its own parent. */
  function NestedPlacement(c: Context, parent: Path, enclosing: Path, index: Option<nat>): Placement
    requires Valid(c.doc, parent)
  {
    var unsupported := Unsupported(Some(enclosing), index);
    if !IsXades(At(c.doc, parent), "CounterSignature") then unsupported
    else if |ChildrenNamed(c.doc, parent, XMLDSIG, "Signature")| != 1 then unsupported
    else if parent == [] then unsupported
    else
      AbovePath(c.doc, parent);
      var properties := Parent(parent);
      if !IsXades(At(c.doc, properties), "UnsignedSignatureProperties") then unsupported
      else if EnclosingSignature(c.doc, properties) != Some(enclosing) then unsupported
      else if index.None? then unsupported
      else Placement(Countersignature, Some(enclosing), index)
  }

  /** Classify a signature by where it sits. */
  function PlacementOf(c: Context, signature: Path): Placement
    requires Valid(c.doc, signature)
  {
    var enclosing := EnclosingSignature(c.doc, signature);
    var index := if enclosing.Some? then IndexOf(c.signatures, enclosing.value) else None;
    if signature == [] then Unsupported(enclosing, index)
    else
      AbovePath(c.doc, signature);
      var parent := Parent(signature);
      if !At(c.doc, parent).Element? then Unsupported(enclosing, index)
      else if enclosing.Some? then NestedPlacement(c, parent, enclosing.value, index)
      else if IsNamed(At(c.doc, parent), c.namespace, "Document") then Placement(InDocument, None, None)
      else if IsNamed(At(c.doc, parent), c.namespace, "Dossier") then Placement(InDossier, None, None)
      else Unsupported(None, None)
  }

  // ------------------------------------------------------------ what satisfies

  /** This signature's own `es:SignatureProfile`, in an allowed namespace. */
  predicate IsOwnProfile(c: Context, signature: Path, p: Path) {
    && Valid(c.doc, p) && At(c.doc, p).Element? && At(c.doc, p).local == "SignatureProfile"
    && At(c.doc, p).ns != "" && At(c.doc, p).ns in c.allowed
    && OwningSignature(c.doc, p) == Some(signature)
  }

  function FirstProfile(c: Context, signature: Path, nodes: seq<Path>): Option<Path> {
    if nodes == [] then None
    else if IsOwnProfile(c, signature, nodes[0]) then Some(nodes[0])
    else FirstProfile(c, signature, nodes[1..])
  }

  /** The first own profile below one of the objects. */
  function ProfileIn(c: Context, signature: Path, object': Path): Option<Path>
    requires Valid(c.doc, object')
  {
    FirstProfile(c, signature, Elements(At(c.doc, object'), object'))
  }

  predicate AllValidPaths(doc: Node, ps: seq<Path>) {
    forall p :: p in ps ==> Valid(doc, p)
  }

  function ProfilePairs(c: Context, signature: Path, objects: seq<Path>): seq<Path>
    requires AllValidPaths(c.doc, objects)
  {
    if objects == [] then []
    else
      assert objects[0] in objects;
      (match ProfileIn(c, signature, objects[0])
       case Some(profile) => [objects[0], profile]
       case None => [])
      + ProfilePairs(c, signature, objects[1..])
  }

  lemma ChildrenValid(doc: Node, p: Path, ns: string, local: string)
    requires Valid(doc, p)
    ensures AllValidPaths(doc, ChildrenNamed(doc, p, ns, local))
  {
    forall x | x in ChildrenNamed(doc, p, ns, local)
      ensures Valid(doc, x)
    {
      ChildrenNamedExact(doc, p, ns, local, x);
    }
  }

  /** What counts as a signature's profile object: an object with such a profile in it, that profile, or else the
      first object. */
  function SignatureProfileNodes(c: Context, signature: Path): seq<Path>
    requires Valid(c.doc, signature)
  {
    ChildrenValid(c.doc, signature, XMLDSIG, "Object");
    var objects := ChildrenNamed(c.doc, signature, XMLDSIG, "Object");
    var nodes := ProfilePairs(c, signature, objects);
    if nodes == [] && objects != [] then [objects[0]] else nodes
  }

  /** Every `xades:SignedProperties` this signature owns. */
  predicate IsOwnProperties(doc: Node, signature: Path, p: Path) {
    Valid(doc, p) && signature <= p && IsXades(At(doc, p), "SignedProperties") && OwningSignature(doc, p) == Some(signature)
  }

  function OwnProperties(doc: Node, signature: Path, nodes: seq<Path>): seq<Path> {
    if nodes == [] then []
    else (if IsOwnProperties(doc, signature, nodes[0]) then [nodes[0]] else []) + OwnProperties(doc, signature, nodes[1..])
  }

  function SignedProperties(doc: Node, signature: Path): seq<Path>
    requires Valid(doc, signature)
  {
    OwnProperties(doc, signature, Elements(At(doc, signature), signature))
  }

  // -------------------------------------------------------------- the required set

  datatype Requirement = Requirement(name: string, candidates: seq<Path>)

  function OneOrNone(p: Option<Path>): seq<Path> {
    match p
    case Some(v) => [v]
    case None => []
  }

  function FirstOther(paths: seq<Path>, p: Path): Option<Path> {
    if paths == [] then None else if paths[0] != p then Some(paths[0]) else FirstOther(paths[1..], p)
  }

  /** What the placement alone requires; nothing when that is undefined. */
  function PlacementRequires(c: Context, signature: Path, placement: Placement): Option<seq<Requirement>>
    requires Valid(c.doc, signature) && (placement.enclosing.Some? ==> Valid(c.doc, placement.enclosing.value))
  {
    match placement.scope
    case InDocument =>
      if signature == [] then None
      else
        AbovePath(c.doc, signature);
        var document := Parent(signature);
        var profile := ChildNamed(c.doc, document, c.namespace, "DocumentProfile");
        if profile.None? then None
        else Some([Requirement("es:DocumentProfile", [profile.value]),
                   Requirement("es:Document/ds:Object",
                               OneOrNone(FirstOther(ChildrenNamed(c.doc, document, XMLDSIG, "Object"), signature)))])
    case InDossier =>
      var root := RootElement(c.doc);
      Some([Requirement("es:DossierProfile", OneOrNone(ChildNamed(c.doc, root, c.namespace, "DossierProfile"))),
            Requirement("es:Documents", OneOrNone(ChildNamed(c.doc, root, c.namespace, "Documents")))])
    case Countersignature =>
      if placement.enclosing.None? then None
      else
        var value := ChildNamed(c.doc, placement.enclosing.value, XMLDSIG, "SignatureValue");
        if value.None? then None else Some([Requirement("the countersigned ds:SignatureValue", [value.value])])
    case UnknownPlacement => None
  }

  function HasOwnProfile(c: Context, signature: Path): bool
    requires Valid(c.doc, signature)
  {
    ChildrenValid(c.doc, signature, XMLDSIG, "Object");
    ProfilePairs(c, signature, ChildrenNamed(c.doc, signature, XMLDSIG, "Object")) != []
  }

  function Required(c: Context, signature: Path, placement: Placement, xades: bool): Option<seq<Requirement>>
    requires Valid(c.doc, signature) && (placement.enclosing.Some? ==> Valid(c.doc, placement.enclosing.value))
  {
    match PlacementRequires(c, signature, placement)
    case None => None
    case Some(first) =>
      Some(first
           + (if placement.scope != Countersignature || HasOwnProfile(c, signature)
              then [Requirement("ds:Signature/ds:Object holding es:SignatureProfile", SignatureProfileNodes(c, signature))] else [])
           + (if xades then [Requirement("xades:SignedProperties", SignedProperties(c.doc, signature))] else []))
  }

  /** Some reference covers the node. */
  predicate CoveredBySome(scopes: seq<ReferenceScope>, p: Path) {
    exists s :: s in scopes && Covers(s, p)
  }

  predicate Met(r: Requirement, scopes: seq<ReferenceScope>) {
    exists p :: p in r.candidates && CoveredBySome(scopes, p)
  }

  function Missing(required: seq<Requirement>, scopes: seq<ReferenceScope>): seq<string> {
    if required == [] then []
    else (if Met(required[0], scopes) then [] else [required[0].name]) + Missing(required[1..], scopes)
  }

  datatype ScopeOutcome = ScopeComplete | ScopeIncomplete(missing: seq<string>) | ScopeUnknown

  /** The reference-scope rule. */
  function ReferenceScopeCheck(c: Context, signature: Path, placement: Placement, xades: bool, scopes: seq<ReferenceScope>)
    : ScopeOutcome
    requires Valid(c.doc, signature) && (placement.enclosing.Some? ==> Valid(c.doc, placement.enclosing.value))
  {
    match Required(c, signature, placement, xades)
    case None => ScopeUnknown
    case Some(required) =>
      if Missing(required, scopes) == [] then ScopeComplete else ScopeIncomplete(Missing(required, scopes))
  }

  lemma {:induction false} MissingExact(required: seq<Requirement>, scopes: seq<ReferenceScope>)
    ensures Missing(required, scopes) == [] <==> forall r :: r in required ==> Met(r, scopes)
    ensures forall name :: name in Missing(required, scopes)
                      <==> exists r :: r in required && r.name == name && !Met(r, scopes)
  {
    hide Met;
    if required != [] {
      assert required == [required[0]] + required[1..];
      MissingExact(required[1..], scopes);
    }
  }

  /** The loop that looks for what is missing. */
  method FindMissing(required: seq<Requirement>, scopes: seq<ReferenceScope>) returns (missing: seq<string>)
    ensures missing == Missing(required, scopes)
    ensures missing == [] <==> forall r :: r in required ==> Met(r, scopes)
  {
    hide Met;
    MissingExact(required, scopes);
    missing := [];
    var i := 0;
    while i < |required|
      invariant i <= |required|
      invariant missing + Missing(required[i..], scopes) == Missing(required, scopes)
    {
      assert required[i..][1..] == required[i + 1..];
      if !Met(required[i], scopes) {
        missing := missing + [required[i].name];
      }
      i := i + 1;
    }
    assert required[i..] == [];
  }

  /** What is collected, with what the remaining objects will add, is the whole. */
  predicate Collecting(c: Context, signature: Path, objects: seq<Path>, i: nat, nodes: seq<Path>) {
    && i <= |objects| && AllValidPaths(c.doc, objects) && AllValidPaths(c.doc, objects[i..])
    && nodes + ProfilePairs(c, signature, objects[i..]) == ProfilePairs(c, signature, objects)
  }

  lemma CollectStart(c: Context, signature: Path, objects: seq<Path>)
    requires AllValidPaths(c.doc, objects)
    ensures Collecting(c, signature, objects, 0, [])
  {
    hide ProfilePairs, Valid;
    assert objects[0..] == objects;
    assert [] + ProfilePairs(c, signature, objects) == ProfilePairs(c, signature, objects);
  }

  lemma CollectStep(c: Context, signature: Path, objects: seq<Path>, i: nat, nodes: seq<Path>)
    requires Collecting(c, signature, objects, i, nodes) && i < |objects|
    ensures Valid(c.doc, objects[i])
    ensures Collecting(c, signature, objects, i + 1,
                       match ProfileIn(c, signature, objects[i])
                       case Some(profile) => nodes + [objects[i], profile]
                       case None => nodes)
  {
    hide ProfileIn, Valid;
    assert objects[i] in objects && objects[i..][0] == objects[i] && objects[i..][1..] == objects[i + 1..];
    assert AllValidPaths(c.doc, objects[i + 1..]);
    var rest := ProfilePairs(c, signature, objects[i + 1..]);
    match ProfileIn(c, signature, objects[i]) {
      case Some(profile) => assert nodes + ([objects[i], profile] + rest) == nodes + [objects[i], profile] + rest;
      case None => assert [] + rest == rest;
    }
  }

  lemma CollectEnd(c: Context, signature: Path, objects: seq<Path>, nodes: seq<Path>)
    requires Collecting(c, signature, objects, |objects|, nodes)
    ensures nodes == ProfilePairs(c, signature, objects)
  {
    assert objects[|objects|..] == [];
  }

  /** The loop over the signature's objects. */
  method CollectProfileNodes(c: Context, signature: Path) returns (nodes: seq<Path>)
    requires Valid(c.doc, signature)
    ensures nodes == SignatureProfileNodes(c, signature)
  {
    hide ChildrenNamed, ProfileIn, Valid, Collecting, ProfilePairs;
    ChildrenValid(c.doc, signature, XMLDSIG, "Object");
    var objects := ChildrenNamed(c.doc, signature, XMLDSIG, "Object");
    nodes := [];
    CollectStart(c, signature, objects);
    var i := 0;
    while i < |objects|
      invariant i <= |objects| && Collecting(c, signature, objects, i, nodes)
    {
      CollectStep(c, signature, objects, i, nodes);
      var profile := ProfileIn(c, signature, objects[i]);
      if profile.Some? {
        nodes := nodes + [objects[i], profile.value];
      }
      i := i + 1;
    }
    CollectEnd(c, signature, objects, nodes);
    if nodes == [] && objects != [] {
      nodes := [objects[0]];
    }
  }

  // ------------------------------------------------------ a signature's scopes

  function ScopesOfReferences(doc: Node, ids: map<string, Path>, signature: Path, nodes: seq<Node>): seq<ReferenceScope> {
    if nodes == [] then []
    else
      var reference := ParseReference(nodes[0]);
      (match ResolveReference(ids, reference.uri)
       case Some(t) => [EffectiveNodeSet(signature, reference.transforms, t)]
       case None => [])
      + ScopesOfReferences(doc, ids, signature, nodes[1..])
  }

  /** The scopes of a signature's references, of those that resolve and of at most `limit`. */
  function ScopesOf(doc: Node, ids: map<string, Path>, signature: Path, limit: nat): seq<ReferenceScope>
    requires Valid(doc, signature)
  {
    match KidNamed(At(doc, signature), XMLDSIG, "SignedInfo")
    case None => []
    case Some(info) =>
      var nodes := KidsNamed(Kids(info), XMLDSIG, "Reference");
      ScopesOfReferences(doc, ids, signature, if |nodes| <= limit then nodes else nodes[..limit])
  }
}
