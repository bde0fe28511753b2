/**
 The verifier's side of a container timestamp: where it sits, what its
 `xades:Include` children name, whether that covers what the e-dossier format
 requires, and the octets its token has to be over.

 Verifying the token itself is not part of this model.
 */
module ContainerStamps {
  import opened Wrappers
  import opened XmlTree
  import opened C14n
  import opened Ids
  import opened Dossier
  import opened References
  import opened ReferenceParsing
  import opened Scope

  datatype ContainerScope = OnDossier | OnDocument(index: nat)

  /** Why a timestamp was not digested. */
  datatype StampGap = Misplaced | OtherSelection | NoInclude | NotSameDocument | Unresolved | Uncovered(what: string)
                    | UnknownMethod | NotCanonical | NoToken | ManyTokens

  datatype Prepared = Prepared(scope: ContainerScope, token: string, imprint: string, gap: Option<StampGap>)

  function Unprepared(scope: ContainerScope, gap: StampGap): Prepared {
    Prepared(scope, "", "", Some(gap))
  }

  const MAX_INCLUDES: nat := 64

  /** Base64 decoding, white space ignored. */
  type Decoder = string -> Option<string>

  function XadesKids(kids: seq<Node>, name: string): seq<Node> {
    if kids == [] then [] else (if IsXades(kids[0], name) then [kids[0]] else []) + XadesKids(kids[1..], name)
  }

  /** A data selection this verifier does not implement. */
  predicate SelectsOtherwise(n: Node) {
    n.Element? && (n.local == "ReferenceInfo" || n.local == "HashDataInfo" || n.local == "XMLTimeStamp")
  }

  function Includes(node: Node): seq<Node> {
    var all := XadesKids(Kids(node), "Include");
    if |all| <= MAX_INCLUDES then all else all[..MAX_INCLUDES]
  }

  function ResolveIncludes(ids: map<string, Path>, includes: seq<Node>): Result<seq<Path>, StampGap> {
    if includes == [] then Ok([])
    else
      var uri := OrEmpty(AttributeOf(includes[0], "URI"));
      if |uri| < 2 || uri[0] != '#' then Err(NotSameDocument)
      else if uri[1..] !in ids then Err(Unresolved)
      else
        match ResolveIncludes(ids, includes[1..])
        case Err(e) => Err(e)
        case Ok(rest) => Ok([ids[uri[1..]]] + rest)
  }

  /** The documents the parser numbers. */
  function DocumentNodes(doc: Node, namespace: string): seq<Path> {
    match ChildNamed(doc, RootElement(doc), namespace, "Documents")
    case None => []
    case Some(documents) =>
      ChildrenNamedExact(doc, RootElement(doc), namespace, "Documents", documents);
      NodesValid(doc, documents, namespace);
      WithProfile(doc, ChildrenNamed(doc, documents, namespace, "Document"), namespace)
  }

  /** Where a timestamp sits decides what it must cover. */
  function ScopeOfStamp(doc: Node, namespace: string, documentNodes: seq<Path>, stamp: Path): Option<ContainerScope>
    requires Valid(doc, stamp)
  {
    if stamp == [] then None
    else
      AbovePath(doc, stamp);
      var parent := Parent(stamp);
      if parent == RootElement(doc) then Some(OnDossier)
      else if !IsNamed(At(doc, parent), namespace, "Document") then None
      else match IndexOf(documentNodes, parent)
        case Some(i) => Some(OnDocument(i))
        case None => None
  }

  function NamedPayload(doc: Node, ids: map<string, Path>, namespace: string, document: Path): Option<Path>
    requires Valid(doc, document)
  {
    match ChildNamed(doc, document, namespace, "DocumentProfile")
    case None => None
    case Some(profile) =>
      ChildrenNamedExact(doc, document, namespace, "DocumentProfile", profile);
      match AttributeOf(At(doc, profile), "OBJREF")
      case None => None
      case Some(objref) => if objref in ids then Some(ids[objref]) else None
  }

  /** A document's payload: the object its profile names, or else its first `ds:Object`. */
  function PayloadOf(doc: Node, ids: map<string, Path>, namespace: string, document: Path): Option<Path>
    requires Valid(doc, document)
  {
    var named := NamedPayload(doc, ids, namespace, document);
    if named.Some? then named else ChildNamed(doc, document, XMLDSIG, "Object")
  }

  /** The elements a timestamp has to cover, with what they are called. */
  function MustCover(doc: Node, ids: map<string, Path>, namespace: string, scope: ContainerScope, documentNodes: seq<Path>)
    : seq<(Option<Path>, string)>
  {
    match scope
    case OnDossier =>
      [(ChildNamed(doc, RootElement(doc), namespace, "DossierProfile"), "the es:DossierProfile"),
       (ChildNamed(doc, RootElement(doc), namespace, "Documents"), "the es:Documents element")]
    case OnDocument(i) =>
      if i < |documentNodes| && Valid(doc, documentNodes[i]) then
        [(ChildNamed(doc, documentNodes[i], namespace, "DocumentProfile"), "the document's es:DocumentProfile"),
         (PayloadOf(doc, ids, namespace, documentNodes[i]), "the document's payload ds:Object")]
      else []
  }

  /** An included element is `p` or above it. */
  predicate Included(resolved: seq<Path>, p: Path) {
    exists t :: t in resolved && t <= p
  }

  /** The first required element no include covers. */
  function FirstUncovered(required: seq<(Option<Path>, string)>, resolved: seq<Path>): Option<string> {
    if required == [] then None
    else if required[0].0.Some? && !Included(resolved, required[0].0.value) then Some(required[0].1)
    else FirstUncovered(required[1..], resolved)
  }

  method FindUncovered(required: seq<(Option<Path>, string)>, resolved: seq<Path>) returns (missing: Option<string>)
    ensures missing == FirstUncovered(required, resolved)
    ensures missing.None? <==> forall r :: r in required && r.0.Some? ==> Included(resolved, r.0.value)
  {
    var i := 0;
    while i < |required|
      invariant i <= |required| && FirstUncovered(required, resolved) == FirstUncovered(required[i..], resolved)
      invariant forall k :: 0 <= k < i && required[k].0.Some? ==> Included(resolved, required[k].0.value)
    {
      assert required[i..][1..] == required[i + 1..];
      if required[i].0.Some? && !Included(resolved, required[i].0.value) {
        assert required[i] in required;
        return Some(required[i].1);
      }
      i := i + 1;
    }
    return None;
  }

  /** The canonicalization a timestamp names, inclusive when it names none. */
  function MethodOf(node: Node): Option<(Algorithm, seq<string>)> {
    match KidNamed(node, XMLDSIG, "CanonicalizationMethod")
    case None => Some((Inclusive(false), []))
    case Some(named) =>
      match AlgorithmOf(OrEmpty(AttributeOf(named, "Algorithm")))
      case None => None
      case Some(algorithm) => Some((algorithm, InclusivePrefixes(named)))
  }

  predicate AllTargets(doc: Node, ps: seq<Path>) {
    forall p :: p in ps ==> Target(doc, p)
  }

  /** Each included element on its own, in the order of the includes. */
  function ImprintOver(doc: Node, resolved: seq<Path>, algorithm: Algorithm, prefixes: seq<string>): string
    requires AllTargets(doc, resolved)
  {
    if resolved == [] then ""
    else
      assert resolved[0] in resolved;
      Octets(doc, WithoutComments(Subtree(resolved[0])), algorithm, prefixes) + ImprintOver(doc, resolved[1..], algorithm, prefixes)
  }

  method ComputeImprint(doc: Node, resolved: seq<Path>, algorithm: Algorithm, prefixes: seq<string>) returns (imprint: string)
    requires AllTargets(doc, resolved)
    ensures imprint == ImprintOver(doc, resolved, algorithm, prefixes)
  {
    hide Octets;
    imprint := "";
    var i := 0;
    assert resolved[0..] == resolved;
    while i < |resolved|
      invariant i <= |resolved| && AllTargets(doc, resolved[i..])
      invariant imprint + ImprintOver(doc, resolved[i..], algorithm, prefixes) == ImprintOver(doc, resolved, algorithm, prefixes)
    {
      assert resolved[i..][1..] == resolved[i + 1..] && resolved[i] in resolved;
      var octets := Renderer.Canonicalize(doc, WithoutComments(Subtree(resolved[i])), algorithm, prefixes);
      imprint := imprint + octets;
      i := i + 1;
    }
    assert resolved[i..] == [];
  }

  function Tokens(decode: Decoder, nodes: seq<Node>): seq<string> {
    if nodes == [] then []
    else (match decode(TextOf(Kids(nodes[0])))
          case Some(token) => [token]
          case None => [])
         + Tokens(decode, nodes[1..])
  }

  /** The one token, and the octets it has to be over. */
  function WithToken(scope: ContainerScope, tokens: seq<string>, imprint: string): Prepared {
    if |tokens| == 0 then Unprepared(scope, NoToken)
    else if |tokens| > 1 then Unprepared(scope, ManyTokens)
    else Prepared(scope, tokens[0], imprint, None)
  }

  /** Resolve a timestamp into the octets its token must be over. */
  function Prepare(doc: Node, ids: map<string, Path>, namespace: string, decode: Decoder, stamp: Path, scope: ContainerScope,
                   documentNodes: seq<Path>): Prepared
    requires Valid(doc, stamp)
  {
    var node := At(doc, stamp);
    if exists kid :: kid in Kids(node) && SelectsOtherwise(kid) then Unprepared(scope, OtherSelection)
    else if Includes(node) == [] then Unprepared(scope, NoInclude)
    else
      match ResolveIncludes(ids, Includes(node))
      case Err(gap) => Unprepared(scope, gap)
      case Ok(resolved) =>
        match FirstUncovered(MustCover(doc, ids, namespace, scope, documentNodes), resolved)
        case Some(what) => Unprepared(scope, Uncovered(what))
        case None =>
          match MethodOf(node)
          case None => Unprepared(scope, UnknownMethod)
          case Some((algorithm, prefixes)) =>
            if !AllTargets(doc, resolved) then Unprepared(scope, NotCanonical)
            else WithToken(scope, Tokens(decode, XadesKids(Kids(node), "EncapsulatedTimeStamp")),
                           ImprintOver(doc, resolved, algorithm, prefixes))
  }

  method ResolveEach(ids: map<string, Path>, includes: seq<Node>) returns (r: Result<seq<Path>, StampGap>)
    ensures r == ResolveIncludes(ids, includes)
  {
    hide AttributeOf;
    var resolved: seq<Path> := [];
    var i := 0;
    assert includes[0..] == includes;
    CarryNone(ResolveIncludes(ids, includes));
    while i < |includes|
      invariant i <= |includes| && Carry(resolved, ResolveIncludes(ids, includes[i..])) == ResolveIncludes(ids, includes)
    {
      assert includes[i..][1..] == includes[i + 1..];
      var uri := OrEmpty(AttributeOf(includes[i], "URI"));
      if |uri| < 2 || uri[0] != '#' {
        return Err(NotSameDocument);
      }
      if uri[1..] !in ids {
        return Err(Unresolved);
      }
      CarryOne(resolved, ids[uri[1..]], ResolveIncludes(ids, includes[i + 1..]));
      resolved := resolved + [ids[uri[1..]]];
      i := i + 1;
    }
    assert resolved + [] == resolved;
    return Ok(resolved);
  }

  /** The preparation, step by step. */
  method PrepareIn(doc: Node, ids: map<string, Path>, namespace: string, decode: Decoder, stamp: Path, scope: ContainerScope,
                   documentNodes: seq<Path>) returns (prepared: Prepared)
    requires Valid(doc, stamp)
    ensures prepared == Prepare(doc, ids, namespace, decode, stamp, scope, documentNodes)
  {
    hide Valid, At, Includes, MustCover, FirstUncovered, MethodOf, ImprintOver, Tokens, XadesKids, ResolveIncludes, SelectsOtherwise, Octets;
    var node := At(doc, stamp);
    if exists kid :: kid in Kids(node) && SelectsOtherwise(kid) {
      return Unprepared(scope, OtherSelection);
    }
    var includes := Includes(node);
    if includes == [] {
      return Unprepared(scope, NoInclude);
    }
    var resolved := ResolveEach(ids, includes);
    if resolved.Err? {
      return Unprepared(scope, resolved.error);
    }
    var missing := FindUncovered(MustCover(doc, ids, namespace, scope, documentNodes), resolved.value);
    if missing.Some? {
      return Unprepared(scope, Uncovered(missing.value));
    }
    var named := MethodOf(node);
    if named.None? {
      return Unprepared(scope, UnknownMethod);
    }
    if !AllTargets(doc, resolved.value) {
      return Unprepared(scope, NotCanonical);
    }
    var imprint := ComputeImprint(doc, resolved.value, named.value.0, named.value.1);
    return WithToken(scope, Tokens(decode, XadesKids(Kids(node), "EncapsulatedTimeStamp")), imprint);
  }

  // -------------------------------------------------------- the whole container

  function StampsIn(doc: Node, namespace: string, paths: seq<Path>): seq<Path> {
    if paths == [] then []
    else (if Valid(doc, paths[0]) && IsNamed(At(doc, paths[0]), namespace, "TimeStamp") then [paths[0]] else [])
         + StampsIn(doc, namespace, paths[1..])
  }

  lemma {:induction false} StampsInExact(doc: Node, namespace: string, paths: seq<Path>)
    ensures forall p :: p in StampsIn(doc, namespace, paths)
                   <==> p in paths && Valid(doc, p) && IsNamed(At(doc, p), namespace, "TimeStamp")
  {
    hide IsNamed;
    if paths != [] {
      assert paths == [paths[0]] + paths[1..];
      StampsInExact(doc, namespace, paths[1..]);
    }
  }

  /** The timestamps of the container in document order, the first `limit` of them. */
  function StampPaths(doc: Node, namespace: string, limit: nat): seq<Path> {
    var root := RootElement(doc);
    var all := StampsIn(doc, namespace, Elements(At(doc, root), root));
    if |all| <= limit then all else all[..limit]
  }

  function PrepareOne(doc: Node, ids: map<string, Path>, namespace: string, decode: Decoder, stamp: Path): Prepared
    requires Valid(doc, stamp)
  {
    var nodes := DocumentNodes(doc, namespace);
    match ScopeOfStamp(doc, namespace, nodes, stamp)
    case None => Unprepared(OnDossier, Misplaced)
    case Some(scope) => Prepare(doc, ids, namespace, decode, stamp, scope, nodes)
  }

  function PrepareEach(doc: Node, ids: map<string, Path>, namespace: string, decode: Decoder, stamps: seq<Path>): seq<Prepared>
    requires AllValidPaths(doc, stamps)
  {
    if stamps == [] then []
    else
      assert stamps[0] in stamps;
      [PrepareOne(doc, ids, namespace, decode, stamps[0])] + PrepareEach(doc, ids, namespace, decode, stamps[1..])
  }

  lemma StampPathsValid(doc: Node, namespace: string, limit: nat)
    ensures AllValidPaths(doc, StampPaths(doc, namespace, limit))
  {
    StampsInExact(doc, namespace, Elements(At(doc, RootElement(doc)), RootElement(doc)));
  }

  /** One round of the collecting loop. */
  method PrepareStamp(doc: Node, ids: map<string, Path>, namespace: string, decode: Decoder, stamp: Path, nodes: seq<Path>)
    returns (prepared: Prepared)
    requires Valid(doc, stamp) && nodes == DocumentNodes(doc, namespace)
    ensures prepared == PrepareOne(doc, ids, namespace, decode, stamp)
  {
    hide Prepare, ScopeOfStamp, DocumentNodes, Valid;
    var scope := ScopeOfStamp(doc, namespace, nodes, stamp);
    if scope.None? {
      return Unprepared(OnDossier, Misplaced);
    }
    prepared := PrepareIn(doc, ids, namespace, decode, stamp, scope.value, nodes);
  }

  /** The collecting loop. */
  method Collect(doc: Node, ids: map<string, Path>, namespace: string, decode: Decoder, limit: nat) returns (found: seq<Prepared>)
    ensures AllValidPaths(doc, StampPaths(doc, namespace, limit))
    ensures found == PrepareEach(doc, ids, namespace, decode, StampPaths(doc, namespace, limit))
  {
    hide PrepareOne, DocumentNodes, StampPaths, Valid, RootElement, IsNamed;
    StampPathsValid(doc, namespace, limit);
    var stamps := StampPaths(doc, namespace, limit);
    var nodes := DocumentNodes(doc, namespace);
    found := [];
    var i := 0;
    assert stamps[0..] == stamps;
    while i < |stamps|
      invariant i <= |stamps| && AllValidPaths(doc, stamps[i..])
      invariant found + PrepareEach(doc, ids, namespace, decode, stamps[i..]) == PrepareEach(doc, ids, namespace, decode, stamps)
    {
      assert stamps[i..][1..] == stamps[i + 1..] && stamps[i..][0] == stamps[i] && stamps[i] in stamps[i..];
      var prepared := PrepareStamp(doc, ids, namespace, decode, stamps[i], nodes);
      found := found + [prepared];
      i := i + 1;
    }
    assert stamps[i..] == [];
  }
}
