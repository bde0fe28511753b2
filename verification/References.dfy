/**
 One `ds:Reference`: what its transform chain digests, and what it covers.

 The two are computed separately. `DigestOctets` threads a value through the
 chain and hashes octets; `EffectiveNodeSet` only tracks which nodes are left,
 and `Covers` answers from it. The theorems tie them together: the elements a
 digest reads are the ones the scope covers, and nothing it does not cover can
 change the octets.

 Base64 and the hashes are functions handed in; nothing is assumed of them.
 */
module References {
  import opened Wrappers
  import opened XmlTree
  import opened C14n
  import Renderer

  const ENVELOPED_SIGNATURE: string := "http://www.w3.org/2000/09/xmldsig#enveloped-signature"
  const BASE64_TRANSFORM: string := "http://www.w3.org/2000/09/xmldsig#base64"
  const C14N_INCLUSIVE: string := "http://www.w3.org/TR/2001/REC-xml-c14n-20010315"
  const C14N_INCLUSIVE_WITH_COMMENTS: string := "http://www.w3.org/TR/2001/REC-xml-c14n-20010315#WithComments"
  const C14N_EXCLUSIVE: string := "http://www.w3.org/2001/10/xml-exc-c14n#"
  const C14N_EXCLUSIVE_WITH_COMMENTS: string := "http://www.w3.org/2001/10/xml-exc-c14n#WithComments"

  datatype Transform = EnvelopedSignature | Canonicalization(algorithm: Algorithm) | Base64

  function AlgorithmOf(uri: string): Option<Algorithm> {
    if uri == C14N_INCLUSIVE then Some(Inclusive(false))
    else if uri == C14N_INCLUSIVE_WITH_COMMENTS then Some(Inclusive(true))
    else if uri == C14N_EXCLUSIVE then Some(Exclusive(false))
    else if uri == C14N_EXCLUSIVE_WITH_COMMENTS then Some(Exclusive(true))
    else None
  }

  /** The transform allowlist. */
  function TransformOf(uri: string): Option<Transform> {
    if uri == ENVELOPED_SIGNATURE then Some(EnvelopedSignature)
    else if uri == BASE64_TRANSFORM then Some(Base64)
    else match AlgorithmOf(uri)
      case Some(algorithm) => Some(Canonicalization(algorithm))
      case None => None
  }

  datatype TransformStep = TransformStep(uri: string, prefixes: seq<string>)

  datatype Reference = Reference(uri: string, referenceType: Option<string>, transforms: seq<TransformStep>,
                                 digestUri: string, digestValue: string)

  /** Library code: Base64 of text and of octets (which must be text first), and the hashes by
      `ds:DigestMethod` URI, absent for a URI outside the allowlist. */
  datatype Library = Library(decodeText: string -> Option<string>, decodeOctets: string -> Option<string>,
                             hash: (string, string) -> Option<string>)

  /** A path a reference can resolve to: the document node or an element. */
  predicate Target(doc: Node, p: Path) {
    Valid(doc, p) && (At(doc, p).Root? || At(doc, p).Element?)
  }

  // ------------------------------------------------------------------- scope

  datatype ReferenceScope = ReferenceScope(apex: Option<Path>, excluded: seq<Path>, octets: bool)

  const NOTHING: ReferenceScope := ReferenceScope(None, [], false)

  /** Some listed node is `p` or an ancestor of it. */
  predicate AnyAbove(nodes: seq<Path>, p: Path) {
    exists e :: e in nodes && e <= p
  }

  /** Whether a node is in the effective node set. */
  predicate Covers(scope: ReferenceScope, p: Path) {
    && scope.apex.Some?
    && !AnyAbove(scope.excluded, p)
    && scope.apex.value <= p
    && (!scope.octets || p == scope.apex.value)
  }

  function Narrow(scope: ReferenceScope, signature: Path, transforms: seq<TransformStep>): ReferenceScope
    decreases |transforms|
  {
    if transforms == [] then scope
    else match TransformOf(transforms[0].uri)
      case Some(EnvelopedSignature) =>
        Narrow(scope.(excluded := scope.excluded + [signature]), signature, transforms[1..])
      case Some(Canonicalization(_)) => Narrow(scope, signature, transforms[1..])
      case Some(Base64) => Narrow(scope.(octets := true), signature, transforms[1..])
      case None => NOTHING
  }

  /** The nodes a resolved reference's digest covers. */
  function EffectiveNodeSet(signature: Path, transforms: seq<TransformStep>, resolved: Path): ReferenceScope {
    Narrow(ReferenceScope(Some(resolved), [], false), signature, transforms)
  }

  method ComputeEffectiveNodeSet(signature: Path, transforms: seq<TransformStep>, resolved: Path)
    returns (scope: ReferenceScope)
    ensures scope == EffectiveNodeSet(signature, transforms, resolved)
  {
    scope := ReferenceScope(Some(resolved), [], false);
    var i := 0;
    while i < |transforms|
      invariant i <= |transforms|
      invariant Narrow(scope, signature, transforms[i..]) == EffectiveNodeSet(signature, transforms, resolved)
    {
      assert transforms[i..][1..] == transforms[i + 1..];
      match TransformOf(transforms[i].uri) {
        case Some(EnvelopedSignature) => scope := scope.(excluded := scope.excluded + [signature]);
        case Some(Canonicalization(_)) =>
        case Some(Base64) => scope := scope.(octets := true);
        case None => return NOTHING;
      }
      i := i + 1;
    }
  }

  // ------------------------------------------------------------------ digest

  function CollectText(excluded: seq<Path>, path: Path, node: Node): string
    decreases node, 1
  {
    if path in excluded then ""
    else match node
      case Text(text, _) => text
      case Element(_, _, _, _, _, children, _, _) => CollectTexts(excluded, path, children, 0)
      case Root(children, _, _) => CollectTexts(excluded, path, children, 0)
      case Comment(_, _) => ""
      case PI(_, _, _) => ""
  }

  function CollectTexts(excluded: seq<Path>, parent: Path, kids: seq<Node>, k: nat): string
    decreases kids, 0
  {
    if kids == [] then "" else CollectText(excluded, parent + [k], kids[0])
                               + CollectTexts(excluded, parent, kids[1..], k + 1)
  }

  /** The concatenated text of a node set. */
  function StringValue(doc: Node, nodes: NodeSet): string
    requires Valid(doc, nodes.apex)
  {
    CollectText(nodes.excluded, nodes.apex, At(doc, nodes.apex))
  }

  datatype Value = Nodes(nodes: NodeSet) | Bytes(octets: string)

  predicate ProperValue(doc: Node, value: Value) {
    value.Nodes? ==> Target(doc, value.nodes.apex)
  }

  function Apply(doc: Node, library: Library, signature: Path, step: TransformStep, value: Value): (r: Option<Value>)
    requires ProperValue(doc, value)
    ensures r.Some? ==> ProperValue(doc, r.value)
  {
    match (TransformOf(step.uri), value)
    case (None, _) => None
    case (Some(EnvelopedSignature), Nodes(nodes)) =>
      if signature <= nodes.apex then None
      else Some(Nodes(nodes.(excluded := nodes.excluded + [signature])))
    case (Some(Canonicalization(algorithm)), Nodes(nodes)) =>
      Some(Bytes(Octets(doc, nodes, algorithm, step.prefixes)))
    case (Some(Base64), Nodes(nodes)) =>
      var decoded := library.decodeText(StringValue(doc, nodes));
      if decoded.Some? then Some(Bytes(decoded.value)) else None
    case (Some(Base64), Bytes(octets)) =>
      var decoded := library.decodeOctets(octets);
      if decoded.Some? then Some(Bytes(decoded.value)) else None
    case (Some(EnvelopedSignature), Bytes(_)) => None
    case (Some(Canonicalization(_)), Bytes(_)) => None
  }

  function ApplyAll(doc: Node, library: Library, signature: Path, steps: seq<TransformStep>, value: Value): (r: Option<Value>)
    requires ProperValue(doc, value)
    ensures r.Some? ==> ProperValue(doc, r.value)
    decreases |steps|
  {
    if steps == [] then Some(value)
    else
      var next := Apply(doc, library, signature, steps[0], value);
      if next.None? then None else ApplyAll(doc, library, signature, steps[1..], next.value)
  }

  /** A chain that ends as a node set is canonicalized the default way. */
  function FinalOctets(doc: Node, value: Value): string
    requires ProperValue(doc, value)
  {
    match value
    case Bytes(octets) => octets
    case Nodes(nodes) => Octets(doc, nodes, Inclusive(false), [])
  }

  /** The octets a reference to `node` digests, when the chain can be processed. */
  function DigestOctets(doc: Node, library: Library, signature: Path, transforms: seq<TransformStep>, node: Path)
    : Option<string>
    requires Target(doc, node)
  {
    var value := ApplyAll(doc, library, signature, transforms, Nodes(WithoutComments(Subtree(node))));
    if value.None? then None else Some(FinalOctets(doc, value.value))
  }

  /** `Some(true)` when the digest matches, `None` when it could not be computed. */
  function DigestMatches(doc: Node, library: Library, signature: Path, reference: Reference, node: Path): Option<bool>
    requires Target(doc, node)
  {
    var octets := DigestOctets(doc, library, signature, reference.transforms, node);
    if octets.None? then None
    else
      var computed := library.hash(reference.digestUri, octets.value);
      var expected := library.decodeText(reference.digestValue);
      if computed.None? || expected.None? then None else Some(computed.value == expected.value)
  }

  method DigestReference(doc: Node, library: Library, signature: Path, reference: Reference, node: Path)
    returns (r: Option<bool>)
    requires Target(doc, node)
    ensures r == DigestMatches(doc, library, signature, reference, node)
  {
    var value := Nodes(WithoutComments(Subtree(node)));
    var steps := reference.transforms;
    var i := 0;
    while i < |steps|
      invariant i <= |steps| && ProperValue(doc, value)
      invariant ApplyAll(doc, library, signature, steps[i..], value)
             == ApplyAll(doc, library, signature, steps, Nodes(WithoutComments(Subtree(node))))
    {
      assert steps[i..][1..] == steps[i + 1..];
      var transform := TransformOf(steps[i].uri);
      if transform.None? {
        return None;
      }
      match (transform.value, value) {
        case (EnvelopedSignature, Nodes(nodes)) =>
          if signature <= nodes.apex {
            return None;
          }
          value := Nodes(nodes.(excluded := nodes.excluded + [signature]));
        case (Canonicalization(algorithm), Nodes(nodes)) =>
          var octets := Renderer.Canonicalize(doc, nodes, algorithm, steps[i].prefixes);
          value := Bytes(octets);
        case (Base64, Nodes(nodes)) =>
          var decoded := library.decodeText(StringValue(doc, nodes));
          if decoded.None? {
            return None;
          }
          value := Bytes(decoded.value);
        case (Base64, Bytes(octets)) =>
          var decoded := library.decodeOctets(octets);
          if decoded.None? {
            return None;
          }
          value := Bytes(decoded.value);
        case (EnvelopedSignature, Bytes(_)) => return None;
        case (Canonicalization(_), Bytes(_)) => return None;
      }
      i := i + 1;
    }
    var octets;
    match value {
      case Bytes(bytes) => octets := bytes;
      case Nodes(nodes) => octets := Renderer.Canonicalize(doc, nodes, Inclusive(false), []);
    }
    var computed := library.hash(reference.digestUri, octets);
    if computed.None? {
      return None;
    }
    var expected := library.decodeText(reference.digestValue);
    if expected.None? {
      return None;
    }
    return Some(computed.value == expected.value);
  }

  /** What a URI names, going by the ID map: nothing, the document node, or one element. */
  function ResolveReference(ids: map<string, Path>, uri: string): Option<Path> {
    if uri == "" then Some([])
    else if uri[0] == '#' && uri[1..] in ids then Some(ids[uri[1..]])
    else None
  }
}
