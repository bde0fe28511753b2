/**
 The structural parser's view of a dossier: one `es:DossierProfile`, one
 `es:Documents`, and the documents that carry a profile, each with exactly one
 payload object its `OBJREF` names.

 Checks on declared sizes and on the length of payloads are not part of this
 model: they can only make the parser refuse more.
 */
module Dossier {
  import opened Wrappers
  import opened XmlTree
  import opened Ids

  // ---------------------------------------------------------------- children

  /** An element with this name. The empty namespace is no namespace, and names nothing. */
  predicate IsNamed(n: Node, ns: string, local: string) {
    n.Element? && ns != "" && n.ns == ns && n.local == local
  }

  function NamedFrom(kids: seq<Node>, parent: Path, k: nat, ns: string, local: string): seq<Path> {
    if kids == [] then []
    else (if IsNamed(kids[0], ns, local) then [parent + [k]] else []) + NamedFrom(kids[1..], parent, k + 1, ns, local)
  }

  /** The children of a node with this name, in order. */
  function ChildrenNamed(doc: Node, p: Path, ns: string, local: string): seq<Path>
    requires Valid(doc, p)
  {
    NamedFrom(Kids(At(doc, p)), p, 0, ns, local)
  }

  function ChildNamed(doc: Node, p: Path, ns: string, local: string): Option<Path>
    requires Valid(doc, p)
  {
    var all := ChildrenNamed(doc, p, ns, local);
    if all == [] then None else Some(all[0])
  }

  predicate IsKid(c: Path, parent: Path, k: nat, n: nat) {
    |c| == |parent| + 1 && parent < c && k <= c[|parent|] < k + n
  }

  lemma FirstKid(c: Path, parent: Path, k: nat, n: nat)
    requires n > 0
    ensures c == parent + [k] <==> IsKid(c, parent, k, 1)
    ensures IsKid(c, parent, k, n) <==> IsKid(c, parent, k, 1) || IsKid(c, parent, k + 1, n - 1)
  {}

  lemma {:induction false} NamedFromExact(kids: seq<Node>, parent: Path, k: nat, ns: string, local: string, c: Path)
    ensures c in NamedFrom(kids, parent, k, ns, local)
       <==> IsKid(c, parent, k, |kids|) && IsNamed(kids[c[|parent|] - k], ns, local)
  {
    if kids != [] {
      hide IsNamed;
      NamedFromExact(kids[1..], parent, k + 1, ns, local, c);
      FirstKid(c, parent, k, |kids|);
    }
  }

  lemma ChildAt(doc: Node, p: Path, c: Path)
    requires Valid(doc, p) && |c| == |p| + 1 && p < c
    ensures Valid(doc, c) <==> c[|p|] < |Kids(At(doc, p))|
    ensures Valid(doc, c) ==> At(doc, c) == Kids(At(doc, p))[c[|p|]]
  {
    assert c == p + [c[|p|]];
    AtConcat(doc, p, [c[|p|]]);
    assert [c[|p|]][1..] == [];
  }

  /** A listed child is a child element with that name, and every such child is listed. */
  lemma ChildrenNamedExact(doc: Node, p: Path, ns: string, local: string, c: Path)
    requires Valid(doc, p)
    ensures c in ChildrenNamed(doc, p, ns, local)
       <==> |c| == |p| + 1 && p < c && Valid(doc, c) && IsNamed(At(doc, c), ns, local)
  {
    NamedFromExact(Kids(At(doc, p)), p, 0, ns, local, c);
    if |c| == |p| + 1 && p < c { ChildAt(doc, p, c); }
  }

  /** Pairwise disjoint paths. */
  predicate Apart(ps: seq<Path>) {
    ps == [] || ((forall q :: q in ps[1..] ==> Disjoint(ps[0], q)) && Apart(ps[1..]))
  }

  lemma {:induction false} ApartAt(ps: seq<Path>, i: nat, j: nat)
    requires Apart(ps) && i < j < |ps|
    ensures Disjoint(ps[i], ps[j])
  {
    if i == 0 {
      assert ps[j] == ps[1..][j - 1];
    } else {
      ApartAt(ps[1..], i - 1, j - 1);
    }
  }

  lemma {:induction false} NamedFromApart(kids: seq<Node>, parent: Path, k: nat, ns: string, local: string)
    ensures Apart(NamedFrom(kids, parent, k, ns, local))
  {
    if kids != [] {
      NamedFromApart(kids[1..], parent, k + 1, ns, local);
      var rest := NamedFrom(kids[1..], parent, k + 1, ns, local);
      forall q | q in rest
        ensures Disjoint(parent + [k], q)
      {
        NamedFromExact(kids[1..], parent, k + 1, ns, local, q);
        assert (parent + [k])[|parent|] == k;
      }
      assert ([parent + [k]] + rest)[1..] == rest;
      assert [] + rest == rest;
    }
  }

  // -------------------------------------------------------------- the parser

  datatype ParseError = WrongRoot | DuplicateId | UnresolvedObjref | MissingElement | InvalidXml | InvalidAttribute
                      | TooManyDocuments

  /** One modelled document; `node` is the `es:Document` it was read from. */
  datatype Document = Document(index: nat, node: Path, objectRef: string, mediaType: string, subtype: string)

  datatype Dossier = Dossier(namespace: string, documents: seq<Document>)

  function Essence(d: Document): string {
    d.mediaType + "/" + d.subtype
  }

  function FirstElement(kids: seq<Node>, k: nat): Option<nat> {
    if kids == [] then None else if kids[0].Element? then Some(k) else FirstElement(kids[1..], k + 1)
  }

  /** The document element, or the document node when there is none. */
  function RootElement(doc: Node): (r: Path)
    ensures Valid(doc, r) && (r != [] ==> At(doc, r).Element?)
  {
    FirstElementExact(Kids(doc), 0);
    match FirstElement(Kids(doc), 0)
    case Some(k) => [k]
    case None => []
  }

  lemma {:induction false} FirstElementExact(kids: seq<Node>, k: nat)
    ensures var r := FirstElement(kids, k); r.Some? ==> k <= r.value < k + |kids| && kids[r.value - k].Element?
  {
    if kids != [] { FirstElementExact(kids[1..], k + 1); }
  }

  function RequiredChild(doc: Node, p: Path, ns: string, local: string): (r: Result<Path, ParseError>)
    requires Valid(doc, p)
    ensures r.Ok? ==> ChildrenNamed(doc, p, ns, local) == [r.value] && Valid(doc, r.value)
  {
    var all := ChildrenNamed(doc, p, ns, local);
    if |all| == 0 then Err(MissingElement)
    else if |all| > 1 then Err(InvalidXml)
    else
      assert Valid(doc, all[0]) by { ChildrenNamedExact(doc, p, ns, local, all[0]); }
      Ok(all[0])
  }

  function NormalizeReference(value: string): string {
    if value != "" && value[0] == '#' then value[1..] else value
  }

  function RequiredAttribute(n: Node, name: string): Result<string, ParseError> {
    match AttributeOf(n, name)
    case Some(v) => if v == "" then Err(InvalidAttribute) else Ok(v)
    case None => Err(InvalidAttribute)
  }

  function RequireObjref(n: Node): Result<string, ParseError> {
    match RequiredAttribute(n, "OBJREF")
    case Ok(v) => if NormalizeReference(v) == "" then Err(InvalidAttribute) else Ok(NormalizeReference(v))
    case Err(e) => Err(e)
  }

  function RequireId(n: Node): Result<string, ParseError> {
    match IdOf(n)
    case Some(v) => if v == "" then Err(InvalidAttribute) else Ok(v)
    case None => Err(InvalidAttribute)
  }

  /** No `OBJREF` of a profile element dangles. */
  predicate ProfileRefsResolve(doc: Node, namespace: string, ids: map<string, Path>) {
    forall p :: p in Elements(doc, []) ==> ProfileRefResolves(doc, p, namespace, ids)
  }

  predicate ProfileRefResolves(doc: Node, p: Path, namespace: string, ids: map<string, Path>) {
    Valid(doc, p) ==>
      var n := At(doc, p);
      (IsNamed(n, namespace, "DossierProfile") || IsNamed(n, namespace, "DocumentProfile")) ==>
        AttributeOf(n, "OBJREF").Some? ==> NormalizeReference(AttributeOf(n, "OBJREF").value) in ids
  }

  /** What trimming a text removes. */
  predicate IsWhite(c: char) {
    var n := c as int;
    0x9 <= n <= 0xd || n == 0x20 || n == 0x85 || n == 0xa0 || n == 0x1680 || 0x2000 <= n <= 0x200a
    || n == 0x2028 || n == 0x2029 || n == 0x202f || n == 0x205f || n == 0x3000
  }

  /** Text of its own that is not all white space. */
  predicate HasText(n: Node) {
    exists kid :: kid in Kids(n) && kid.Text? && exists c :: c in kid.text && !IsWhite(c)
  }

  /** The one child with this name, if it holds text. */
  function RequiredText(doc: Node, p: Path, ns: string, local: string): Result<Path, ParseError>
    requires Valid(doc, p)
  {
    var child := RequiredChild(doc, p, ns, local);
    if child.Err? then child
    else if HasText(At(doc, child.value)) then child else Err(MissingElement)
  }

  /** Every transform names an algorithm, and there is one. */
  function TransformsNamed(doc: Node, base: Path, namespace: string): Result<Path, ParseError>
    requires Valid(doc, base)
  {
    var transforms := ChildrenNamed(doc, base, namespace, "Transform");
    if exists t :: t in transforms && Valid(doc, t) && RequiredAttribute(At(doc, t), "Algorithm").Err? then Err(InvalidAttribute)
    else if transforms == [] then Err(MissingElement)
    else Ok(base)
  }

  /** The elements a document profile must hold; the result is its `es:MIME-Type`. */
  function ProfileHolds(doc: Node, profile: Path, namespace: string): (r: Result<Path, ParseError>)
    requires Valid(doc, profile)
    ensures r.Ok? ==> Valid(doc, r.value)
  {
    var title := RequiredText(doc, profile, namespace, "Title");
    var created := RequiredText(doc, profile, namespace, "CreationDate");
    var format := RequiredChild(doc, profile, namespace, "Format");
    if title.Err? then title
    else if created.Err? then created
    else if format.Err? then format
    else
      var mime := RequiredChild(doc, format.value, namespace, "MIME-Type");
      var base := RequiredChild(doc, profile, namespace, "BaseTransform");
      if mime.Err? then mime
      else if base.Err? then base
      else
        var transforms := TransformsNamed(doc, base.value, namespace);
        if transforms.Err? then transforms else mime
  }

  /** The media type an `es:MIME-Type` declares. */
  function ParseMime(n: Node): Result<(string, string), ParseError> {
    var mediaType := RequiredAttribute(n, "type");
    var subtype := RequiredAttribute(n, "subtype");
    if mediaType.Err? then Err(mediaType.error)
    else if subtype.Err? then Err(subtype.error)
    else Ok((mediaType.value, subtype.value))
  }

  function ParseDocument(doc: Node, node: Path, profile: Path, index: nat, namespace: string): Result<Document, ParseError>
    requires Valid(doc, node) && Valid(doc, profile)
  {
    var id := RequireId(At(doc, profile));
    var objectRef := RequireObjref(At(doc, profile));
    var held := ProfileHolds(doc, profile, namespace);
    var payloads := ChildrenNamed(doc, node, XMLDSIG, "Object");
    if id.Err? then Err(id.error)
    else if objectRef.Err? then Err(objectRef.error)
    else if held.Err? then Err(held.error)
    else if |payloads| != 1 then Err(InvalidXml)
    else
      assert Valid(doc, payloads[0]) by { ChildrenNamedExact(doc, node, XMLDSIG, "Object", payloads[0]); }
      if IdOf(At(doc, payloads[0])) != Some(objectRef.value) then Err(UnresolvedObjref)
      else
        var mime := ParseMime(At(doc, held.value));
        if mime.Err? then Err(mime.error)
        else Ok(Document(index, node, objectRef.value, mime.value.0, mime.value.1))
  }

  /** The documents with a profile, numbered as they are met; the others are skipped. */
  function ParseDocuments(doc: Node, nodes: seq<Path>, namespace: string, index: nat): Result<seq<Document>, ParseError>
    requires forall n :: n in nodes ==> Valid(doc, n)
  {
    if nodes == [] then Ok([])
    else
      assert Valid(doc, nodes[0]);
      var profiles := ChildrenNamed(doc, nodes[0], namespace, "DocumentProfile");
      if profiles == [] then ParseDocuments(doc, nodes[1..], namespace, index)
      else if |profiles| > 1 then Err(InvalidXml)
      else
        assert Valid(doc, profiles[0]) by { ChildrenNamedExact(doc, nodes[0], namespace, "DocumentProfile", profiles[0]); }
        var first := ParseDocument(doc, nodes[0], profiles[0], index, namespace);
        if first.Err? then Err(first.error)
        else
          var rest := ParseDocuments(doc, nodes[1..], namespace, index + 1);
          if rest.Err? then rest else Ok([first.value] + rest.value)
  }

  function ParseDossier(doc: Node, allowed: seq<string>, maxDocuments: nat): Result<Dossier, ParseError> {
    var root := RootElement(doc);
    if !At(doc, root).Element? || At(doc, root).local != "Dossier" || At(doc, root).ns !in allowed then Err(WrongRoot)
    else
      var namespace := At(doc, root).ns;
      var ids := IdMap(doc);
      if ids.None? then Err(DuplicateId)
      else if !ProfileRefsResolve(doc, namespace, ids.value) then Err(UnresolvedObjref)
      else
        var profile := RequiredChild(doc, root, namespace, "DossierProfile");
        var documents := RequiredChild(doc, root, namespace, "Documents");
        if profile.Err? then Err(profile.error)
        else if documents.Err? then Err(documents.error)
        else
          var profileId, reference := RequireId(At(doc, profile.value)), RequireObjref(At(doc, profile.value));
          var documentsId := RequireId(At(doc, documents.value));
          if profileId.Err? then Err(profileId.error)
          else if reference.Err? then Err(reference.error)
          else if documentsId.Err? then Err(documentsId.error)
          else if reference.value != documentsId.value then Err(UnresolvedObjref)
          else
            var nodes := ChildrenNamed(doc, documents.value, namespace, "Document");
            if |nodes| > maxDocuments then Err(TooManyDocuments)
            else
              NodesValid(doc, documents.value, namespace);
              var parsed := ParseDocuments(doc, nodes, namespace, 0);
              var title := RequiredText(doc, profile.value, namespace, "Title");
              if parsed.Err? then Err(parsed.error)
              else if title.Err? then Err(title.error) else Ok(Dossier(namespace, parsed.value))
  }

  lemma NodesValid(doc: Node, documents: Path, namespace: string)
    requires Valid(doc, documents)
    ensures forall n :: n in ChildrenNamed(doc, documents, namespace, "Document") ==> Valid(doc, n)
  {
    forall n | n in ChildrenNamed(doc, documents, namespace, "Document")
      ensures Valid(doc, n)
    {
      ChildrenNamedExact(doc, documents, namespace, "Document", n);
    }
  }

  lemma EnumerationStep(doc: Node, nodes: seq<Path>, namespace: string, i: nat, documents: seq<Document>)
    requires i < |nodes| && forall n :: n in nodes ==> Valid(doc, n)
    ensures Valid(doc, nodes[i])
    ensures var profiles := ChildrenNamed(doc, nodes[i], namespace, "DocumentProfile");
            var outcome := Carry(documents, ParseDocuments(doc, nodes[i..], namespace, |documents|));
            && (|profiles| == 0 ==> outcome == Carry(documents, ParseDocuments(doc, nodes[i + 1..], namespace, |documents|)))
            && (|profiles| > 1 ==> outcome == Err(InvalidXml))
            && (|profiles| == 1 ==> Valid(doc, profiles[0]))
            && (|profiles| == 1 ==>
                  var first := ParseDocument(doc, nodes[i], profiles[0], |documents|, namespace);
                  outcome == if first.Err? then Err(first.error)
                             else Carry(documents + [first.value],
                                         ParseDocuments(doc, nodes[i + 1..], namespace, |documents| + 1)))
  {
    hide ChildrenNamed, ParseDocument, Valid;
    assert nodes[i] in nodes && nodes[i..][0] == nodes[i] && nodes[i..][1..] == nodes[i + 1..];
    var profiles := ChildrenNamed(doc, nodes[i], namespace, "DocumentProfile");
    if |profiles| == 1 {
      ChildrenNamedExact(doc, nodes[i], namespace, "DocumentProfile", profiles[0]);
      var first := ParseDocument(doc, nodes[i], profiles[0], |documents|, namespace);
      var rest := ParseDocuments(doc, nodes[i + 1..], namespace, |documents| + 1);
      if first.Ok? && rest.Ok? {
        assert documents + ([first.value] + rest.value) == documents + [first.value] + rest.value;
      }
    }
  }

  /** What is left to do leads to the same outcome. */
  predicate Enumerating(doc: Node, nodes: seq<Path>, namespace: string, i: nat, documents: seq<Document>) {
    && i <= |nodes| && (forall n :: n in nodes ==> Valid(doc, n))
    && ParseDocuments(doc, nodes, namespace, 0) == Carry(documents, ParseDocuments(doc, nodes[i..], namespace, |documents|))
  }

  lemma EnumerationEnds(doc: Node, nodes: seq<Path>, namespace: string, documents: seq<Document>)
    requires forall n :: n in nodes ==> Valid(doc, n)
    ensures Enumerating(doc, nodes, namespace, 0, [])
    ensures Enumerating(doc, nodes, namespace, |nodes|, documents) ==> ParseDocuments(doc, nodes, namespace, 0) == Ok(documents)
  {
    hide ParseDocument, ChildrenNamed, Valid;
    assert nodes[0..] == nodes && nodes[|nodes|..] == [] && documents + [] == documents;
    var all := ParseDocuments(doc, nodes, namespace, 0);
    if all.Ok? { assert [] + all.value == all.value; }
  }

  /** The enumeration loop. */
  method EnumerateDocuments(doc: Node, nodes: seq<Path>, namespace: string) returns (r: Result<seq<Document>, ParseError>)
    requires forall n :: n in nodes ==> Valid(doc, n)
    ensures r == ParseDocuments(doc, nodes, namespace, 0)
  {
    hide ParseDocument, ParseDocuments, ChildrenNamed, Valid;
    var documents: seq<Document> := [];
    var i := 0;
    EnumerationEnds(doc, nodes, namespace, []);
    while i < |nodes|
      invariant Enumerating(doc, nodes, namespace, i, documents)
    {
      EnumerationStep(doc, nodes, namespace, i, documents);
      var profiles := ChildrenNamed(doc, nodes[i], namespace, "DocumentProfile");
      if |profiles| > 1 {
        return Err(InvalidXml);
      }
      if |profiles| == 1 {
        var document := ParseDocument(doc, nodes[i], profiles[0], |documents|, namespace);
        if document.Err? {
          return Err(document.error);
        }
        documents := documents + [document.value];
      }
      i := i + 1;
    }
    EnumerationEnds(doc, nodes, namespace, documents);
    return Ok(documents);
  }

  // ------------------------------------------------- what acceptance promises

  /** A document the parser modelled: where it sits, and what it holds. */
  predicate Modelled(doc: Node, documents: Path, namespace: string, d: Document) {
    && Valid(doc, documents) && Valid(doc, d.node)
    && d.node in ChildrenNamed(doc, documents, namespace, "Document")
    && |ChildrenNamed(doc, d.node, namespace, "DocumentProfile")| == 1
    && |ChildrenNamed(doc, d.node, XMLDSIG, "Object")| == 1
    && Valid(doc, ChildrenNamed(doc, d.node, XMLDSIG, "Object")[0])
    && IdOf(At(doc, ChildrenNamed(doc, d.node, XMLDSIG, "Object")[0])) == Some(d.objectRef)
  }

  function WithProfile(doc: Node, nodes: seq<Path>, namespace: string): seq<Path>
    requires forall n :: n in nodes ==> Valid(doc, n)
  {
    if nodes == [] then []
    else
      assert Valid(doc, nodes[0]);
      (if ChildrenNamed(doc, nodes[0], namespace, "DocumentProfile") == [] then [] else [nodes[0]])
      + WithProfile(doc, nodes[1..], namespace)
  }

  function NodesOf(documents: seq<Document>): seq<Path> {
    if documents == [] then [] else [documents[0].node] + NodesOf(documents[1..])
  }

  lemma ParsedDocument(doc: Node, documents: Path, node: Path, profile: Path, index: nat, namespace: string)
    requires Valid(doc, documents) && Valid(doc, node) && node in ChildrenNamed(doc, documents, namespace, "Document")
    requires ChildrenNamed(doc, node, namespace, "DocumentProfile") == [profile] && Valid(doc, profile)
    requires ParseDocument(doc, node, profile, index, namespace).Ok?
    ensures var d := ParseDocument(doc, node, profile, index, namespace).value;
            d.index == index && d.node == node && Modelled(doc, documents, namespace, d)
  {
    hide ParseMime, ProfileHolds, RequireObjref, RequireId, IdOf;
    ChildrenNamedExact(doc, node, XMLDSIG, "Object", ChildrenNamed(doc, node, XMLDSIG, "Object")[0]);
  }

  predicate Numbered(ds: seq<Document>, index: nat, doc: Node, documents: Path, namespace: string) {
    ds == [] || (ds[0].index == index && Modelled(doc, documents, namespace, ds[0])
                 && Numbered(ds[1..], index + 1, doc, documents, namespace))
  }

  lemma {:induction false} NumberedAt(ds: seq<Document>, index: nat, doc: Node, documents: Path, namespace: string, i: nat)
    requires Numbered(ds, index, doc, documents, namespace) && i < |ds|
    ensures ds[i].index == index + i && Modelled(doc, documents, namespace, ds[i])
  {
    if i > 0 { NumberedAt(ds[1..], index + 1, doc, documents, namespace, i - 1); }
  }

  lemma FirstParsed(doc: Node, documents: Path, first: Document, rest: seq<Document>, index: nat, namespace: string)
    requires first.index == index && Modelled(doc, documents, namespace, first) && Numbered(rest, index + 1, doc, documents, namespace)
    ensures Numbered([first] + rest, index, doc, documents, namespace) && NodesOf([first] + rest) == [first.node] + NodesOf(rest)
  {
    hide Modelled;
    assert ([first] + rest)[1..] == rest;
  }

  /** The parsed documents are the nodes with a profile, in order and numbered in order. */
  lemma {:induction false} ParsedDocuments(doc: Node, documents: Path, nodes: seq<Path>, namespace: string, index: nat)
    requires Valid(doc, documents)
    requires forall n :: n in nodes ==> Valid(doc, n) && n in ChildrenNamed(doc, documents, namespace, "Document")
    requires ParseDocuments(doc, nodes, namespace, index).Ok?
    ensures var ds := ParseDocuments(doc, nodes, namespace, index).value;
            NodesOf(ds) == WithProfile(doc, nodes, namespace) && Numbered(ds, index, doc, documents, namespace)
  {
    hide Modelled, ParseDocument, ChildrenNamed, Valid;
    if nodes == [] {
    } else {
      assert nodes[0] in nodes && forall n :: n in nodes[1..] ==> n in nodes;
      var profiles := ChildrenNamed(doc, nodes[0], namespace, "DocumentProfile");
      if profiles == [] {
        ParsedDocuments(doc, documents, nodes[1..], namespace, index);
      } else {
        ChildrenNamedExact(doc, nodes[0], namespace, "DocumentProfile", profiles[0]);
        ParsedDocument(doc, documents, nodes[0], profiles[0], index, namespace);
        ParsedDocuments(doc, documents, nodes[1..], namespace, index + 1);
        FirstParsed(doc, documents, ParseDocument(doc, nodes[0], profiles[0], index, namespace).value,
                    ParseDocuments(doc, nodes[1..], namespace, index + 1).value, index, namespace);
      }
    }
  }

  /** Where the parts of an accepted dossier are. */
  predicate Layout(doc: Node, dossier: Dossier, root: Path, profile: Path, documents: Path) {
    && root == RootElement(doc) && root != []
    && IsNamed(At(doc, root), dossier.namespace, "Dossier")
    && ChildrenNamed(doc, root, dossier.namespace, "DossierProfile") == [profile] && Valid(doc, profile)
    && ChildrenNamed(doc, root, dossier.namespace, "Documents") == [documents] && Valid(doc, documents)
  }

  /** What the parser promises about a dossier it accepts. */
  lemma AcceptedDossier(doc: Node, allowed: seq<string>, maxDocuments: nat, dossier: Dossier)
    returns (profile: Path, documents: Path)
    requires ParseDossier(doc, allowed, maxDocuments) == Ok(dossier) && doc.Root? && "" !in allowed
    ensures IdMap(doc).Some? && dossier.namespace in allowed
    ensures Layout(doc, dossier, RootElement(doc), profile, documents)
    ensures forall n :: n in ChildrenNamed(doc, documents, dossier.namespace, "Document") ==> Valid(doc, n)
    ensures NodesOf(dossier.documents)
         == WithProfile(doc, ChildrenNamed(doc, documents, dossier.namespace, "Document"), dossier.namespace)
    ensures forall i :: 0 <= i < |dossier.documents| ==>
              dossier.documents[i].index == i && Modelled(doc, documents, dossier.namespace, dossier.documents[i])
  {
    var root := RootElement(doc);
    profile := RequiredChild(doc, root, dossier.namespace, "DossierProfile").value;
    documents := RequiredChild(doc, root, dossier.namespace, "Documents").value;
    NodesValid(doc, documents, dossier.namespace);
    ParsedDocuments(doc, documents, ChildrenNamed(doc, documents, dossier.namespace, "Document"), dossier.namespace, 0);
    forall i | 0 <= i < |dossier.documents|
      ensures dossier.documents[i].index == i && Modelled(doc, documents, dossier.namespace, dossier.documents[i])
    {
      NumberedAt(dossier.documents, 0, doc, documents, dossier.namespace, i);
    }
  }

  lemma {:induction false} NodesOfAt(ds: seq<Document>)
    ensures |NodesOf(ds)| == |ds| && forall i :: 0 <= i < |ds| ==> NodesOf(ds)[i] == ds[i].node
  {
    if ds != [] { NodesOfAt(ds[1..]); }
  }

  lemma {:induction false} WithProfileApart(doc: Node, nodes: seq<Path>, namespace: string)
    requires (forall n :: n in nodes ==> Valid(doc, n)) && Apart(nodes)
    ensures Apart(WithProfile(doc, nodes, namespace)) && forall n :: n in WithProfile(doc, nodes, namespace) ==> n in nodes
  {
    if nodes != [] {
      hide ChildrenNamed, Valid;
      WithProfileApart(doc, nodes[1..], namespace);
      var rest := WithProfile(doc, nodes[1..], namespace);
      assert ([nodes[0]] + rest)[1..] == rest;
      assert [] + rest == rest;
    }
  }

  /** Distinct documents sit in disjoint elements. */
  lemma DocumentsApart(doc: Node, allowed: seq<string>, maxDocuments: nat, dossier: Dossier, i: nat, j: nat)
    requires ParseDossier(doc, allowed, maxDocuments) == Ok(dossier) && doc.Root? && "" !in allowed
    requires i < |dossier.documents| && j < |dossier.documents| && i != j
    ensures Disjoint(dossier.documents[i].node, dossier.documents[j].node)
  {
    var profile, documents := AcceptedDossier(doc, allowed, maxDocuments, dossier);
    NamedFromApart(Kids(At(doc, documents)), documents, 0, dossier.namespace, "Document");
    WithProfileApart(doc, ChildrenNamed(doc, documents, dossier.namespace, "Document"), dossier.namespace);
    NodesOfAt(dossier.documents);
    var kept := NodesOf(dossier.documents);
    if i < j { ApartAt(kept, i, j); } else { ApartAt(kept, j, i); }
  }
}
