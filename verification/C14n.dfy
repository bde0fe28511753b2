/**
 Canonical XML 1.0 and Exclusive XML Canonicalization 1.0, with and without
 comments, over an apex subtree minus excluded subtrees.

 The specification has two halves: `CanonElement` says which canonical nodes a
 node set comes to (which declarations, which attributes, which children), and
 `Print` writes canonical nodes as octets. The imperative `Renderer` does both
 at once and is proved against their composition.
 */
module C14n {
  import opened Strings
  import opened XmlTree

  datatype Algorithm = Inclusive(comments: bool) | Exclusive(comments: bool)

  /** The subtree of an apex, less some subtrees. */
  datatype NodeSet = NodeSet(apex: Path, excluded: seq<Path>, commentsExcluded: bool)

  function Subtree(apex: Path): NodeSet {
    NodeSet(apex, [], false)
  }

  function WithoutComments(nodes: NodeSet): NodeSet {
    nodes.(commentsExcluded := true)
  }

  /** The rendered namespace declarations, innermost last. */
  type NsStack = seq<Decl>

  function Rendered(state: NsStack, prefix: string): string {
    if state == [] then ""
    else if state[|state| - 1].prefix == prefix then state[|state| - 1].uri
    else Rendered(state[..|state| - 1], prefix)
  }

  /** The part before the first colon, or nothing. */
  function QnamePrefix(qname: string): string {
    if ':' in qname then BeforeColon(qname) else ""
  }

  function BeforeColon(qname: string): string {
    if qname == [] || qname[0] == ':' then "" else [qname[0]] + BeforeColon(qname[1..])
  }

  // ------------------------------------------------------------ canonical nodes

  datatype CAttr = CAttr(qname: string, value: string)

  datatype Canon =
    | CElement(qname: string, decls: seq<Decl>, attrs: seq<CAttr>, children: seq<Canon>)
    | CText(text: string)
    | CComment(text: string)
    | CPI(target: string, value: string)

  /** What one canonicalization run holds fixed. `inherited` are the apex's ancestors' `xml:*`
      attributes, nearest ancestor first. */
  datatype Env = Env(algorithm: Algorithm, prefixes: seq<string>, nodes: NodeSet, inherited: seq<Attr>)

  // ------------------------------------------------------------- namespace axis

  function AttrPrefixes(attrs: seq<Attr>, names: seq<string>): seq<string> {
    if attrs == [] then names
    else
      var p := QnamePrefix(attrs[0].qname);
      AttrPrefixes(attrs[1..], if p == "" then names else Put(names, p))
  }

  function ListedPrefixes(prefixes: seq<string>, names: seq<string>): seq<string> {
    if prefixes == [] then names
    else ListedPrefixes(prefixes[1..], Put(names, if prefixes[0] == "#default" then "" else prefixes[0]))
  }

  /** The prefixes an element visibly uses, plus the listed ones. */
  function Visible(env: Env, node: Node): seq<string>
    requires node.Element?
  {
    ListedPrefixes(env.prefixes, AttrPrefixes(node.attrs, [QnamePrefix(node.qname)]))
  }

  /** Insert into an ordered map from prefix to URI. */
  function PutDecl(m: seq<Decl>, d: Decl): seq<Decl> {
    if m == [] || LexLess(d.prefix, m[0].prefix) then [d] + m
    else if d.prefix == m[0].prefix then [d] + m[1..]
    else [m[0]] + PutDecl(m[1..], d)
  }

  function VisibleDecls(names: seq<string>, scope: Scope, m: seq<Decl>): seq<Decl> {
    if names == [] then m
    else if names[0] == "xml" then VisibleDecls(names[1..], scope, m)
    else VisibleDecls(names[1..], scope, PutDecl(m, Decl(names[0], Lookup(scope, names[0]))))
  }

  function ScopeDecls(scope: Scope, m: seq<Decl>): seq<Decl> {
    if scope == [] then m
    else if scope[0] == Decl("xml", XML_NAMESPACE) then ScopeDecls(scope[1..], m)
    else ScopeDecls(scope[1..], PutDecl(m, scope[0]))
  }

  function DefaultEntry(m: seq<Decl>): seq<Decl> {
    if Declares(m, "") then m else PutDecl(m, Decl("", ""))
  }

  /** The prefixes that take part at one element, each with its URI in scope. */
  function Candidates(env: Env, node: Node, scope: Scope): seq<Decl>
    requires node.Element?
  {
    if env.algorithm.Exclusive? then VisibleDecls(Visible(env, node), scope, [])
    else DefaultEntry(ScopeDecls(scope, []))
  }

  function NotRendered(candidates: seq<Decl>, state: NsStack): seq<Decl> {
    if candidates == [] then []
    else if Rendered(state, candidates[0].prefix) == candidates[0].uri then NotRendered(candidates[1..], state)
    else [candidates[0]] + NotRendered(candidates[1..], state)
  }

  function NamespaceAxis(env: Env, node: Node, scope: Scope, state: NsStack): seq<Decl>
    requires node.Element?
  {
    NotRendered(Candidates(env, node, scope), state)
  }

  // ------------------------------------------------------------- attribute axis

  /** Add each ancestor attribute whose name is not there yet. */
  function Inherit(attrs: seq<Attr>, inherited: seq<Attr>): seq<Attr>
    decreases |inherited|
  {
    if inherited == [] then attrs
    else if exists a :: a in attrs && a.ns == XML_NAMESPACE && a.local == inherited[0].local then
      Inherit(attrs, inherited[1..])
    else Inherit(attrs + [inherited[0].(ns := XML_NAMESPACE)], inherited[1..])
  }

  predicate AttrLess(a: Attr, b: Attr) {
    LexLess(a.ns, b.ns) || (a.ns == b.ns && LexLess(a.local, b.local))
  }

  /** Stable insertion: after everything not greater. */
  function InsertAttr(sorted: seq<Attr>, a: Attr): seq<Attr> {
    if sorted == [] || AttrLess(a, sorted[0]) then [a] + sorted
    else [sorted[0]] + InsertAttr(sorted[1..], a)
  }

  function SortAttrs(attrs: seq<Attr>): seq<Attr> {
    if attrs == [] then []
    else InsertAttr(SortAttrs(attrs[..|attrs| - 1]), attrs[|attrs| - 1])
  }

  function AttributeAxis(env: Env, path: Path, node: Node): seq<Attr>
    requires node.Element?
  {
    SortAttrs(if env.algorithm.Inclusive? && path == env.nodes.apex then Inherit(node.attrs, env.inherited)
              else node.attrs)
  }

  function CAttrs(attrs: seq<Attr>): seq<CAttr> {
    if attrs == [] then [] else [CAttr(attrs[0].qname, attrs[0].value)] + CAttrs(attrs[1..])
  }

  // ------------------------------------------------------------------ the tree

  predicate ShowsComments(env: Env) {
    env.algorithm.comments && !env.nodes.commentsExcluded
  }

  function CanonElement(env: Env, path: Path, node: Node, outer: Scope, state: NsStack): Canon
    requires node.Element?
    decreases node, 1
  {
    var scope := Extend(node.decls, outer);
    var decls := NamespaceAxis(env, node, scope, state);
    CElement(node.qname, decls, CAttrs(AttributeAxis(env, path, node)),
             CanonKids(env, path, node.children, 0, scope, state + decls))
  }

  function CanonNode(env: Env, path: Path, node: Node, outer: Scope, state: NsStack): seq<Canon>
    decreases node, 2
  {
    if path in env.nodes.excluded then []
    else match node
      case Element(_, _, _, _, _, _, _, _) => [CanonElement(env, path, node, outer, state)]
      case Text(text, _) => [CText(text)]
      case Comment(text, _) => if ShowsComments(env) then [CComment(text)] else []
      case PI(target, value, _) => [CPI(target, value)]
      case Root(_, _, _) => []
  }

  /** The canonical nodes of consecutive siblings, the first at child position `k` of `parent`. */
  function CanonKids(env: Env, parent: Path, kids: seq<Node>, k: nat, outer: Scope, state: NsStack): seq<Canon>
    decreases kids, 0
  {
    if kids == [] then []
    else CanonNode(env, parent + [k], kids[0], outer, state)
         + CanonKids(env, parent, kids[1..], k + 1, outer, state)
  }

  // -------------------------------------------------------------------- octets

  function EscapeTextChar(c: char): string {
    if c == '&' then "&amp;"
    else if c == '<' then "&lt;"
    else if c == '>' then "&gt;"
    else if c == '\r' then "&#xD;"
    else [c]
  }

  function EscapeText(text: string): string {
    if text == [] then [] else EscapeTextChar(text[0]) + EscapeText(text[1..])
  }

  function EscapeAttributeChar(c: char): string {
    if c == '&' then "&amp;"
    else if c == '<' then "&lt;"
    else if c == '"' then "&quot;"
    else if c == '\t' then "&#x9;"
    else if c == '\n' then "&#xA;"
    else if c == '\r' then "&#xD;"
    else [c]
  }

  function EscapeAttribute(value: string): string {
    if value == [] then [] else EscapeAttributeChar(value[0]) + EscapeAttribute(value[1..])
  }

  function DeclName(prefix: string): string {
    if prefix == "" then "xmlns" else "xmlns:" + prefix
  }

  function PrintPair(name: string, value: string): string {
    " " + name + "=\"" + EscapeAttribute(value) + "\""
  }

  function PrintDecls(decls: seq<Decl>): string {
    if decls == [] then [] else PrintPair(DeclName(decls[0].prefix), decls[0].uri) + PrintDecls(decls[1..])
  }

  function PrintAttrs(attrs: seq<CAttr>): string {
    if attrs == [] then [] else PrintPair(attrs[0].qname, attrs[0].value) + PrintAttrs(attrs[1..])
  }

  function PrintStart(qname: string, decls: seq<Decl>, attrs: seq<CAttr>): string {
    "<" + qname + (PrintDecls(decls) + PrintAttrs(attrs)) + ">"
  }

  function PrintEnd(qname: string): string {
    "</" + qname + ">"
  }

  function PrintMisc(c: Canon): string
    requires c.CComment? || c.CPI?
  {
    if c.CComment? then "<!--" + c.text + "-->"
    else "<?" + c.target + (if c.value == "" then "" else " " + c.value) + "?>"
  }

  function Print(c: Canon): string
    decreases c, 1
  {
    match c
    case CElement(qname, decls, attrs, children) =>
      PrintStart(qname, decls, attrs) + PrintAll(children) + PrintEnd(qname)
    case CText(text) => EscapeText(text)
    case CComment(_) => PrintMisc(c)
    case CPI(_, _) => PrintMisc(c)
  }

  function PrintAll(cs: seq<Canon>): string
    decreases cs, 0
  {
    if cs == [] then [] else Print(cs[0]) + PrintAll(cs[1..])
  }

  /** The children of the document node, with the newline rules on either side of the document
      element. */
  function PrintTopLevel(env: Env, kids: seq<Node>, k: nat, seen: bool): string {
    if kids == [] then []
    else if [k] in env.nodes.excluded then PrintTopLevel(env, kids[1..], k + 1, seen)
    else if kids[0].Element? then
      Print(CanonElement(env, [k], kids[0], BASE_SCOPE, [])) + PrintTopLevel(env, kids[1..], k + 1, true)
    else if kids[0].PI? || (kids[0].Comment? && ShowsComments(env)) then
      var misc := PrintMisc(CanonNode(env, [k], kids[0], BASE_SCOPE, [])[0]);
      (if seen then "\n" + misc else misc + "\n") + PrintTopLevel(env, kids[1..], k + 1, seen)
    else PrintTopLevel(env, kids[1..], k + 1, seen)
  }

  function EnvOf(doc: Node, nodes: NodeSet, algorithm: Algorithm, prefixes: seq<string>): Env
    requires Valid(doc, nodes.apex)
  {
    Env(algorithm, prefixes, nodes, XmlAbove(doc, nodes.apex))
  }

  /** The octets of a node set whose apex is the document node or an element. */
  function Octets(doc: Node, nodes: NodeSet, algorithm: Algorithm, prefixes: seq<string>): string
    requires Valid(doc, nodes.apex) && (At(doc, nodes.apex).Root? || At(doc, nodes.apex).Element?)
  {
    var env := EnvOf(doc, nodes, algorithm, prefixes);
    var apex := At(doc, nodes.apex);
    if apex.Root? then PrintTopLevel(env, apex.children, 0, false)
    else Print(CanonElement(env, nodes.apex, apex, ScopeAbove(doc, nodes.apex, BASE_SCOPE), []))
  }
}
