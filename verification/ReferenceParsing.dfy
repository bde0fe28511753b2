/** How the verifier reads a `ds:Reference` element. */
module ReferenceParsing {
  import opened Wrappers
  import opened XmlTree
  import opened Ids
  import opened Dossier
  import opened References

  const EXC_C14N: string := "http://www.w3.org/2001/10/xml-exc-c14n#"

  function KidsNamed(kids: seq<Node>, ns: string, local: string): seq<Node> {
    if kids == [] then []
    else (if IsNamed(kids[0], ns, local) then [kids[0]] else []) + KidsNamed(kids[1..], ns, local)
  }

  function KidNamed(n: Node, ns: string, local: string): Option<Node> {
    var all := KidsNamed(Kids(n), ns, local);
    if all == [] then None else Some(all[0])
  }

  function OrEmpty(s: Option<string>): string {
    match s
    case Some(v) => v
    case None => ""
  }

  /** The text of the direct text children. */
  function TextOf(kids: seq<Node>): string {
    if kids == [] then "" else (if kids[0].Text? then kids[0].text else "") + TextOf(kids[1..])
  }

  /** Unicode white space. */
  predicate IsSpace(c: char) {
    var n := c as int;
    || 0x9 <= n <= 0xd || n == 0x20 || n == 0x85 || n == 0xa0 || n == 0x1680 || 0x2000 <= n <= 0x200a
    || n == 0x2028 || n == 0x2029 || n == 0x202f || n == 0x205f || n == 0x3000
  }

  function Word(s: string): (r: string)
    ensures |r| <= |s|
  {
    if s == "" || IsSpace(s[0]) then "" else [s[0]] + Word(s[1..])
  }

  function Words(s: string): seq<string>
    decreases |s|
  {
    if s == "" then []
    else if IsSpace(s[0]) then Words(s[1..])
    else [Word(s)] + Words(s[|Word(s)|..])
  }

  function InclusivePrefixes(transform: Node): seq<string> {
    match KidNamed(transform, EXC_C14N, "InclusiveNamespaces")
    case Some(n) => Words(OrEmpty(AttributeOf(n, "PrefixList")))
    case None => []
  }

  function ParseTransforms(transforms: seq<Node>): seq<TransformStep> {
    if transforms == [] then []
    else [TransformStep(OrEmpty(AttributeOf(transforms[0], "Algorithm")), InclusivePrefixes(transforms[0]))]
         + ParseTransforms(transforms[1..])
  }

  function ParseReference(n: Node): Reference {
    Reference(OrEmpty(AttributeOf(n, "URI")), AttributeOf(n, "Type"),
              (match KidNamed(n, XMLDSIG, "Transforms")
               case Some(list) => ParseTransforms(KidsNamed(Kids(list), XMLDSIG, "Transform"))
               case None => []),
              (match KidNamed(n, XMLDSIG, "DigestMethod")
               case Some(m) => OrEmpty(AttributeOf(m, "Algorithm"))
               case None => ""),
              (match KidNamed(n, XMLDSIG, "DigestValue")
               case Some(v) => TextOf(Kids(v))
               case None => ""))
  }
}
