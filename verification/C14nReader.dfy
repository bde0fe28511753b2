/**
 The octets determine the tree.

 `ReadNodes` is a small reader of canonical octets, written against the output
 format and not against the renderer. It inverts `Print` on every canonical
 forest whose names are XML names and whose adjacent text is merged, so two such
 forests with equal octets are equal.
 */
module C14nReader {
  import opened Strings
  import opened XmlTree
  import opened C14n

  // ------------------------------------------------------------- the reader

  function EntityChar(name: string): char {
    if name == "amp" then '&'
    else if name == "lt" then '<'
    else if name == "gt" then '>'
    else if name == "quot" then '"'
    else if name == "#x9" then '\t'
    else if name == "#xA" then '\n'
    else '\r'
  }

  function Unescape(s: string): string
    decreases |s|
  {
    if s == "" then ""
    else if s[0] != '&' then [s[0]] + Unescape(s[1..])
    else
      var name := UpTo(s[1..], ';');
      [EntityChar(name)] + Unescape(Drop(s, |name| + 2))
  }

  function Drop(s: string, n: nat): (r: string)
    ensures |r| <= |s|
    ensures n > 0 && s != "" ==> |r| < |s|
  {
    if n <= |s| then s[n..] else ""
  }

  /** ` name="value"` repeated; every pair still escaped names a declaration or an attribute. */
  function ReadPairs(s: string): (r: (seq<CAttr>, string))
    ensures |r.1| <= |s|
    decreases |s|
  {
    if s == "" || s[0] != ' ' then ([], s)
    else
      var name := UpTo(s[1..], '=');
      var quoted := Drop(s, |name| + 3);
      var value := UpTo(quoted, '"');
      var (pairs, rest) := ReadPairs(Drop(quoted, |value| + 1));
      ([CAttr(name, Unescape(value))] + pairs, rest)
  }

  predicate IsDeclName(name: string) {
    name == "xmlns" || "xmlns:" <= name
  }

  function DeclPairs(pairs: seq<CAttr>): seq<Decl> {
    if pairs == [] || !IsDeclName(pairs[0].qname) then []
    else [Decl(pairs[0].qname[if pairs[0].qname == "xmlns" then 5 else 6..], pairs[0].value)] + DeclPairs(pairs[1..])
  }

  function AttrPairs(pairs: seq<CAttr>): seq<CAttr> {
    if pairs == [] || !IsDeclName(pairs[0].qname) then pairs else AttrPairs(pairs[1..])
  }

  /** A tag name runs to the first space or `>`. */
  function TagName(s: string): (r: string)
    ensures r <= s
  {
    if s == "" || s[0] == ' ' || s[0] == '>' then "" else [s[0]] + TagName(s[1..])
  }

  function PIOf(content: string): Canon {
    var target := UpTo(content, ' ');
    CPI(target, Drop(content, |target| + 1))
  }

  /** One node off the front of `s`. */
  function ReadNode(s: string): (r: (Canon, string))
    requires s != ""
    ensures |r.1| < |s|
    decreases |s|, 0
  {
    if s[0] != '<' then
      var text := UpTo(s, '<');
      (CText(Unescape(text)), s[|text|..])
    else if "<!--" <= s then
      var n := Find(s[4..], "-->");
      (CComment(s[4..][..n]), Drop(s, n + 7))
    else if "<?" <= s then
      var n := Find(s[2..], "?>");
      (PIOf(s[2..][..n]), Drop(s, n + 4))
    else
      var qname := TagName(s[1..]);
      var (pairs, body) := ReadPairs(s[1 + |qname|..]);
      var (children, tail) := ReadNodes(Drop(body, 1));
      (CElement(qname, DeclPairs(pairs), AttrPairs(pairs), children), Drop(tail, |qname| + 3))
  }

  /** Nodes until the input ends or an end tag begins. */
  function ReadNodes(s: string): (r: (seq<Canon>, string))
    ensures |r.1| <= |s|
    decreases |s|, 1
  {
    if s == "" || "</" <= s then ([], s)
    else
      var (c, rest) := ReadNode(s);
      var (cs, tail) := ReadNodes(rest);
      ([c] + cs, tail)
  }

  // ---------------------------------------------------------- what is legal

  predicate NameChar(c: char) {
    && c != ' ' && c != '\t' && c != '\n' && c != '\r' && c != '=' && c != '<' && c != '>'
    && c != '/' && c != '!' && c != '?' && c != '&' && c != '"' && c != '\''
  }

  predicate IsName(name: string) {
    name != "" && forall c :: c in name ==> NameChar(c)
  }

  predicate LegalDecl(d: Decl) {
    d.prefix == "" || IsName(d.prefix)
  }

  predicate LegalAttr(a: CAttr) {
    IsName(a.qname) && !IsDeclName(a.qname)
  }

  /** Names are XML names, no content holds its own terminator, no text is empty or follows text. */
  predicate Legal(c: Canon)
    decreases c, 0
  {
    match c
    case CElement(qname, decls, attrs, children) =>
      && IsName(qname)
      && (forall d :: d in decls ==> LegalDecl(d))
      && (forall a :: a in attrs ==> LegalAttr(a))
      && LegalAll(children)
    case CText(text) => text != ""
    case CComment(text) => !Contains(text, "-->")
    case CPI(target, value) => IsName(target) && !Contains(value, "?>")
  }

  predicate LegalAll(cs: seq<Canon>)
    decreases cs, 1
  {
    cs == [] || (Legal(cs[0]) && LegalAll(cs[1..]) && !(cs[0].CText? && |cs| > 1 && cs[1].CText?))
  }

  // ------------------------------------------------------------ reading back

  function EntityName(c: char): string {
    if c == '&' then "amp"
    else if c == '<' then "lt"
    else if c == '>' then "gt"
    else if c == '"' then "quot"
    else if c == '\t' then "#x9"
    else if c == '\n' then "#xA"
    else "#xD"
  }

  lemma EntityStep(c: char, rest: string)
    requires c in "&<>\"\t\n\r"
    ensures Unescape("&" + EntityName(c) + ";" + rest) == [c] + Unescape(rest)
  {
    var name := EntityName(c);
    var s := "&" + name + ";" + rest;
    assert s[1..] == name + (";" + rest);
    UpToStops(name, ';', ";" + rest);
    assert Drop(s, |name| + 2) == rest;
    assert EntityChar(name) == c;
  }

  lemma PlainStep(c: char, rest: string)
    requires c != '&'
    ensures Unescape([c] + rest) == [c] + Unescape(rest)
  {
    assert ([c] + rest)[1..] == rest;
  }

  lemma TextCharShape(c: char)
    ensures '<' !in EscapeTextChar(c)
    ensures EscapeTextChar(c) == if c in "&<>\r" then "&" + EntityName(c) + ";" else [c]
  {}

  lemma AttributeCharShape(c: char)
    ensures '"' !in EscapeAttributeChar(c)
    ensures EscapeAttributeChar(c) == if c in "&<\"\t\n\r" then "&" + EntityName(c) + ";" else [c]
  {}

  lemma {:induction false} UnescapesText(text: string)
    ensures Unescape(EscapeText(text)) == text
    ensures '<' !in EscapeText(text)
  {
    if text != "" {
      var c, rest := text[0], EscapeText(text[1..]);
      UnescapesText(text[1..]);
      TextCharShape(c);
      if c in "&<>\r" { EntityStep(c, rest); } else { PlainStep(c, rest); }
      assert text == [c] + text[1..];
    }
  }

  lemma UnescapeAttributeStep(c: char, rest: string)
    ensures Unescape(EscapeAttributeChar(c) + rest) == [c] + Unescape(rest)
  {
    AttributeCharShape(c);
    if c in "&<\"\t\n\r" { EntityStep(c, rest); } else { PlainStep(c, rest); }
  }

  lemma {:induction false} UnescapesAttribute(value: string)
    ensures Unescape(EscapeAttribute(value)) == value
    ensures '"' !in EscapeAttribute(value)
  {
    if value != "" {
      UnescapesAttribute(value[1..]);
      UnescapeAttributeStep(value[0], EscapeAttribute(value[1..]));
      AttributeCharShape(value[0]);
      assert value == [value[0]] + value[1..];
    }
  }

  lemma ReadPairStep(name: string, value: string, rest: string)
    requires '=' !in name
    ensures ReadPairs(PrintPair(name, value) + rest)
         == ([CAttr(name, value)] + ReadPairs(rest).0, ReadPairs(rest).1)
  {
    var s := PrintPair(name, value) + rest;
    var v := EscapeAttribute(value);
    UnescapesAttribute(value);
    assert s[1..] == name + ("=\"" + v + "\"" + rest);
    UpToStops(name, '=', "=\"" + v + "\"" + rest);
    var quoted := Drop(s, |name| + 3);
    assert quoted == v + ("\"" + rest);
    UpToStops(v, '"', "\"" + rest);
    assert Drop(quoted, |v| + 1) == rest;
  }

  // Each pair printed reads back as itself; declarations come first and are told by their name.

  function DeclCAttrs(decls: seq<Decl>): seq<CAttr> {
    if decls == [] then [] else [CAttr(DeclName(decls[0].prefix), decls[0].uri)] + DeclCAttrs(decls[1..])
  }

  lemma {:induction false} ReadsAttrs(attrs: seq<CAttr>, rest: string)
    requires forall a :: a in attrs ==> '=' !in a.qname
    requires rest == "" || rest[0] != ' '
    ensures ReadPairs(PrintAttrs(attrs) + rest) == (attrs, rest)
  {
    if attrs == [] {
      assert PrintAttrs(attrs) + rest == rest;
    } else {
      var a := attrs[0];
      ReadsAttrs(attrs[1..], rest);
      Regroup(PrintPair(a.qname, a.value), PrintAttrs(attrs[1..]), rest);
      ReadPairStep(a.qname, a.value, PrintAttrs(attrs[1..]) + rest);
      assert attrs == [a] + attrs[1..];
    }
  }

  lemma {:induction false} DeclsAreAttrs(decls: seq<Decl>, attrs: seq<CAttr>)
    ensures PrintDecls(decls) + PrintAttrs(attrs) == PrintAttrs(DeclCAttrs(decls) + attrs)
  {
    if decls == [] {
      assert PrintDecls(decls) + PrintAttrs(attrs) == PrintAttrs(attrs);
      assert DeclCAttrs(decls) + attrs == attrs;
    } else {
      DeclsAreAttrs(decls[1..], attrs);
      var first := CAttr(DeclName(decls[0].prefix), decls[0].uri);
      var rest := DeclCAttrs(decls[1..]) + attrs;
      assert DeclCAttrs(decls) + attrs == [first] + rest;
      PrintFirst(first, rest);
      Regroup(PrintPair(first.qname, first.value), PrintDecls(decls[1..]), PrintAttrs(attrs));
    }
  }

  lemma PrintFirst(first: CAttr, rest: seq<CAttr>)
    ensures PrintAttrs([first] + rest) == PrintPair(first.qname, first.value) + PrintAttrs(rest)
  {
    assert ([first] + rest)[1..] == rest;
  }

  lemma {:induction false} PairsSplit(decls: seq<Decl>, attrs: seq<CAttr>)
    requires forall a :: a in attrs ==> !IsDeclName(a.qname)
    ensures DeclPairs(DeclCAttrs(decls) + attrs) == decls
    ensures AttrPairs(DeclCAttrs(decls) + attrs) == attrs
  {
    var all := DeclCAttrs(decls) + attrs;
    if decls == [] {
      assert all == attrs;
    } else {
      PairsSplit(decls[1..], attrs);
      assert all[1..] == DeclCAttrs(decls[1..]) + attrs;
      DeclNameBack(decls[0].prefix);
      assert decls == [decls[0]] + decls[1..];
    }
  }

  lemma DeclNameBack(prefix: string)
    ensures var name := DeclName(prefix);
            IsDeclName(name) && name[if name == "xmlns" then 5 else 6..] == prefix
  {
    if prefix != "" {
      assert |"xmlns:" + prefix| > 6;
      assert ("xmlns:" + prefix)[6..] == prefix;
    }
  }

  lemma {:induction false} DeclNamesPlain(decls: seq<Decl>)
    requires forall d :: d in decls ==> LegalDecl(d)
    ensures forall a :: a in DeclCAttrs(decls) ==> '=' !in a.qname
  {
    if decls != [] {
      DeclNamesPlain(decls[1..]);
      assert LegalDecl(decls[0]);
      NameHas(decls[0].prefix);
      assert '=' !in "xmlns:" + decls[0].prefix;
    }
  }

  lemma NameHas(name: string)
    requires name == "" || IsName(name)
    ensures '=' !in name && ' ' !in name && '>' !in name
  {
    assert !NameChar('=') && !NameChar(' ') && !NameChar('>');
  }

  lemma {:induction false} TagNameStops(name: string, rest: string)
    requires ' ' !in name && '>' !in name
    requires rest != "" && (rest[0] == ' ' || rest[0] == '>')
    ensures TagName(name + rest) == name
  {
    if name == "" {
      assert name + rest == rest;
    } else {
      assert (name + rest)[1..] == name[1..] + rest;
      TagNameStops(name[1..], rest);
    }
  }

  lemma PairsStart(pairs: seq<CAttr>, rest: string)
    requires rest != "" && rest[0] == '>'
    ensures var s := PrintAttrs(pairs) + rest; s != "" && (s[0] == ' ' || s[0] == '>')
  {}

  /** A start tag reads back as its name, declarations and attributes. */
  lemma ReadsStart(qname: string, decls: seq<Decl>, attrs: seq<CAttr>, rest: string)
    requires IsName(qname)
    requires forall d :: d in decls ==> LegalDecl(d)
    requires forall a :: a in attrs ==> LegalAttr(a)
    ensures var s := PrintStart(qname, decls, attrs) + rest;
            && s[0] == '<' && TagName(s[1..]) == qname
            && ReadPairs(s[1 + |qname|..]) == (DeclCAttrs(decls) + attrs, ">" + rest)
            && DeclPairs(DeclCAttrs(decls) + attrs) == decls
            && AttrPairs(DeclCAttrs(decls) + attrs) == attrs
  {
    var pairs := DeclCAttrs(decls) + attrs;
    DeclsAreAttrs(decls, attrs);
    PairsSplit(decls, attrs);
    DeclNamesPlain(decls);
    forall a | a in attrs
      ensures '=' !in a.qname
    {
      NameHas(a.qname);
    }
    NameHas(qname);
    PairsStart(pairs, ">" + rest);
    StartParts(qname, PrintAttrs(pairs), rest);
    TagNameStops(qname, PrintAttrs(pairs) + (">" + rest));
    ReadsAttrs(pairs, ">" + rest);
  }

  lemma StartParts(qname: string, middle: string, rest: string)
    ensures var s := "<" + qname + middle + ">" + rest;
            s[0] == '<' && s[1..] == qname + (middle + (">" + rest)) && s[1 + |qname|..] == middle + (">" + rest)
  {}

  /** What may follow a run of siblings. */
  predicate Ends(rest: string) {
    rest == "" || "</" <= rest
  }

  lemma ReadsMisc(c: Canon, rest: string)
    requires (c.CComment? || c.CPI?) && Legal(c)
    ensures ReadNode(Print(c) + rest) == (c, rest)
  {
    if c.CComment? {
      var s := Print(c) + rest;
      assert s == "<!--" + (c.text + "-->" + rest);
      assert s[4..] == c.text + "-->" + rest;
      FindTerminator(c.text, "-->", rest);
      assert s[4..][..|c.text|] == c.text;
      assert Drop(s, |c.text| + 7) == rest;
    } else {
      ReadsPI(c.target, c.value, rest);
    }
  }

  lemma ReadsPI(target: string, value: string, rest: string)
    requires IsName(target) && !Contains(value, "?>")
    ensures ReadNode(Print(CPI(target, value)) + rest) == (CPI(target, value), rest)
  {
    var content := target + if value == "" then "" else " " + value;
    var s := Print(CPI(target, value)) + rest;
    assert s == "<?" + (content + "?>" + rest);
    assert s[2..] == content + "?>" + rest;
    PIContent(target, value);
    FindTerminator(content, "?>", rest);
    assert s[2..][..|content|] == content;
    assert Drop(s, |content| + 4) == rest;
    NameHas(target);
    assert PIOf(content) == CPI(target, value) by {
      UpToStops(target, ' ', if value == "" then "" else " " + value);
      if value != "" {
        assert Drop(content, |target| + 1) == value;
      }
    }
    assert !("<!--" <= s) by { assert s[1] == '?'; }
  }

  lemma PIContent(target: string, value: string)
    requires IsName(target) && !Contains(value, "?>")
    ensures !Contains(target + (if value == "" then "" else " " + value), "?>")
  {
    var content := target + if value == "" then "" else " " + value;
    forall i | 0 <= i <= |content|
      ensures !("?>" <= content[i..])
    {
      if i < |target| {
        assert content[i] == target[i];
        assert NameChar(target[i]) && !NameChar('?');
      } else if i > |target| {
        assert content[i..] == value[i - |target| - 1..];
      } else if i < |content| {
        assert content[i] == ' ';
      }
    }
  }

  /** The reader inverts the printer. */
  lemma {:induction false} ReadsBack(cs: seq<Canon>, rest: string)
    requires LegalAll(cs) && Ends(rest)
    ensures ReadNodes(PrintAll(cs) + rest) == (cs, rest)
    decreases cs
  {
    if cs == [] {
      assert PrintAll(cs) + rest == rest;
    } else {
      var after := PrintAll(cs[1..]) + rest;
      Regroup(Print(cs[0]), PrintAll(cs[1..]), rest);
      ReadsBack(cs[1..], rest);
      Follows(cs, rest);
      ReadsNode(cs[0], after);
      NodeStart(cs[0], after);
      assert cs == [cs[0]] + cs[1..];
    }
  }

  /** After a text comes markup, or nothing. */
  lemma Follows(cs: seq<Canon>, rest: string)
    requires LegalAll(cs) && cs != [] && Ends(rest)
    ensures var after := PrintAll(cs[1..]) + rest;
            cs[0].CText? ==> after == "" || after[0] == '<'
  {
    if cs[0].CText? && cs[1..] != [] {
      assert cs[1..][0] == cs[1];
      assert !cs[1].CText?;
      assert Print(cs[1])[0] == '<';
    }
  }

  lemma TextStart(text: string)
    requires text != ""
    ensures EscapeText(text) != "" && EscapeText(text)[0] != '<'
  {
    UnescapesText(text);
    assert Unescape("") == "";
    var e := EscapeText(text);
    assert e != "" ==> e[0] in e;
  }

  /** A node never prints as nothing or as the start of an end tag. */
  lemma NodeStart(c: Canon, rest: string)
    requires Legal(c)
    ensures Print(c) + rest != "" && !("</" <= Print(c) + rest)
  {
    var s := Print(c) + rest;
    match c
    case CElement(qname, decls, attrs, children) =>
      assert s[1] == qname[0];
      assert NameChar(qname[0]);
    case CText(text) =>
      TextStart(text);
      assert s[0] != '<';
    case CComment(_) =>
      assert s[1] == '!';
    case CPI(_, _) =>
      assert s[1] == '?';
  }

  lemma {:induction false} ReadsNode(c: Canon, rest: string)
    requires Legal(c)
    requires c.CText? ==> rest == "" || rest[0] == '<'
    ensures ReadNode(Print(c) + rest) == (c, rest)
    decreases c, 1
  {
    if c.CElement? {
      ReadsElement(c, rest);
    } else if c.CText? {
      var e := EscapeText(c.text);
      UnescapesText(c.text);
      TextStart(c.text);
      UpToStops(e, '<', rest);
      assert (e + rest)[0] == e[0];
      assert (e + rest)[|e|..] == rest;
    } else {
      ReadsMisc(c, rest);
    }
  }

  lemma {:induction false} ReadsElement(c: Canon, rest: string)
    requires c.CElement? && Legal(c)
    ensures ReadNode(Print(c) + rest) == (c, rest)
    decreases c, 0
  {
    var start := PrintStart(c.qname, c.decls, c.attrs);
    var end := PrintEnd(c.qname) + rest;
    var inner := PrintAll(c.children) + end;
    ElementParts(start, PrintAll(c.children), PrintEnd(c.qname), rest);
    ReadsStart(c.qname, c.decls, c.attrs, inner);
    assert (start + inner)[1] == c.qname[0] && NameChar(c.qname[0]);
    assert Drop(">" + inner, 1) == inner;
    assert Ends(end);
    ReadsBack(c.children, end);
    assert Drop(end, |c.qname| + 3) == rest;
    ReadElementOf(start + inner, c.qname, DeclCAttrs(c.decls) + c.attrs, ">" + inner, c.children, end);
  }

  lemma ElementParts(start: string, inner: string, end: string, rest: string)
    ensures start + inner + end + rest == start + (inner + (end + rest))
  {}

  /** What the reader makes of an element, given what it makes of the parts. */
  lemma ReadElementOf(s: string, qname: string, pairs: seq<CAttr>, body: string, children: seq<Canon>, tail: string)
    requires |s| > 1 && s[0] == '<' && s[1] != '!' && s[1] != '?'
    requires TagName(s[1..]) == qname && ReadPairs(s[1 + |qname|..]) == (pairs, body)
    requires ReadNodes(Drop(body, 1)) == (children, tail)
    ensures ReadNode(s)
         == (CElement(qname, DeclPairs(pairs), AttrPairs(pairs), children), Drop(tail, |qname| + 3))
  {}

  /** Canonical octets are injective on legal canonical forests. */
  lemma OctetsDetermineTheTree(a: seq<Canon>, b: seq<Canon>)
    requires LegalAll(a) && LegalAll(b) && PrintAll(a) == PrintAll(b)
    ensures a == b
  {
    ReadsBack(a, "");
    ReadsBack(b, "");
    assert PrintAll(a) + "" == PrintAll(a) && PrintAll(b) + "" == PrintAll(b);
  }
}
