/**
 A small dossier with everything the structural parser asks for, in the text a
 reader would find it in.

 Two things vary: how the document profile writes its `OBJREF`, and one identifier
 of an element that means nothing to the format. `Accepted` shows that the parser
 takes it either way. Two theorems elsewhere find an input here.
 */
module SmallDossier {
  import opened Wrappers
  import opened XmlTree
  import opened C14n
  import opened C14nAxes
  import opened C14nReader
  import opened C14nMeaning
  import opened C14nTheorems
  import opened Ids
  import opened IdSpace
  import opened Dossier
  import opened Names
  import opened SignatureXml
  import opened Planner
  import opened TreeScan
  import opened WrittenScan

  const NS: string := "urn:es"

  /** The `OBJREF` of the document profile, and the note's one attribute. */
  datatype Variant = Variant(objref: string, name: string, value: string)

  function Tagged(local: string, attrs: seq<Attr>, kids: seq<Node>): Node { Make("es", NS, local, [], attrs, kids) }

  function Title(): Node { Tagged("Title", [], Raw("T")) }
  function Created(): Node { Tagged("CreationDate", [], Raw("2026-01-01")) }
  function Mime(): Node { Tagged("MIME-Type", [Named("type", "text"), Named("subtype", "plain")], []) }
  function DocFormat(): Node { Tagged("Format", [], [Mime()]) }
  function Transform(): Node { Tagged("Transform", [Named("Algorithm", "base64")], []) }
  function Base(): Node { Tagged("BaseTransform", [], [Transform()]) }
  function DocProfile(v: Variant): Node {
    Tagged("DocumentProfile", [Named("Id", "e"), Named("OBJREF", v.objref)], [Title(), Created(), DocFormat(), Base()])
  }
  function Payload(): Node { DsElement("Object", [Named("Id", "o")], Raw("YQ==")) }
  function Note(v: Variant): Node { Tagged("Note", [Named(v.name, v.value)], []) }
  function Doc(v: Variant): Node { Tagged("Document", [], [DocProfile(v), Payload(), Note(v)]) }
  function Head(): Node { Tagged("DossierProfile", [Named("Id", "p"), Named("OBJREF", "d")], [Title()]) }
  function Body(v: Variant): Node { Tagged("Documents", [Named("Id", "d")], [Doc(v)]) }
  function Top(v: Variant): Node { Make("es", NS, "Dossier", [Decl("es", NS), Decl("ds", XMLDSIG)], [], [Head(), Body(v)]) }
  function Whole(v: Variant): Node { Root([Top(v)], "", "") }

  const TOP: Path := [0]
  const HEAD: Path := [0, 0]
  const HEAD_TITLE: Path := [0, 0, 0]
  const BODY: Path := [0, 1]
  const DOCUMENT: Path := [0, 1, 0]
  const PROFILE: Path := [0, 1, 0, 0]
  const TITLE: Path := [0, 1, 0, 0, 0]
  const CREATED: Path := [0, 1, 0, 0, 1]
  const FORMAT: Path := [0, 1, 0, 0, 2]
  const MIME: Path := [0, 1, 0, 0, 2, 0]
  const BASE: Path := [0, 1, 0, 0, 3]
  const TRANSFORM: Path := [0, 1, 0, 0, 3, 0]
  const OBJECT: Path := [0, 1, 0, 1]
  const NOTE: Path := [0, 1, 0, 2]

  /** The payload is named, with or without `#`, and the note's identifier is one of its own. */
  predicate Fair(v: Variant) {
    && v.objref in ["o", "#o"] && v.name in ["Id", "id"] && v.value !in ["", "p", "d", "e", "o"]
  }

  // ------------------------------------------------------------ what is where

  lemma KidOf(doc: Node, p: Path, k: nat, n: Node, kid: Node)
    requires IsAt(doc, p, n) && k < |Kids(n)| && Kids(n)[k] == kid
    ensures IsAt(doc, p + [k], kid)
  {
    AtConcat(doc, p, [k]);
    assert [k][1..] == [];
  }

  lemma AtTop(doc: Node)
    ensures IsAt(doc, [], doc)
  {}

  lemma PathSteps()
    ensures [] + [0] == TOP && TOP + [0] == HEAD && TOP + [1] == BODY && HEAD + [0] == HEAD_TITLE && BODY + [0] == DOCUMENT
    ensures DOCUMENT + [0] == PROFILE && DOCUMENT + [1] == OBJECT && DOCUMENT + [2] == NOTE
    ensures PROFILE + [0] == TITLE && PROFILE + [1] == CREATED && PROFILE + [2] == FORMAT && PROFILE + [3] == BASE
    ensures FORMAT + [0] == MIME && BASE + [0] == TRANSFORM
  {}

  lemma Shapes(v: Variant)
    ensures Kids(Whole(v)) == [Top(v)] && Kids(Top(v)) == [Head(), Body(v)] && Kids(Head()) == [Title()] && Kids(Body(v)) == [Doc(v)]
    ensures Kids(Doc(v)) == [DocProfile(v), Payload(), Note(v)] && Kids(DocProfile(v)) == [Title(), Created(), DocFormat(), Base()]
    ensures Kids(DocFormat()) == [Mime()] && Kids(Base()) == [Transform()]
    ensures Kids(Title()) == Raw("T") && Kids(Created()) == Raw("2026-01-01") && Kids(Payload()) == Raw("YQ==")
    ensures Kids(Mime()) == [] && Kids(Transform()) == [] && Kids(Note(v)) == []
  {
    hide OpenTag;
  }

  lemma Everywhere(v: Variant)
    ensures var doc := Whole(v);
            && IsAt(doc, TOP, Top(v)) && IsAt(doc, HEAD, Head()) && IsAt(doc, HEAD_TITLE, Title()) && IsAt(doc, BODY, Body(v))
            && IsAt(doc, DOCUMENT, Doc(v)) && IsAt(doc, PROFILE, DocProfile(v)) && IsAt(doc, TITLE, Title()) && IsAt(doc, CREATED, Created())
            && IsAt(doc, FORMAT, DocFormat()) && IsAt(doc, MIME, Mime()) && IsAt(doc, BASE, Base()) && IsAt(doc, TRANSFORM, Transform())
            && IsAt(doc, OBJECT, Payload()) && IsAt(doc, NOTE, Note(v))
  {
    hide *;
    var doc := Whole(v);
    AtTop(doc);
    PathSteps();
    Shapes(v);
    KidOf(doc, [], 0, doc, Top(v));
    KidOf(doc, TOP, 0, Top(v), Head());
    KidOf(doc, TOP, 1, Top(v), Body(v));
    KidOf(doc, HEAD, 0, Head(), Title());
    KidOf(doc, BODY, 0, Body(v), Doc(v));
    KidOf(doc, DOCUMENT, 0, Doc(v), DocProfile(v));
    KidOf(doc, DOCUMENT, 1, Doc(v), Payload());
    KidOf(doc, DOCUMENT, 2, Doc(v), Note(v));
    KidOf(doc, PROFILE, 0, DocProfile(v), Title());
    KidOf(doc, PROFILE, 1, DocProfile(v), Created());
    KidOf(doc, PROFILE, 2, DocProfile(v), DocFormat());
    KidOf(doc, PROFILE, 3, DocProfile(v), Base());
    KidOf(doc, FORMAT, 0, DocFormat(), Mime());
    KidOf(doc, BASE, 0, Base(), Transform());
  }

  // ---------------------------------------------------------- what every node is

  /** The names, identifiers and references that occur. */
  predicate Known(v: Variant, n: Node) {
    && n.Element? && n.local != "Signature" && n.local != "TimeStamp"
    && (AttributeOf(n, "Id").Some? ==> AttributeOf(n, "Id").value in KnownIds(v))
    && (n.local == "DossierProfile" ==> AttributeOf(n, "OBJREF") == Some("d"))
    && (n.local == "DocumentProfile" ==> AttributeOf(n, "OBJREF") == Some(v.objref))
  }

  /** What `Id` spells. */
  function KnownIds(v: Variant): seq<string> {
    ["p", "d", "e", "o"] + if v.name == "Id" then [v.value] else []
  }

  predicate KnownTree(v: Variant, n: Node)
    decreases n, 1
  {
    (n.Element? ==> Known(v, n)) && (n.Root? || n.Element? ==> KnownAll(v, n.children))
  }

  predicate KnownAll(v: Variant, kids: seq<Node>)
    decreases kids, 0
  {
    kids == [] || (KnownTree(v, kids[0]) && KnownAll(v, kids[1..]))
  }

  lemma {:induction false} KnownKid(v: Variant, kids: seq<Node>, k: nat)
    requires KnownAll(v, kids) && k < |kids|
    ensures KnownTree(v, kids[k])
  {
    if k > 0 { KnownKid(v, kids[1..], k - 1); }
  }

  lemma {:induction false} KnownAt(v: Variant, n: Node, p: Path)
    requires KnownTree(v, n) && Valid(n, p)
    ensures At(n, p).Element? ==> Known(v, At(n, p))
    decreases |p|
  {
    hide Known;
    if p != [] {
      KnownKid(v, Kids(n), p[0]);
      KnownAt(v, Kids(n)[p[0]], p[1..]);
    }
  }

  const SCOPE: Scope := [Decl("es", NS), Decl("ds", XMLDSIG), Decl("xml", XML_NAMESPACE)]

  /** A node whose names are bound and known, with the identifiers it carries. */
  ghost predicate Sound(v: Variant, n: Node, bag: multiset<string>) {
    n.Element? && KnownTree(v, n) && WellNamed(n, SCOPE) && IdBag(n) == bag && Scannable(n)
  }

  ghost predicate SoundAll(v: Variant, kids: seq<Node>, bag: multiset<string>) {
    KnownAll(v, kids) && WellNamedAll(kids, SCOPE) && IdBagOf(kids) == bag && ScannableAll(kids)
  }

  lemma NoneSound(v: Variant)
    ensures SoundAll(v, [], multiset{})
  {}

  lemma TextSound(v: Variant, text: string)
    requires '<' !in text
    ensures SoundAll(v, Raw(text), multiset{})
  {
    var kids := Raw(text);
    assert kids[1..] == [] && kids[0].Text?;
    assert WellNamed(kids[0], SCOPE) && IdBag(kids[0]) == multiset{} && KnownTree(v, kids[0]);
    RawScans(text);
  }

  lemma ConsSound(v: Variant, n: Node, rest: seq<Node>, own: multiset<string>, below: multiset<string>)
    requires Sound(v, n, own) && SoundAll(v, rest, below)
    ensures SoundAll(v, [n] + rest, own + below)
  {
    hide Known, WellNamed, IdBag, KnownTree, Scannable;
    assert ([n] + rest)[1..] == rest;
  }

  /** A local name, and a prefix in scope. */
  predicate PlainName(local: string) {
    IsName(local) && ':' !in local
  }

  lemma PrefixRead(prefix: string, local: string)
    requires ':' !in prefix
    ensures QnamePrefix(prefix + ":" + local) == prefix && LocalName(prefix + ":" + local) == local
  {
    BeforeRead(prefix, local);
  }

  lemma {:induction false} BeforeRead(prefix: string, local: string)
    requires ':' !in prefix
    ensures BeforeColon(prefix + ":" + local) == prefix && AfterColon(prefix + ":" + local) == local
  {
    var s := prefix + ":" + local;
    if prefix == "" {
      assert s[0] == ':' && s[1..] == local;
    } else {
      assert s[1..] == prefix[1..] + ":" + local;
      BeforeRead(prefix[1..], local);
    }
  }

  lemma {:induction false} NothingUndeclared(outer: Scope)
    ensures Undeclared([], outer) == outer
  {
    if outer != [] { NothingUndeclared(outer[1..]); }
  }

  lemma LookupFirst(d: Decl, rest: Scope, prefix: string)
    ensures Lookup([d] + rest, prefix) == if d.prefix == prefix then d.uri else Lookup(rest, prefix)
  {
    assert ([d] + rest)[1..] == rest;
  }

  lemma UndeclaredFirst(decls: seq<Decl>, d: Decl)
    requires !Declares(decls, d.prefix)
    ensures Undeclared(decls, [d]) == [d]
  {
    assert [d][1..] == [];
  }

  lemma Bindings()
    ensures Lookup(SCOPE, "es") == NS && Lookup(SCOPE, "ds") == XMLDSIG && Extend([], SCOPE) == SCOPE
    ensures Bound(SCOPE, "es") && Bound(SCOPE, "ds")
  {
    hide Lookup, Undeclared;
    NothingUndeclared(SCOPE);
    var es, ds, xml := Decl("es", NS), Decl("ds", XMLDSIG), Decl("xml", XML_NAMESPACE);
    assert SCOPE == [es] + ([ds] + [xml]) && SCOPE[0] == es && SCOPE[1] == ds;
    assert es in SCOPE && ds in SCOPE;
    LookupFirst(es, [ds] + [xml], "es");
    LookupFirst(es, [ds] + [xml], "ds");
    LookupFirst(ds, [xml], "ds");
    assert "es"[0] != "ds"[0];
    assert [] + SCOPE == SCOPE;
  }

  lemma TopScope()
    ensures Extend([Decl("es", NS), Decl("ds", XMLDSIG)], BASE_SCOPE) == SCOPE
  {
    hide Undeclared;
    var decls := [Decl("es", NS), Decl("ds", XMLDSIG)];
    assert |"xml"| != |"es"| && |"xml"| != |"ds"|;
    assert !Declares(decls, "xml");
    UndeclaredFirst(decls, Decl("xml", XML_NAMESPACE));
  }

  /** An attribute without a prefix. */
  lemma PlainAttr(name: string, value: string)
    requires PlainName(name) && !IsDeclName(name)
    ensures NamedAttr(Named(name, value), SCOPE)
  {}

  lemma QnameIsName(prefix: string, local: string)
    requires (prefix == "es" || prefix == "ds") && PlainName(local)
    ensures IsName(prefix + ":" + local) && QnamePrefix(prefix + ":" + local) == prefix && LocalName(prefix + ":" + local) == local
  {
    hide QnamePrefix, LocalName;
    PrefixRead(prefix, local);
    var qname := prefix + ":" + local;
    assert forall c :: c in qname ==> c in prefix || c == ':' || c in local;
  }

  lemma WrapNamed(v: Variant, prefix: string, ns: string, local: string, attrs: seq<Attr>, kids: seq<Node>, below: multiset<string>)
    requires KnownAll(v, kids) && WellNamedAll(kids, SCOPE) && IdBagOf(kids) == below && PlainName(local)
    requires (prefix == "es" && ns == NS) || (prefix == "ds" && ns == XMLDSIG)
    requires (forall a :: a in attrs ==> NamedAttr(a, SCOPE)) && Known(v, Make(prefix, ns, local, [], attrs, kids))
    ensures var n := Make(prefix, ns, local, [], attrs, kids);
            n.Element? && KnownTree(v, n) && WellNamed(n, SCOPE) && IdBag(n) == AttrBag(attrs) + below
  {
    hide Known, NamedAttr, OpenTag, AttrBag, Extend, IsName, QnamePrefix, LocalName, Lookup, Bound, PlainName;
    Bindings();
    QnameIsName(prefix, local);
  }

  lemma WrapScans(prefix: string, ns: string, local: string, attrs: seq<Attr>, kids: seq<Node>)
    requires ScannableAll(kids) && PlainName(local) && (prefix == "es" || prefix == "ds")
    requires forall a :: a in attrs ==> NamedAttr(a, SCOPE)
    ensures Scannable(Make(prefix, ns, local, [], attrs, kids))
  {
    hide Scannable, ScannableAll, Make;
    PrefixesAreNames();
    MakeScans(prefix, ns, local, [], attrs, kids);
  }

  /** An element around sound children. */
  lemma Wrap(v: Variant, prefix: string, ns: string, local: string, attrs: seq<Attr>, kids: seq<Node>, below: multiset<string>)
    requires SoundAll(v, kids, below) && PlainName(local)
    requires (prefix == "es" && ns == NS) || (prefix == "ds" && ns == XMLDSIG)
    requires (forall a :: a in attrs ==> NamedAttr(a, SCOPE)) && Known(v, Make(prefix, ns, local, [], attrs, kids))
    ensures Sound(v, Make(prefix, ns, local, [], attrs, kids), AttrBag(attrs) + below)
  {
    hide Known, NamedAttr, OpenTag, AttrBag, Extend, IsName, QnamePrefix, LocalName, Lookup, Bound, PlainName, Scannable, ScannableAll, NamedTag,
         Make;
    WrapScans(prefix, ns, local, attrs, kids);
    WrapNamed(v, prefix, ns, local, attrs, kids, below);
  }

  lemma OneBag(name: string, value: string)
    ensures AttrBag([Named(name, value)]) == if name in ["Id", "ID", "id"] then multiset{value} else multiset{}
  {
    assert [Named(name, value)][1..] == [];
  }

  lemma TwoBag(name: string, value: string, other: string, more: string)
    ensures AttrBag([Named(name, value), Named(other, more)]) == AttrBag([Named(name, value)]) + AttrBag([Named(other, more)])
  {
    assert [Named(name, value), Named(other, more)][1..] == [Named(other, more)] && [Named(name, value)][1..] == [];
  }

  lemma OneAttrIs(n: Node, name: string, value: string, x: string)
    requires n.Element? && n.attrs == [Named(name, value)]
    ensures AttributeOf(n, x) == if x == name then Some(value) else None
  {
    assert n.attrs[1..] == [];
    assert AttrValue(n.attrs[1..], x) == None && n.attrs[0] == Named(name, value);
  }

  lemma TwoAttrsAre(n: Node, name: string, value: string, other: string, more: string, x: string)
    requires n.Element? && n.attrs == [Named(name, value), Named(other, more)]
    ensures AttributeOf(n, x) == if x == name then Some(value) else if x == other then Some(more) else None
  {
    assert n.attrs[1..] == [Named(other, more)] && [Named(other, more)][1..] == [];
    assert AttrValue([Named(other, more)], x) == if x == other then Some(more) else None;
  }

  lemma ShortNames()
    ensures PlainName("Title") && PlainName("Format") && PlainName("Object") && PlainName("Note")
  {}

  lemma LongerNames()
    ensures PlainName("Creation") && PlainName("Date") && PlainName("MIME-Type") && PlainName("Transform") && PlainName("Base")
  {}

  lemma OtherNames()
    ensures PlainName("Document") && PlainName("Profile") && PlainName("Dossier") && PlainName("s")
  {}

  lemma JoinedName(a: string, b: string)
    requires PlainName(a) && PlainName(b)
    ensures PlainName(a + b)
  {}

  lemma NamesArePlain()
    ensures PlainName("Title") && PlainName("CreationDate") && PlainName("MIME-Type") && PlainName("Format") && PlainName("Transform")
    ensures PlainName("BaseTransform") && PlainName("DocumentProfile") && PlainName("Object") && PlainName("Note") && PlainName("Document")
    ensures PlainName("DossierProfile") && PlainName("Documents") && PlainName("Dossier")
  {
    hide PlainName;
    ShortNames();
    LongerNames();
    OtherNames();
    JoinedName("Creation", "Date");
    JoinedName("Base", "Transform");
    JoinedName("Document", "Profile");
    JoinedName("Dossier", "Profile");
    JoinedName("Document", "s");
    assert "Creation" + "Date" == "CreationDate" && "Base" + "Transform" == "BaseTransform";
    assert "Document" + "Profile" == "DocumentProfile" && "Dossier" + "Profile" == "DossierProfile" && "Document" + "s" == "Documents";
  }

  lemma AttrNames()
    ensures PlainName("Id") && PlainName("id") && PlainName("OBJREF") && PlainName("type") && PlainName("subtype") && PlainName("Algorithm")
  {}

  lemma AttrsArePlain(value: string)
    ensures NamedAttr(Named("Id", value), SCOPE) && NamedAttr(Named("id", value), SCOPE) && NamedAttr(Named("OBJREF", value), SCOPE)
    ensures NamedAttr(Named("type", value), SCOPE) && NamedAttr(Named("subtype", value), SCOPE)
    ensures NamedAttr(Named("Algorithm", value), SCOPE)
  {
    hide PlainName, NamedAttr;
    AttrNames();
    assert "OBJREF"[0] == 'O' && "subtype"[0] == 's' && "Algorithm"[0] == 'A';
    PlainAttr("Id", value);
    PlainAttr("id", value);
    PlainAttr("OBJREF", value);
    PlainAttr("type", value);
    PlainAttr("subtype", value);
    PlainAttr("Algorithm", value);
  }

  /** Another name for the same bag. */
  lemma Rename(v: Variant, n: Node, bag: multiset<string>, same: multiset<string>)
    requires Sound(v, n, bag) && bag == same
    ensures Sound(v, n, same)
  {}

  lemma OnlyKid(v: Variant, n: Node, bag: multiset<string>)
    requires Sound(v, n, bag)
    ensures SoundAll(v, [n], bag)
  {
    hide Sound, SoundAll;
    NoneSound(v);
    ConsSound(v, n, [], bag, multiset{});
    assert [n] + [] == [n] && bag + multiset{} == bag;
  }

  lemma LeavesKnown(v: Variant)
    ensures Known(v, Title()) && Known(v, Created()) && Known(v, Payload())
  {
    hide OpenTag;
    OneAttrIs(Payload(), "Id", "o", "Id");
  }

  /** A node the format gives no identifier. */
  lemma UnmarkedKnown(v: Variant, n: Node)
    requires n.Element? && AttributeOf(n, "Id") == None
    requires n.local in ["MIME-Type", "Transform", "Format", "BaseTransform"]
    ensures Known(v, n)
  {
    hide AttributeOf;
    assert |n.local| != |"DossierProfile"| && |n.local| != |"DocumentProfile"|;
    assert n.local != "TimeStamp" && n.local != "Signature" by { assert n.local[0] != 'T' || n.local[1] == 'r'; assert n.local[0] != 'S'; }
  }

  lemma FormatKnown(v: Variant)
    ensures Known(v, Mime()) && Known(v, Transform()) && Known(v, DocFormat()) && Known(v, Base())
  {
    hide OpenTag, AttributeOf, Known;
    NoValue(DocFormat(), "Id");
    NoValue(Base(), "Id");
    TwoAttrsAre(Mime(), "type", "text", "subtype", "plain", "Id");
    OneAttrIs(Transform(), "Algorithm", "base64", "Id");
    UnmarkedKnown(v, Mime());
    UnmarkedKnown(v, Transform());
    UnmarkedKnown(v, DocFormat());
    UnmarkedKnown(v, Base());
  }

  lemma NoValue(n: Node, name: string)
    requires n.Element? && n.attrs == []
    ensures AttributeOf(n, name) == None
  {}

  lemma LeavesSound(v: Variant)
    ensures Sound(v, Title(), multiset{}) && Sound(v, Created(), multiset{}) && Sound(v, Payload(), multiset{"o"})
  {
    hide Sound, SoundAll, OpenTag, PlainName, Make, NamedAttr, AttributeOf, AttrBag;
    NamesArePlain();
    AttrsArePlain("o");
    TextSound(v, "T");
    TextSound(v, "2026-01-01");
    TextSound(v, "YQ==");
    LeavesKnown(v);
    OneBag("Id", "o");
    NoAttrs();
    Wrap(v, "es", NS, "Title", [], Raw("T"), multiset{});
    Wrap(v, "es", NS, "CreationDate", [], Raw("2026-01-01"), multiset{});
    Wrap(v, "ds", XMLDSIG, "Object", [Named("Id", "o")], Raw("YQ=="), multiset{});
    Rename(v, Payload(), multiset{"o"} + multiset{}, multiset{"o"});
  }

  lemma NoAttrs()
    ensures AttrBag([]) == multiset{} && forall bag: multiset<string> :: multiset{} + bag == bag
  {}

  lemma FormatSound(v: Variant)
    ensures Sound(v, DocFormat(), multiset{}) && Sound(v, Base(), multiset{})
  {
    hide Sound, SoundAll, OpenTag, PlainName, Make, NamedAttr, AttributeOf, AttrBag;
    NamesArePlain();
    AttrsArePlain("text");
    AttrsArePlain("plain");
    AttrsArePlain("base64");
    NoneSound(v);
    NoAttrs();
    FormatKnown(v);
    TwoBag("type", "text", "subtype", "plain");
    OneBag("type", "text");
    OneBag("subtype", "plain");
    OneBag("Algorithm", "base64");
    Wrap(v, "es", NS, "MIME-Type", [Named("type", "text"), Named("subtype", "plain")], [], multiset{});
    OnlyKid(v, Mime(), multiset{});
    Wrap(v, "es", NS, "Format", [], [Mime()], multiset{});
    Wrap(v, "es", NS, "Transform", [Named("Algorithm", "base64")], [], multiset{});
    OnlyKid(v, Transform(), multiset{});
    Wrap(v, "es", NS, "BaseTransform", [], [Transform()], multiset{});
  }

  lemma FourKids(v: Variant, a: Node, b: Node, c: Node, d: Node)
    requires Sound(v, a, multiset{}) && Sound(v, b, multiset{}) && Sound(v, c, multiset{}) && Sound(v, d, multiset{})
    ensures SoundAll(v, [a, b, c, d], multiset{})
  {
    hide Sound, SoundAll;
    NoAttrs();
    OnlyKid(v, d, multiset{});
    ConsSound(v, c, [d], multiset{}, multiset{});
    ConsSound(v, b, [c] + [d], multiset{}, multiset{} + multiset{});
    ConsSound(v, a, [b] + ([c] + [d]), multiset{}, multiset{});
    assert [a] + ([b] + ([c] + [d])) == [a, b, c, d];
  }

  lemma ProfileSound(v: Variant)
    requires Fair(v)
    ensures Sound(v, DocProfile(v), multiset{"e"}) && Sound(v, Head(), multiset{"p"})
  {
    hide Sound, SoundAll, OpenTag, PlainName, Make, NamedAttr, AttributeOf, AttrBag;
    NamesArePlain();
    AttrsArePlain("e");
    AttrsArePlain("p");
    AttrsArePlain("d");
    AttrsArePlain(v.objref);
    LeavesSound(v);
    FormatSound(v);
    FourKids(v, Title(), Created(), DocFormat(), Base());
    OnlyKid(v, Title(), multiset{});
    ProfileKnown(v);
    TwoBag("Id", "e", "OBJREF", v.objref);
    OneBag("Id", "e");
    OneBag("OBJREF", v.objref);
    TwoBag("Id", "p", "OBJREF", "d");
    OneBag("Id", "p");
    OneBag("OBJREF", "d");
    Wrap(v, "es", NS, "DocumentProfile", [Named("Id", "e"), Named("OBJREF", v.objref)], [Title(), Created(), DocFormat(), Base()], multiset{});
    Wrap(v, "es", NS, "DossierProfile", [Named("Id", "p"), Named("OBJREF", "d")], [Title()], multiset{});
    Rename(v, DocProfile(v), (multiset{"e"} + multiset{}) + multiset{}, multiset{"e"});
    Rename(v, Head(), (multiset{"p"} + multiset{}) + multiset{}, multiset{"p"});
  }

  lemma ProfileKnown(v: Variant)
    requires Fair(v)
    ensures Known(v, DocProfile(v)) && Known(v, Head())
  {
    hide OpenTag, AttributeOf;
    TwoAttrsAre(DocProfile(v), "Id", "e", "OBJREF", v.objref, "Id");
    TwoAttrsAre(DocProfile(v), "Id", "e", "OBJREF", v.objref, "OBJREF");
    TwoAttrsAre(Head(), "Id", "p", "OBJREF", "d", "Id");
    TwoAttrsAre(Head(), "Id", "p", "OBJREF", "d", "OBJREF");
  }

  lemma OthersKnown(v: Variant)
    requires Fair(v)
    ensures Known(v, Note(v)) && Known(v, Doc(v)) && Known(v, Body(v)) && Known(v, Top(v))
  {
    hide OpenTag, AttributeOf;
    OneAttrIs(Note(v), v.name, v.value, "Id");
    OneAttrIs(Body(v), "Id", "d", "Id");
    NoValue(Doc(v), "Id");
    NoValue(Top(v), "Id");
  }

  lemma ThreeKids(v: Variant, a: Node, x: multiset<string>, b: Node, y: multiset<string>, c: Node, z: multiset<string>)
    requires Sound(v, a, x) && Sound(v, b, y) && Sound(v, c, z)
    ensures SoundAll(v, [a, b, c], x + (y + z))
  {
    hide Sound, SoundAll;
    OnlyKid(v, c, z);
    ConsSound(v, b, [c], y, z);
    ConsSound(v, a, [b] + [c], x, y + z);
    assert [a] + ([b] + [c]) == [a, b, c];
  }

  lemma BodySound(v: Variant)
    requires Fair(v)
    ensures Sound(v, Body(v), multiset{"d", "e", "o", v.value})
  {
    hide Sound, SoundAll, OpenTag, PlainName, Make, NamedAttr, AttributeOf, AttrBag, Known;
    NamesArePlain();
    AttrsArePlain("d");
    AttrsArePlain(v.value);
    LeavesSound(v);
    ProfileSound(v);
    OthersKnown(v);
    NoneSound(v);
    NoAttrs();
    OneBag(v.name, v.value);
    OneBag("Id", "d");
    Wrap(v, "es", NS, "Note", [Named(v.name, v.value)], [], multiset{});
    Rename(v, Note(v), multiset{v.value} + multiset{}, multiset{v.value});
    ThreeKids(v, DocProfile(v), multiset{"e"}, Payload(), multiset{"o"}, Note(v), multiset{v.value});
    var below := multiset{"e"} + (multiset{"o"} + multiset{v.value});
    Wrap(v, "es", NS, "Document", [], [DocProfile(v), Payload(), Note(v)], below);
    OnlyKid(v, Doc(v), below);
    Wrap(v, "es", NS, "Documents", [Named("Id", "d")], [Doc(v)], below);
    Rename(v, Body(v), multiset{"d"} + below, multiset{"d", "e", "o", v.value});
  }

  /** A parsed document: its names are bound as it spells them, and these are its identifiers. */
  lemma WholeSound(v: Variant)
    requires Fair(v)
    ensures WellFormed(Whole(v)) && KnownTree(v, Whole(v)) && IdBag(Whole(v)) == multiset{"p", "d", "e", "o", v.value}
    ensures Scannable(Whole(v))
  {
    hide Top;
    TopSound(v);
    RootSound(v, Top(v));
    RootScans(Top(v));
  }

  lemma RootScans(top: Node)
    requires Scannable(top)
    ensures Scannable(Root([top], "", ""))
  {
    hide Passes;
    NothingPasses();
    OneScans(top);
  }

  lemma RootSound(v: Variant, top: Node)
    requires top.Element? && KnownTree(v, top) && WellNamed(top, BASE_SCOPE)
    ensures WellFormed(Root([top], "", "")) && KnownTree(v, Root([top], "", "")) && IdBag(Root([top], "", "")) == IdBag(top)
  {
    hide Known, WellNamed, IdBag, KnownTree, WellNamedAll;
    KnownOne(v, top);
    NamedOne(top);
    BagOne(top);
  }

  lemma KnownOne(v: Variant, top: Node)
    requires KnownTree(v, top)
    ensures KnownTree(v, Root([top], "", ""))
  {
    hide Known;
    var kids := [top];
    assert kids[1..] == [] && kids[0] == top;
    assert KnownAll(v, kids);
  }

  lemma NamedOne(top: Node)
    requires WellNamed(top, BASE_SCOPE)
    ensures WellNamedAll([top], BASE_SCOPE)
  {
    hide WellNamed;
    assert [top][1..] == [];
  }

  lemma BagOne(top: Node)
    ensures IdBag(Root([top], "", "")) == IdBag(top)
  {
    var kids := [top];
    assert kids[1..] == [] && IdBagOf(kids) == IdBag(top) + multiset{};
  }

  lemma DeclaringScans(kids: seq<Node>)
    requires ScannableAll(kids)
    ensures Scannable(Make("es", NS, "Dossier", [Decl("es", NS), Decl("ds", XMLDSIG)], [], kids))
  {
    hide Scannable, ScannableAll, Make, PlainName;
    PrefixesAreNames();
    NamesArePlain();
    DossierIsName();
    MakeScans("es", NS, "Dossier", [Decl("es", NS), Decl("ds", XMLDSIG)], [], kids);
  }

  lemma DossierIsName()
    ensures IsName("Dossier")
  {}

  lemma DeclaringNamed(kids: seq<Node>)
    requires WellNamedAll(kids, SCOPE)
    ensures WellNamed(Make("es", NS, "Dossier", [Decl("es", NS), Decl("ds", XMLDSIG)], [], kids), BASE_SCOPE)
  {
    hide OpenTag, WellNamedAll, Extend, IsName, LegalDecls, ProperScope, QnamePrefix, LocalName, Lookup, Declares;
    TopScope();
    Bindings();
    PrefixRead("es", "Dossier");
    TopIsNamed();
    assert "es" + ":" + "Dossier" == "es:Dossier";
  }

  lemma KnownAround(v: Variant, n: Node)
    requires n.Element? && Known(v, n) && KnownAll(v, n.children)
    ensures KnownTree(v, n)
  {
    hide Known, KnownAll;
  }

  lemma BagAround(n: Node)
    requires n.Element? && n.attrs == []
    ensures IdBag(n) == IdBagOf(n.children)
  {
    hide IdBagOf;
    NoAttrs();
  }

  lemma TopSound(v: Variant)
    requires Fair(v)
    ensures Top(v).Element? && KnownTree(v, Top(v)) && WellNamed(Top(v), BASE_SCOPE) && Scannable(Top(v))
    ensures IdBag(Top(v)) == multiset{"p", "d", "e", "o", v.value}
  {
    hide OpenTag, Known, Head, Body, Sound, KnownTree, KnownAll, WellNamed, WellNamedAll, IdBag, IdBagOf, Scannable, ScannableAll;
    ProfileSound(v);
    BodySound(v);
    OthersKnown(v);
    var kids := [Head(), Body(v)];
    OnlyKid(v, Body(v), multiset{"d", "e", "o", v.value});
    ConsSound(v, Head(), [Body(v)], multiset{"p"}, multiset{"d", "e", "o", v.value});
    assert [Head()] + [Body(v)] == kids;
    assert multiset{"p"} + multiset{"d", "e", "o", v.value} == multiset{"p", "d", "e", "o", v.value};
    DeclaringNamed(kids);
    DeclaringScans(kids);
    KnownAround(v, Top(v));
    BagAround(Top(v));
  }

  lemma TopIsNamed()
    ensures IsName("es:Dossier") && LegalDecls([Decl("es", NS), Decl("ds", XMLDSIG)]) && ProperScope([Decl("es", NS), Decl("ds", XMLDSIG)])
  {
    assert "es"[0] != "ds"[0];
  }

  // ----------------------------------------------------------------- what is found

  lemma IdsAre(v: Variant)
    requires Fair(v)
    ensures IdMap(Whole(v)).Some?
  {
    hide Whole, IdBag, IdMap;
    WholeSound(v);
    IdMapByBag(Whole(v));
  }

  /** The signer's search and the verifier's map both name this element. */
  predicate Finds(doc: Node, x: string, p: Path) {
    ById(doc, x) == Some(p) && IdMap(doc).Some? && x in IdMap(doc).value && IdMap(doc).value[x] == p
  }

  lemma Found(v: Variant, x: string, p: Path, n: Node)
    requires Fair(v) && IsAt(Whole(v), p, n) && n.Element? && AttributeOf(n, "Id") == Some(x)
    ensures Finds(Whole(v), x, p)
  {
    hide Whole, IdMap, ById;
    IdsAre(v);
    ByIdIsTheMap(Whole(v), x, p);
    IdAttrCarries(Whole(v), p, x);
    IdMapExact(Whole(v), x, p);
  }

  lemma AtElement(v: Variant, p: Path)
    requires Fair(v) && IsElement(Whole(v), p)
    ensures Known(v, At(Whole(v), p))
  {
    hide Whole, Known;
    WholeSound(v);
    KnownAt(v, Whole(v), p);
  }

  lemma NotFound(v: Variant, x: string)
    requires Fair(v) && x !in KnownIds(v)
    ensures ById(Whole(v), x).None?
  {
    hide Whole, ById;
    ByIdExact(Whole(v), x);
    if ById(Whole(v), x).Some? {
      AtElement(v, ById(Whole(v), x).value);
    }
  }

  lemma NoSignature(v: Variant, p: Path)
    requires Fair(v)
    ensures !IsSignature(Whole(v), p)
  {
    hide Whole;
    if IsSignature(Whole(v), p) {
      AtElement(v, p);
    }
  }

  lemma Values(v: Variant)
    ensures AttributeOf(Mime(), "type") == Some("text") && AttributeOf(Mime(), "subtype") == Some("plain")
    ensures AttributeOf(Transform(), "Algorithm") == Some("base64")
    ensures AttributeOf(DocProfile(v), "OBJREF") == Some(v.objref) && AttributeOf(Head(), "OBJREF") == Some("d")
    ensures AttributeOf(DocProfile(v), "Id") == Some("e") && AttributeOf(Head(), "Id") == Some("p")
    ensures AttributeOf(Body(v), "Id") == Some("d") && AttributeOf(Payload(), "Id") == Some("o")
  {
    hide OpenTag, AttributeOf;
    TwoAttrsAre(Mime(), "type", "text", "subtype", "plain", "type");
    TwoAttrsAre(Mime(), "type", "text", "subtype", "plain", "subtype");
    OneAttrIs(Transform(), "Algorithm", "base64", "Algorithm");
    TwoAttrsAre(DocProfile(v), "Id", "e", "OBJREF", v.objref, "OBJREF");
    TwoAttrsAre(DocProfile(v), "Id", "e", "OBJREF", v.objref, "Id");
    TwoAttrsAre(Head(), "Id", "p", "OBJREF", "d", "OBJREF");
    TwoAttrsAre(Head(), "Id", "p", "OBJREF", "d", "Id");
    OneAttrIs(Body(v), "Id", "d", "Id");
    OneAttrIs(Payload(), "Id", "o", "Id");
  }

  lemma NoteValue(v: Variant)
    ensures AttributeOf(Note(v), v.name) == Some(v.value)
  {
    hide OpenTag, AttributeOf;
    OneAttrIs(Note(v), v.name, v.value, v.name);
  }

  predicate Is(n: Node, ns: string, local: string) {
    n.Element? && n.ns == ns && n.local == local
  }

  lemma Kinds(v: Variant)
    ensures Is(Title(), NS, "Title") && Is(Created(), NS, "CreationDate") && Is(Mime(), NS, "MIME-Type") && Is(DocFormat(), NS, "Format")
    ensures Is(Transform(), NS, "Transform") && Is(Base(), NS, "BaseTransform") && Is(DocProfile(v), NS, "DocumentProfile")
    ensures Is(Payload(), XMLDSIG, "Object") && Is(Note(v), NS, "Note") && Is(Doc(v), NS, "Document") && Is(Head(), NS, "DossierProfile")
    ensures Is(Body(v), NS, "Documents") && Is(Top(v), NS, "Dossier")
  {
    hide OpenTag;
  }

  lemma NamespacesDiffer()
    ensures NS != "" && XMLDSIG != "" && NS != XMLDSIG
  {
    assert XMLDSIG[0] == 'h' && NS[0] == 'u';
  }

  lemma {:induction false} OnlyNamed(kids: seq<Node>, parent: Path, k: nat, i: nat, ns: string, local: string)
    requires i < |kids| && IsNamed(kids[i], ns, local) && forall j :: 0 <= j < |kids| && j != i ==> !IsNamed(kids[j], ns, local)
    ensures NamedFrom(kids, parent, k, ns, local) == [parent + [k + i]]
  {
    hide IsNamed;
    if i > 0 {
      assert !IsNamed(kids[0], ns, local);
      forall j | 0 <= j < |kids[1..]| && j != i - 1
        ensures !IsNamed(kids[1..][j], ns, local)
      {
        assert kids[1..][j] == kids[j + 1];
      }
      OnlyNamed(kids[1..], parent, k + 1, i - 1, ns, local);
    } else {
      forall j | 0 <= j < |kids[1..]|
        ensures !IsNamed(kids[1..][j], ns, local)
      {
        assert kids[1..][j] == kids[j + 1];
      }
      NoneNamedFrom(kids[1..], parent, k + 1, ns, local);
      assert NamedFrom(kids, parent, k, ns, local) == [parent + [k]] + [];
    }
  }

  lemma {:induction false} NoneNamedFrom(kids: seq<Node>, parent: Path, k: nat, ns: string, local: string)
    requires forall j :: 0 <= j < |kids| ==> !IsNamed(kids[j], ns, local)
    ensures NamedFrom(kids, parent, k, ns, local) == []
  {
    hide IsNamed;
    if kids != [] {
      forall j | 0 <= j < |kids[1..]|
        ensures !IsNamed(kids[1..][j], ns, local)
      {
        assert kids[1..][j] == kids[j + 1];
      }
      NoneNamedFrom(kids[1..], parent, k + 1, ns, local);
    }
  }

  /** The `i`-th child is the only one with this name. */
  predicate Unique(kids: seq<Node>, i: nat, ns: string, local: string) {
    i < |kids| && IsNamed(kids[i], ns, local) && forall j :: 0 <= j < |kids| && j != i ==> !IsNamed(kids[j], ns, local)
  }

  lemma ChildIs(doc: Node, p: Path, n: Node, i: nat, ns: string, local: string)
    requires IsAt(doc, p, n) && Unique(Kids(n), i, ns, local)
    ensures ChildrenNamed(doc, p, ns, local) == [p + [i]]
  {
    hide IsNamed;
    OnlyNamed(Kids(n), p, 0, i, ns, local);
  }

  lemma UniqueInProfile(v: Variant)
    ensures var kids := Kids(DocProfile(v));
            Unique(kids, 0, NS, "Title") && Unique(kids, 1, NS, "CreationDate") && Unique(kids, 2, NS, "Format") && Unique(kids, 3, NS, "BaseTransform")
    ensures Unique(Kids(DocFormat()), 0, NS, "MIME-Type") && Unique(Kids(Base()), 0, NS, "Transform")
  {
    Shapes(v);
    Kinds(v);
    NamespacesDiffer();
    hide DocProfile, Title, Created, DocFormat, Base, Mime, Transform;
  }

  lemma UniqueInDocument(v: Variant)
    ensures var kids := Kids(Doc(v)); Unique(kids, 0, NS, "DocumentProfile") && Unique(kids, 1, XMLDSIG, "Object")
    ensures var kids := Kids(Doc(v)); forall j :: 0 <= j < |kids| ==> !IsNamed(kids[j], NS, "TimeStamp")
    ensures Unique(Kids(Top(v)), 0, NS, "DossierProfile") && Unique(Kids(Top(v)), 1, NS, "Documents")
    ensures Unique(Kids(Head()), 0, NS, "Title") && Unique(Kids(Body(v)), 0, NS, "Document")
  {
    Shapes(v);
    Kinds(v);
    NamespacesDiffer();
    hide DocProfile, Payload, Note, Doc, Head, Body, Title, Top;
  }

  lemma Listed(v: Variant)
    ensures var doc := Whole(v);
            && Valid(doc, TOP) && Valid(doc, HEAD) && Valid(doc, BODY) && Valid(doc, DOCUMENT) && Valid(doc, PROFILE) && Valid(doc, FORMAT)
            && Valid(doc, BASE)
            && ChildrenNamed(doc, TOP, NS, "DossierProfile") == [HEAD] && ChildrenNamed(doc, TOP, NS, "Documents") == [BODY]
            && ChildrenNamed(doc, HEAD, NS, "Title") == [HEAD_TITLE] && ChildrenNamed(doc, BODY, NS, "Document") == [DOCUMENT]
            && ChildrenNamed(doc, DOCUMENT, NS, "DocumentProfile") == [PROFILE] && ChildrenNamed(doc, DOCUMENT, XMLDSIG, "Object") == [OBJECT]
            && ChildrenNamed(doc, DOCUMENT, NS, "TimeStamp") == []
            && ChildrenNamed(doc, PROFILE, NS, "Title") == [TITLE] && ChildrenNamed(doc, PROFILE, NS, "CreationDate") == [CREATED]
            && ChildrenNamed(doc, PROFILE, NS, "Format") == [FORMAT] && ChildrenNamed(doc, PROFILE, NS, "BaseTransform") == [BASE]
            && ChildrenNamed(doc, FORMAT, NS, "MIME-Type") == [MIME] && ChildrenNamed(doc, BASE, NS, "Transform") == [TRANSFORM]
  {
    hide ChildrenNamed, Whole, Title, Created, Mime, DocFormat, Transform, Base, DocProfile, Payload, Note, Doc, Head, Body, Top, Unique, Valid, At;
    Everywhere(v);
    UniqueInProfile(v);
    UniqueInDocument(v);
    PathSteps();
    var doc := Whole(v);
    ChildIs(doc, TOP, Top(v), 0, NS, "DossierProfile");
    ChildIs(doc, TOP, Top(v), 1, NS, "Documents");
    ChildIs(doc, HEAD, Head(), 0, NS, "Title");
    ChildIs(doc, BODY, Body(v), 0, NS, "Document");
    ChildIs(doc, DOCUMENT, Doc(v), 0, NS, "DocumentProfile");
    ChildIs(doc, DOCUMENT, Doc(v), 1, XMLDSIG, "Object");
    ChildIs(doc, PROFILE, DocProfile(v), 0, NS, "Title");
    ChildIs(doc, PROFILE, DocProfile(v), 1, NS, "CreationDate");
    ChildIs(doc, PROFILE, DocProfile(v), 2, NS, "Format");
    ChildIs(doc, PROFILE, DocProfile(v), 3, NS, "BaseTransform");
    ChildIs(doc, FORMAT, DocFormat(), 0, NS, "MIME-Type");
    ChildIs(doc, BASE, Base(), 0, NS, "Transform");
    NoneListed(doc, DOCUMENT, Doc(v), NS, "TimeStamp");
  }

  lemma NoneListed(doc: Node, p: Path, n: Node, ns: string, local: string)
    requires IsAt(doc, p, n) && forall j :: 0 <= j < |Kids(n)| ==> !IsNamed(Kids(n)[j], ns, local)
    ensures ChildrenNamed(doc, p, ns, local) == []
  {
    hide IsNamed;
    NoneNamedFrom(Kids(n), p, 0, ns, local);
  }

  // ---------------------------------------------------- the parser accepts it

  const THE_DOCUMENT: Document := Document(0, DOCUMENT, "o", "text", "plain")

  lemma TextHeld(n: Node, text: string)
    requires n.Element? && n.children == Raw(text) && text != "" && !IsWhite(text[0])
    ensures HasText(n)
  {
    assert Text(text, text) in Kids(n) && text[0] in text;
  }

  lemma TextsHeld()
    ensures HasText(Title()) && HasText(Created())
  {
    hide HasText, OpenTag;
    TextHeld(Title(), "T");
    TextHeld(Created(), "2026-01-01");
  }

  lemma ProfileHeld(v: Variant)
    ensures Valid(Whole(v), PROFILE) && ProfileHolds(Whole(v), PROFILE, NS) == Ok(MIME)
  {
    hide ChildrenNamed, Whole, Title, Created, Mime, DocFormat, Transform, Base, DocProfile, Payload, Note, Doc, Head, Body, Top, HasText, AttributeOf;
    Everywhere(v);
    Listed(v);
    TextsHeld();
    Values(v);
    assert TransformsNamed(Whole(v), BASE, NS) == Ok(BASE);
  }

  lemma DocumentParsed(v: Variant)
    requires Fair(v)
    ensures Valid(Whole(v), DOCUMENT) && Valid(Whole(v), PROFILE)
    ensures ParseDocument(Whole(v), DOCUMENT, PROFILE, 0, NS) == Ok(THE_DOCUMENT)
  {
    hide ChildrenNamed, Whole, Title, Created, Mime, DocFormat, Transform, Base, DocProfile, Payload, Note, Doc, Head, Body, Top, ProfileHolds,
         AttributeOf;
    Everywhere(v);
    Listed(v);
    ProfileHeld(v);
    Values(v);
    assert "#o"[1..] == "o";
  }

  lemma DocumentsParsed(v: Variant)
    requires Fair(v)
    ensures Valid(Whole(v), DOCUMENT) && ParseDocuments(Whole(v), [DOCUMENT], NS, 0) == Ok([THE_DOCUMENT])
  {
    hide ChildrenNamed, Whole, ParseDocument, Valid, At;
    Listed(v);
    DocumentParsed(v);
    assert [DOCUMENT][1..] == [];
    assert ParseDocuments(Whole(v), [], NS, 1) == Ok([]);
    assert [THE_DOCUMENT] + [] == [THE_DOCUMENT];
  }

  lemma RootIsTop(v: Variant)
    ensures Whole(v).Root? && RootElement(Whole(v)) == TOP
  {
    hide Top;
    Kinds(v);
  }

  lemma RefResolves(v: Variant, p: Path)
    requires Fair(v) && IdMap(Whole(v)).Some? && "o" in IdMap(Whole(v)).value && "d" in IdMap(Whole(v)).value
    ensures ProfileRefResolves(Whole(v), p, NS, IdMap(Whole(v)).value)
  {
    hide Whole, IdMap, AttributeOf, Valid, At;
    if IsElement(Whole(v), p) {
      AtElement(v, p);
      assert "#o"[1..] == "o";
    }
  }

  lemma RefsResolve(v: Variant)
    requires Fair(v)
    ensures IdMap(Whole(v)).Some? && ProfileRefsResolve(Whole(v), NS, IdMap(Whole(v)).value)
  {
    hide Whole, IdMap, Elements, AttributeOf, Payload, Body, ById, ProfileRefResolves;
    Everywhere(v);
    Values(v);
    Kinds(v);
    Found(v, "o", OBJECT, Payload());
    Found(v, "d", BODY, Body(v));
    forall p | p in Elements(Whole(v), [])
      ensures ProfileRefResolves(Whole(v), p, NS, IdMap(Whole(v)).value)
    {
      RefResolves(v, p);
    }
  }

  /** The structural parser accepts the dossier. */
  lemma Accepted(v: Variant)
    requires Fair(v)
    ensures ParseDossier(Whole(v), [NS], 1) == Ok(Dossier(NS, [THE_DOCUMENT]))
  {
    hide ChildrenNamed, Whole, Title, Created, Mime, DocFormat, Transform, Base, DocProfile, Payload, Note, Doc, Head, Body, Top, ParseDocuments,
         AttributeOf, IdMap, ProfileRefsResolve, RootElement, HasText;
    RootIsTop(v);
    RefsResolve(v);
    Listed(v);
    Everywhere(v);
    Kinds(v);
    Values(v);
    TextsHeld();
    DocumentsParsed(v);
  }

  // ------------------------------------------------------- the names it writes

  lemma {:induction false} ShortText(s: string)
    ensures Utf8Length(s) <= 4 * |s|
  {
    if s != "" { ShortText(s[1..]); }
  }

  /** The signer may copy them. */
  lemma GoodNames()
    ensures CheckId("p") && CheckId("d") && CheckId("e") && CheckId("o") && CheckNamespace(NS)
  {
    assert "p"[1..] == "" && "d"[1..] == "" && "e"[1..] == "" && "o"[1..] == "";
    assert Utf8Length("p") == 1 && Utf8Length("d") == 1 && Utf8Length("e") == 1 && Utf8Length("o") == 1;
    ShortText("n:es");
    assert NS == "ur" + "n:es" && NS[1..] == "rn:es" && "rn:es"[1..] == "n:es";
  }
}
