/**
 A dossier with no room for a signature.

 The small dossier with a long identifier in its note: its text has exactly the
 size the reader allows. It is read, accepted and planned for; with the skeleton
 of the signature in it, it is not read any more.
 */
module NoRoom {
  import opened Wrappers
  import opened XmlTree
  import opened C14nTheorems
  import opened Dossier
  import opened SourceText
  import opened Names
  import opened SignatureXml
  import opened Planner
  import opened Reader
  import opened TreeScan
  import opened GrownSize
  import opened SmallDossier
  import opened SmallPlan
  import opened Working
  import opened Run
  import opened Signer
  import opened SignerLimits

  function Filler(n: nat): string {
    seq(n, i => 'a')
  }

  function Filled(n: nat): Variant {
    Variant("o", "id", Filler(n))
  }

  // --------------------------------------------------------------------- sizes

  /** No larger than this. */
  predicate Sized(n: Node, length: nat, nodes: nat, elements: nat, depth: nat) {
    |Source(n)| <= length && NodeCount(n) <= nodes && ElementCount(n) <= elements && ElementDepth(n) <= depth
  }

  predicate SizedAll(kids: seq<Node>, length: nat, nodes: nat, elements: nat, depth: nat) {
    |SourceAll(kids)| <= length && NodeCountAll(kids) <= nodes && ElementCountAll(kids) <= elements && ElementDepthAll(kids) <= depth
  }

  lemma NoneSized()
    ensures SizedAll([], 0, 0, 0, 0)
  {}

  lemma RawSized(text: string)
    ensures SizedAll(Raw(text), |text|, 1, 0, 0)
  {
    var kids := Raw(text);
    assert kids[1..] == [] && kids[0] == Text(text, text);
    assert SourceAll(kids) == text + "";
  }

  lemma ConsSized(n: Node, a: nat, b: nat, c: nat, d: nat, rest: seq<Node>, e: nat, f: nat, g: nat, h: nat)
    requires Sized(n, a, b, c, d) && SizedAll(rest, e, f, g, h)
    ensures SizedAll([n] + rest, a + e, b + f, c + g, Scan.Max(d, h))
  {
    hide Source, NodeCount, ElementCount, ElementDepth;
    assert ([n] + rest)[1..] == rest;
  }

  lemma OneSized(n: Node, a: nat, b: nat, c: nat, d: nat)
    requires Sized(n, a, b, c, d)
    ensures SizedAll([n], a, b, c, d)
  {
    hide Sized, SizedAll;
    NoneSized();
    ConsSized(n, a, b, c, d, [], 0, 0, 0, 0);
    assert [n] + [] == [n];
  }

  /** The text of an element: its tags and what is between them. */
  lemma MakeLength(prefix: string, ns: string, local: string, decls: seq<Decl>, attrs: seq<Attr>, kids: seq<Node>)
    ensures |Source(Make(prefix, ns, local, decls, attrs, kids))|
         == 2 + |prefix| + |local| + |DeclText(decls)| + |AttrText(attrs)| + (if kids == [] then 2 else 5 + |prefix| + |local|) + |SourceAll(kids)|
  {
    hide SourceAll, DeclText, AttrText;
    var qname := prefix + ":" + local;
    assert kids == [] ==> |SourceAll(kids)| == 0 by { NothingWritten(); }
    assert |"</" + qname + ">"| == 3 + |qname|;
  }

  lemma NothingWritten()
    ensures SourceAll([]) == ""
  {}

  lemma MakeSized(prefix: string, ns: string, local: string, attrs: seq<Attr>, kids: seq<Node>, tags: nat,
                  length: nat, nodes: nat, elements: nat, depth: nat, total: nat)
    requires SizedAll(kids, length, nodes, elements, depth) && |AttrText(attrs)| <= tags
    requires 7 + 2 * (|prefix| + |local|) + tags + length <= total
    ensures Sized(Make(prefix, ns, local, [], attrs, kids), total, 1 + nodes, 1 + elements, 1 + depth)
  {
    hide Source, SourceAll, NodeCountAll, ElementCountAll, ElementDepthAll, AttrText, OpenTag;
    MakeLength(prefix, ns, local, [], attrs, kids);
  }

  lemma {:induction false} EscapedLength(s: string)
    ensures |EscapeAttributeValue(s)| <= 6 * |s|
  {
    if s != "" { EscapedLength(s[1..]); }
  }

  lemma OneTag(name: string, value: string)
    ensures |AttrText([Named(name, value)])| <= 4 + |name| + 6 * |value|
  {
    hide EscapeAttributeValue;
    EscapedLength(value);
    assert [Named(name, value)][1..] == [];
    assert AttrText([]) == "";
  }

  lemma TwoTags(name: string, value: string, other: string, more: string)
    ensures |AttrText([Named(name, value), Named(other, more)])| <= 8 + |name| + 6 * |value| + |other| + 6 * |more|
  {
    hide EscapeAttributeValue;
    EscapedLength(value);
    OneTag(other, more);
    assert [Named(name, value), Named(other, more)][1..] == [Named(other, more)];
  }

  lemma NoTags()
    ensures AttrText([]) == "" && DeclText([]) == ""
  {}

  // ------------------------------------------------------------ the small dossier

  lemma LeavesSized()
    ensures Sized(Title(), 100, 2, 1, 1) && Sized(Created(), 100, 2, 1, 1) && Sized(Payload(), 100, 2, 1, 1)
  {
    hide Sized, SizedAll, AttrText, Make, Raw;
    NoTags();
    RawSized("T");
    RawSized("2026-01-01");
    RawSized("YQ==");
    OneTag("Id", "o");
    MakeSized("es", NS, "Title", [], Raw("T"), 0, 1, 1, 0, 0, 100);
    MakeSized("es", NS, "CreationDate", [], Raw("2026-01-01"), 0, 10, 1, 0, 0, 100);
    MakeSized("ds", XMLDSIG, "Object", [Named("Id", "o")], Raw("YQ=="), 12, 4, 1, 0, 0, 100);
  }

  lemma FormatSized()
    ensures Sized(DocFormat(), 300, 2, 2, 2) && Sized(Base(), 300, 2, 2, 2)
  {
    hide Sized, SizedAll, AttrText, Make;
    NoTags();
    NoneSized();
    TwoTags("type", "text", "subtype", "plain");
    OneTag("Algorithm", "base64");
    MakeSized("es", NS, "MIME-Type", [Named("type", "text"), Named("subtype", "plain")], [], 80, 0, 0, 0, 0, 200);
    OneSized(Mime(), 200, 1, 1, 1);
    MakeSized("es", NS, "Format", [], [Mime()], 0, 200, 1, 1, 1, 300);
    MakeSized("es", NS, "Transform", [Named("Algorithm", "base64")], [], 80, 0, 0, 0, 0, 200);
    OneSized(Transform(), 200, 1, 1, 1);
    MakeSized("es", NS, "BaseTransform", [], [Transform()], 0, 200, 1, 1, 1, 300);
  }

  lemma ProfileSized(n: nat)
    ensures Sized(DocProfile(Filled(n)), 1000, 9, 7, 3) && Sized(Head(), 300, 3, 2, 2)
  {
    hide Sized, SizedAll, AttrText, Make;
    LeavesSized();
    FormatSized();
    OneSized(Base(), 300, 2, 2, 2);
    ConsSized(DocFormat(), 300, 2, 2, 2, [Base()], 300, 2, 2, 2);
    ConsSized(Created(), 100, 2, 1, 1, [DocFormat()] + [Base()], 600, 4, 4, 2);
    ConsSized(Title(), 100, 2, 1, 1, [Created()] + ([DocFormat()] + [Base()]), 700, 6, 5, 2);
    assert [Title()] + ([Created()] + ([DocFormat()] + [Base()])) == [Title(), Created(), DocFormat(), Base()];
    TwoTags("Id", "e", "OBJREF", "o");
    MakeSized("es", NS, "DocumentProfile", [Named("Id", "e"), Named("OBJREF", "o")], [Title(), Created(), DocFormat(), Base()], 60,
              800, 8, 6, 2, 1000);
    OneSized(Title(), 100, 2, 1, 1);
    TwoTags("Id", "p", "OBJREF", "d");
    MakeSized("es", NS, "DossierProfile", [Named("Id", "p"), Named("OBJREF", "d")], [Title()], 60, 100, 2, 1, 1, 300);
  }

  lemma {:induction false} FillerIsWritten(n: nat)
    ensures EscapeAttributeValue(Filler(n)) == Filler(n)
  {
    if n > 0 {
      assert Filler(n)[1..] == Filler(n - 1) && Filler(n) == ['a'] + Filler(n - 1);
      FillerIsWritten(n - 1);
    }
  }

  lemma NoteLength(n: nat)
    ensures |Source(Note(Filled(n)))| == 16 + n
  {
    hide EscapeAttributeValue, Make, Filler;
    FillerIsWritten(n);
    MakeLength("es", NS, "Note", [], [Named("id", Filler(n))], []);
    var attrs := [Named("id", Filler(n))];
    assert attrs[1..] == [] && AttrText(attrs[1..]) == "" && DeclText([]) == "";
    assert |" " + "id" + "=\"" + Filler(n) + "\"" + ""| == 6 + |Filler(n)|;
    assert |Filler(n)| == n by { FillerLength(n); }
    NothingWritten();
  }

  lemma FillerLength(n: nat)
    ensures |Filler(n)| == n
  {}

  // -------------------------------------------------------------- the document

  lemma NoteSized(n: nat)
    ensures Sized(Note(Filled(n)), 16 + n, 1, 1, 1)
  {
    hide Filler, Source, OpenTag;
    NoteLength(n);
    Alone(Note(Filled(n)));
  }

  lemma Alone(n: Node)
    requires n.Element? && n.children == []
    ensures NodeCount(n) == 1 && ElementCount(n) == 1 && ElementDepth(n) == 1
  {}

  lemma DocSized(n: nat)
    ensures Sized(Doc(Filled(n)), 1200 + n, 13, 10, 4)
  {
    hide Sized, SizedAll, AttrText, Make, Note, DocProfile, Payload, Filler;
    NoTags();
    LeavesSized();
    ProfileSized(n);
    NoteSized(n);
    var v := Filled(n);
    OneSized(Note(v), 16 + n, 1, 1, 1);
    ConsSized(Payload(), 100, 2, 1, 1, [Note(v)], 16 + n, 1, 1, 1);
    ConsSized(DocProfile(v), 1000, 9, 7, 3, [Payload()] + [Note(v)], 116 + n, 3, 2, 1);
    assert [DocProfile(v)] + ([Payload()] + [Note(v)]) == [DocProfile(v), Payload(), Note(v)];
    MakeSized("es", NS, "Document", [], [DocProfile(v), Payload(), Note(v)], 0, 1116 + n, 12, 9, 3, 1200 + n);
  }

  lemma BodySized(n: nat)
    ensures Sized(Body(Filled(n)), 1300 + n, 14, 11, 5)
  {
    hide Sized, SizedAll, AttrText, Make, Doc, Filler;
    DocSized(n);
    OneTag("Id", "d");
    var v := Filled(n);
    OneSized(Doc(v), 1200 + n, 13, 10, 4);
    MakeSized("es", NS, "Documents", [Named("Id", "d")], [Doc(v)], 12, 1200 + n, 13, 10, 4, 1300 + n);
  }

  /** The declarations at the top. */
  lemma DeclarationsLength()
    ensures |DeclText([Decl("es", NS), Decl("ds", XMLDSIG)])| <= 400
  {
    hide EscapeAttributeValue;
    EscapedLength(NS);
    EscapedLength(XMLDSIG);
    var es, ds := Decl("es", NS), Decl("ds", XMLDSIG);
    assert [es, ds][1..] == [ds] && [ds][1..] == [] && DeclText([]) == "";
    assert |DeclText([ds])| <= 300;
  }

  lemma TopSized(n: nat)
    ensures Sized(Top(Filled(n)), 3000 + n, 18, 14, 6)
  {
    hide Sized, SizedAll, AttrText, DeclText, Head, Body, Filler;
    NoTags();
    DeclarationsLength();
    ProfileSized(n);
    BodySized(n);
    var v := Filled(n);
    OneSized(Body(v), 1300 + n, 14, 11, 5);
    ConsSized(Head(), 300, 3, 2, 2, [Body(v)], 1300 + n, 14, 11, 5);
    assert [Head()] + [Body(v)] == [Head(), Body(v)];
    TopAround([Head(), Body(v)], 1600 + n, 17, 13, 5);
  }

  lemma TopAround(kids: seq<Node>, length: nat, nodes: nat, elements: nat, depth: nat)
    requires SizedAll(kids, length, nodes, elements, depth) && |DeclText([Decl("es", NS), Decl("ds", XMLDSIG)])| <= 400
    ensures Sized(Make("es", NS, "Dossier", [Decl("es", NS), Decl("ds", XMLDSIG)], [], kids), 1400 + length, 1 + nodes, 1 + elements, 1 + depth)
  {
    hide Source, SourceAll, NodeCountAll, ElementCountAll, ElementDepthAll, DeclText, OpenTag;
    MakeLength("es", NS, "Dossier", [Decl("es", NS), Decl("ds", XMLDSIG)], [], kids);
    NoTags();
  }

  lemma WholeSized(n: nat)
    ensures Sized(Whole(Filled(n)), 3000 + n, 19, 14, 6)
  {
    hide Sized, SizedAll, Top, Filler;
    TopSized(n);
    OneSized(Top(Filled(n)), 3000 + n, 18, 14, 6);
    RootSized([Top(Filled(n))], 3000 + n, 18, 14, 6);
  }

  lemma RootSized(kids: seq<Node>, length: nat, nodes: nat, elements: nat, depth: nat)
    requires SizedAll(kids, length, nodes, elements, depth)
    ensures Sized(Root(kids, "", ""), length, 1 + nodes, elements, depth)
  {
    hide SourceAll, NodeCountAll, ElementCountAll, ElementDepthAll;
  }

  // ------------------------------------------------------------- a longer note

  function WithKid(n: Node, k: nat, kid: Node): Node
    requires k < |Kids(n)|
  {
    WithKids(n, Kids(n)[k := kid])
  }

  predicate KidIs(n: Node, k: nat, kid: Node) {
    k < |Kids(n)| && Kids(n)[k] == kid
  }

  lemma Swapped(n: Node, k: nat, p: Path, kid: Node, m: Node, now: Node)
    requires KidIs(n, k, kid) && Valid(kid, p) && ReplaceAt(kid, p, m) == now
    ensures Valid(n, [k] + p) && ReplaceAt(n, [k] + p, m) == WithKid(n, k, now)
  {
    assert ([k] + p)[1..] == p;
  }

  lemma FourDown(a: Node, b: Node, c: Node, d: Node, e: Node, m: Node)
    requires KidIs(a, 0, b) && KidIs(b, 1, c) && KidIs(c, 0, d) && KidIs(d, 2, e)
    ensures Valid(a, NOTE) && ReplaceAt(a, NOTE, m) == WithKid(a, 0, WithKid(b, 1, WithKid(c, 0, WithKid(d, 2, m))))
  {
    hide ReplaceAt, Valid, WithKid;
    NoteItself(e, m);
    Swapped(d, 2, [], e, m, m);
    Swapped(c, 0, [2] + [], d, m, WithKid(d, 2, m));
    Swapped(b, 1, [0] + ([2] + []), c, m, WithKid(c, 0, WithKid(d, 2, m)));
    Swapped(a, 0, [1] + ([0] + ([2] + [])), b, m, WithKid(b, 1, WithKid(c, 0, WithKid(d, 2, m))));
    assert [0] + ([1] + ([0] + ([2] + []))) == NOTE;
  }

  lemma SameProfile(n: nat)
    ensures DocProfile(Filled(n)) == DocProfile(Filled(0))
  {}

  predicate Nested(v: Variant) {
    KidIs(Whole(v), 0, Top(v)) && KidIs(Top(v), 1, Body(v)) && KidIs(Body(v), 0, Doc(v)) && KidIs(Doc(v), 2, Note(v))
  }

  lemma IsNested(v: Variant)
    ensures Nested(v)
  {
    hide Note, Doc, Body, Top, Whole;
    Shapes(v);
  }

  lemma DocDiffers(n: nat)
    requires KidIs(Doc(Filled(0)), 2, Note(Filled(0)))
    ensures Doc(Filled(n)) == WithKid(Doc(Filled(0)), 2, Note(Filled(n)))
  {
    hide Note, DocProfile, Payload, Filler, OpenTag;
    SameProfile(n);
  }

  lemma BodyDiffers(v: Variant, w: Variant)
    requires KidIs(Body(v), 0, Doc(v))
    ensures Body(w) == WithKid(Body(v), 0, Doc(w))
  {
    hide Doc, OpenTag;
  }

  lemma TopDiffers(v: Variant, w: Variant)
    requires KidIs(Top(v), 1, Body(v))
    ensures Top(w) == WithKid(Top(v), 1, Body(w))
  {
    hide Head, Body, OpenTag;
  }

  lemma WholeDiffers(v: Variant, w: Variant)
    requires KidIs(Whole(v), 0, Top(v))
    ensures Whole(w) == WithKid(Whole(v), 0, Top(w))
  {
    hide Top;
  }

  /** The documents differ in the note. */
  lemma OnlyTheNote(n: nat)
    ensures Valid(Whole(Filled(0)), NOTE) && At(Whole(Filled(0)), NOTE) == Note(Filled(0))
    ensures ReplaceAt(Whole(Filled(0)), NOTE, Note(Filled(n))) == Whole(Filled(n))
  {
    hide ReplaceAt, Note, Doc, Body, Top, Whole, Filler, WithKid, Valid, KidIs;
    var v, w := Filled(0), Filled(n);
    Everywhere(v);
    IsNested(v);
    FourDown(Whole(v), Top(v), Body(v), Doc(v), Note(v), Note(w));
    DocDiffers(n);
    BodyDiffers(v, w);
    TopDiffers(v, w);
    WholeDiffers(v, w);
  }

  lemma NoteItself(n: Node, m: Node)
    ensures Valid(n, []) && ReplaceAt(n, [], m) == m
  {}

  /** Every character of the identifier is one of the document. */
  lemma WholeLength(n: nat)
    ensures |Source(Whole(Filled(n)))| == |Source(Whole(Filled(0)))| + n
  {
    hide Source, NodeCount, ElementCount, Whole, Note, ReplaceAt, At, Filler;
    OnlyTheNote(n);
    ReplaceSize(Whole(Filled(0)), NOTE, Note(Filled(n)));
    NoteLength(0);
    NoteLength(n);
  }

  // --------------------------------------------------------------- the theorem

  /** Exactly as long as the reader allows. */
  predicate Brim(v: Variant) {
    Unseen(v) && |Source(Whole(v))| == DEFAULT_LIMITS.maxInput && Fitting(Whole(v), DEFAULT_LIMITS)
  }

  lemma FilledToTheBrim() returns (v: Variant)
    ensures Brim(v)
  {
    hide Source, NodeCount, ElementCount, ElementDepth, Whole, Filler;
    WholeSized(0);
    var n := DEFAULT_LIMITS.maxInput - |Source(Whole(Filled(0)))|;
    WholeSized(n);
    WholeLength(n);
    FillerLength(n);
    v := Filled(n);
    assert |v.value| > 1;
  }

  /** A skeleton is not empty. */
  lemma SkeletonsTakeRoom(signing: Signing)
    ensures |SourceAll(Signatures([THE_PLAN], signing, Skeletons([THE_PLAN])))| > 0
  {
    hide SignatureOf, THE_PLAN;
    var kids := Signatures([THE_PLAN], signing, Skeletons([THE_PLAN]));
    assert |kids| == 1 && kids[0] == SignatureOf(THE_PLAN, signing, Skeletons([THE_PLAN])[0]);
    SignatureTakesRoom(THE_PLAN, signing, Skeletons([THE_PLAN])[0]);
  }

  lemma SignatureTakesRoom(plan: Plan, signing: Signing, f: Filling)
    requires |plan.references| == |f.digests|
    ensures |Source(SignatureOf(plan, signing, f))| > 0
  {
    hide SourceAll;
  }

  /** The reader takes the text of this dossier, the parser accepts it and the signer plans a signature for it. */
  predicate Promising(doc: Node, request: SignRequest) {
    && WellFormed(doc) && Reads(doc, DEFAULT_LIMITS) && ParseDossier(doc, [NS], 1) == Ok(THE_DOSSIER)
    && PlanRun(doc, THE_DOSSIER, request) == Ok([THE_PLAN])
  }

  /** There is such a dossier that cannot be signed, whatever the signer and the authority would answer. */
  lemma FailsWithoutRoom(request: SignRequest, b: Backend) returns (doc: Node)
    requires ForDossier(request) && TidyRequest(request)
    ensures Promising(doc, request) && SignTree(doc, [NS], 1, DEFAULT_LIMITS, request, b) == Err(SignFailed)
  {
    hide Whole, ParseDossier, PlanRun, WellFormed, Reads, SignTree, Fitting, Source, SourceAll, Scannable, HasRoom, TidyRequest, Skeletons;
    var v := FilledToTheBrim();
    doc := Whole(v);
    RootIsTop(v);
    WholeSound(v);
    Accepted(v);
    RunIsPlanned(v, request);
    DocumentReads(doc, DEFAULT_LIMITS);
    BrimHasNoRoom(doc, SigningFor(request, NS));
    NoRoomForSignatures(doc, [NS], 1, DEFAULT_LIMITS, request, b);
  }

  lemma BrimHasNoRoom(doc: Node, signing: Signing)
    requires |Source(doc)| == DEFAULT_LIMITS.maxInput
    ensures AllInsertable(doc, [THE_PLAN]) ==> !HasRoom(doc, [THE_PLAN], signing, Skeletons([THE_PLAN]), DEFAULT_LIMITS)
  {
    hide Source, SourceAll, Signatures, THE_PLAN, Skeletons, Shallow;
    SkeletonsTakeRoom(signing);
  }
}
