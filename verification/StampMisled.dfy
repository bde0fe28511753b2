/**
 A dossier whose document timestamp the verifier does not credit.

 Its document profile writes `OBJREF="#o"`. The parser and the writer drop the
 `#` and find the payload, whose `Id` is `o`; the verifier looks `#o` up as it
 is written and finds another element, which no include covers.
 */
module StampMisled {
  import opened Wrappers
  import opened XmlTree
  import opened C14nTheorems
  import opened Ids
  import opened IdSpace
  import opened Dossier
  import opened Growth
  import opened Names
  import opened Planner
  import opened SmallDossier
  import opened ContainerStamps
  import opened StampXml
  import opened StampPlanner
  import opened StampRun
  import opened StampTheorems
  import opened StampAgreement
  import opened StampOlder

  /** The payload named with a `#`, and a note that has just that for its `Id`. */
  const HASHED: Variant := Variant("#o", "Id", "#o")

  /** The document timestamp of its one document. */
  const REQUEST: StampRequest := StampRequest(DocumentScope, [], [])

  const THE_PLAN: StampPlan := StampPlan("ts-doc0", Some(0), DOCUMENT, ["e", "o"])

  const THE_DOSSIER: Dossier := Dossier(NS, [THE_DOCUMENT])

  lemma IsFair()
    ensures Fair(HASHED) && HASHED.value == "#o" && KnownIds(HASHED) == ["p", "d", "e", "o", "#o"]
  {}

  lemma NoRefusal()
    ensures !RefusesPlacement(Whole(HASHED), DocumentScope) && forall q :: !CoversAncestorOrSelf(Whole(HASHED), q)
  {
    hide Whole, Elements, IsSignature, HasDossierLevelCover;
    IsFair();
    forall p
      ensures !IsSignature(Whole(HASHED), p)
    {
      NoSignature(HASHED, p);
    }
    NoLevelCover();
  }

  lemma NoLevelCover()
    ensures !HasDossierLevelCover(Whole(HASHED))
  {
    hide Whole, Top, Head, Body, RootElement;
    RootIsTop(HASHED);
    Everywhere(HASHED);
    Shapes(HASHED);
    Kinds(HASHED);
  }

  lemma StampIdIsFree()
    ensures ById(Whole(HASHED), "ts-doc0").None? && Candidate(StampBase(Some(0)), 1) == "ts-doc0"
  {
    hide Whole, ById;
    IsFair();
    assert Decimal(0) == "0" && "ts-doc" + "0" == "ts-doc0";
    NotFound(HASHED, "ts-doc0");
  }

  lemma ProfileNamed()
    ensures Valid(Whole(HASHED), DOCUMENT) && ChildId(Whole(HASHED), DOCUMENT, NS, "DocumentProfile") == Some("e")
    ensures !HasTimestamp(Whole(HASHED), DOCUMENT, NS)
  {
    hide Whole, ChildrenNamed, AttributeOf, DocProfile;
    Listed(HASHED);
    Everywhere(HASHED);
    Values(HASHED);
  }

  lemma BuiltWhenFree(doc: Node, container: Path, a: string, b: string)
    requires Valid(doc, container) && CheckId(a) && CheckId(b) && !HasTimestamp(doc, container, NS) && !CoversAncestorOrSelf(doc, container)
    requires ById(doc, Candidate(StampBase(Some(0)), 1)).None? && Kids(At(doc, container)) != []
    ensures BuildStamp(doc, NS, Some(0), container, [a, b])
         == Ok(StampPlan(Candidate(StampBase(Some(0)), 1), Some(0), container, [a, b]))
  {
    hide HasTimestamp, CoversAncestorOrSelf, CheckId, Candidate, StampBase, ById;
  }

  lemma PlannedWhenFound(doc: Node, d: Document, node: Path, container: Path, profile: string)
    requires ById(doc, d.objectRef) == Some(node) && node != [] && container == node[..|node| - 1]
    requires Valid(doc, container) && At(doc, container).Element? && ChildId(doc, container, NS, "DocumentProfile") == Some(profile)
    ensures StampDocument(doc, NS, d) == BuildStamp(doc, NS, Some(d.index), container, [profile, d.objectRef])
  {
    hide ById, ChildId, BuildStamp;
  }

  lemma InDocument()
    ensures Valid(Whole(HASHED), DOCUMENT) && At(Whole(HASHED), DOCUMENT).Element? && Kids(At(Whole(HASHED), DOCUMENT)) != []
    ensures OBJECT != [] && OBJECT[..|OBJECT| - 1] == DOCUMENT
  {
    hide Whole, Valid, At;
    Everywhere(HASHED);
    Kinds(HASHED);
    Shapes(HASHED);
  }

  lemma PayloadFound()
    ensures ById(Whole(HASHED), "o") == Some(OBJECT)
  {
    hide Whole, ById, Payload, AttributeOf;
    IsFair();
    Everywhere(HASHED);
    Kinds(HASHED);
    Values(HASHED);
    Found(HASHED, "o", OBJECT, Payload());
  }

  lemma StampIsPlanned()
    ensures StampDocument(Whole(HASHED), NS, THE_DOCUMENT) == Ok(THE_PLAN)
  {
    assert THE_DOCUMENT.objectRef == "o" && THE_DOCUMENT.index == 0 && THE_PLAN == StampPlan("ts-doc0", Some(0), DOCUMENT, ["e", "o"]);
    hide *;
    ProfileNamed();
    GoodNames();
    NoRefusal();
    StampIdIsFree();
    InDocument();
    PayloadFound();
    BuiltWhenFree(Whole(HASHED), DOCUMENT, "e", "o");
    PlannedWhenFound(Whole(HASHED), THE_DOCUMENT, OBJECT, DOCUMENT, "e");
  }

  lemma NamesTheNote()
    ensures IdMap(Whole(HASHED)).Some? && Valid(Whole(HASHED), DOCUMENT)
    ensures NamedPayload(Whole(HASHED), IdMap(Whole(HASHED)).value, NS, DOCUMENT) == Some(NOTE)
  {
    hide Whole, ChildrenNamed, AttributeOf, IdMap, Mime, DocFormat, DocProfile, Payload, Note, Doc, Head, Body, Top, ById;
    IsFair();
    Listed(HASHED);
    Everywhere(HASHED);
    Values(HASHED);
    Kinds(HASHED);
    NoteValue(HASHED);
    Found(HASHED, "#o", NOTE, Note(HASHED));
  }

  lemma RunIsPlanned()
    ensures PlanStamps(Whole(HASHED), THE_DOSSIER, REQUEST) == Ok([THE_PLAN])
  {
    hide Whole, StampDocument, CheckNamespace, RefusesPlacement;
    StampIsPlanned();
    NoRefusal();
    GoodNames();
    assert Targets(THE_DOSSIER, DocumentScope, []) == Ok(THE_DOSSIER.documents);
    assert [THE_DOCUMENT][1..] == [] && [THE_PLAN] + [] == [THE_PLAN];
    assert StampDocuments(Whole(HASHED), NS, []) == Ok([]);
    assert StampDocuments(Whole(HASHED), NS, [THE_DOCUMENT]) == Ok([THE_PLAN] + []);
  }

  /** Its `OBJREF` as written leads to an element the timestamp does not cover. */
  lemma LeadsElsewhere()
    ensures !Fits(Whole(HASHED), NS, THE_PLAN)
  {
    hide Whole, ChildrenNamed, IdMap, ById, NamedPayload, Mime, DocFormat, DocProfile, Payload, Note, Doc, Head, Body, Top, AttributeOf;
    IsFair();
    Everywhere(HASHED);
    Kinds(HASHED);
    Values(HASHED);
    Found(HASHED, "e", PROFILE, DocProfile(HASHED));
    Found(HASHED, "o", OBJECT, Payload());
    NamesTheNote();
    assert !(PROFILE <= NOTE) && !(OBJECT <= NOTE);
  }

  lemma NothingTaken()
    ensures NoStampTaken(Whole(HASHED), [THE_PLAN])
  {
    hide Whole, IdBag;
    IsFair();
    WholeSound(HASHED);
  }

  /** The run gets its token. */
  lemma TokenIsGiven(authority: Authority)
    requires forall i, octets :: authority(i, octets).Some?
    ensures GivenTo(authority)
  {
    hide Whole, ParseDossier, PlanStamps, Imprints, RequestTokens, Grown, Spots, GoodStamps;
    IsFair();
    RootIsTop(HASHED);
    Accepted(HASHED);
    RunIsPlanned();
    ImprintingNeverFails(Whole(HASHED), [NS], 1, REQUEST);
    AllRequested(Imprints(StampedDocument(Whole(HASHED), [THE_PLAN], StampingOf(REQUEST, NS), StampHoles([THE_PLAN])), [THE_PLAN]).value,
                 authority, 0);
  }

  predicate GivenTo(authority: Authority) {
    var doc := Whole(HASHED);
    doc.Root? && "" !in [NS] && TokensFor(doc, [NS], 1, REQUEST, authority).Ok? && |TokensFor(doc, [NS], 1, REQUEST, authority).value| == 1
  }

  /** In the document with the timestamp in it, the verifier finds the payload uncovered. */
  predicate Uncredited(doc: Node, tokens: seq<string>, decode: Decoder) {
    && |tokens| == 1 && Spots(doc, StampPlaces([THE_PLAN])) && Spot(doc, DOCUMENT)
    && var w, place := StampedDocument(doc, [THE_PLAN], StampingOf(REQUEST, NS), tokens), NextKid(doc, DOCUMENT);
       && IdMap(w).Some? && Valid(w, place)
       && PrepareOne(w, IdMap(w).value, NS, decode, place) == Unprepared(OnDocument(0), Uncovered(PAYLOAD))
  }

  /** The run has its token, and the finished document is not credited with it. */
  predicate Misled(authority: Authority, decode: Decoder) {
    GivenTo(authority) && Uncredited(Whole(HASHED), TokensFor(Whole(HASHED), [NS], 1, REQUEST, authority).value, decode)
  }

  lemma NotCredited(doc: Node, authority: Authority, tokens: seq<string>, decode: Decoder)
    requires ParseDossier(doc, [NS], 1) == Ok(THE_DOSSIER) && doc.Root? && "" !in [NS] && PlanStamps(doc, THE_DOSSIER, REQUEST) == Ok([THE_PLAN])
    requires TokensFor(doc, [NS], 1, REQUEST, authority) == Ok(tokens) && NoStampTaken(doc, [THE_PLAN]) && !Fits(doc, NS, THE_PLAN)
    ensures Uncredited(doc, tokens, decode)
  {
    hide ParseDossier, PlanStamps, Grown, IdMap, Fits, NoStampTaken, TokensFor, PrepareOne, NextKid, Imprint, Spot, Spots, Valid, PreparesAs;
    var octets := ContainerStampsAgree(doc, [NS], 1, THE_DOSSIER, REQUEST, [THE_PLAN], authority, tokens, decode, 0);
  }

  /** The parser accepts this dossier and a run timestamps its one document, under whatever authority answers; and
      the verifier reports of that timestamp that the document's payload is not covered. */
  lemma HashObjrefMisleads(authority: Authority, decode: Decoder)
    requires forall i, octets :: authority(i, octets).Some?
    ensures WellFormed(Whole(HASHED)) && ParseDossier(Whole(HASHED), [NS], 1) == Ok(THE_DOSSIER)
    ensures PlanStamps(Whole(HASHED), THE_DOSSIER, REQUEST) == Ok([THE_PLAN])
    ensures Misled(authority, decode)
  {
    hide Whole, ParseDossier, PlanStamps, WellFormed, Fits, NoStampTaken, TokensFor, Uncredited;
    IsFair();
    WholeSound(HASHED);
    Accepted(HASHED);
    RunIsPlanned();
    LeadsElsewhere();
    NothingTaken();
    TokenIsGiven(authority);
    NotCredited(Whole(HASHED), authority, TokensFor(Whole(HASHED), [NS], 1, REQUEST, authority).value, decode);
  }
}
