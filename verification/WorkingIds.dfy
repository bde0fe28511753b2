/**
 Identifiers in the working documents.

 The signer's search for an `Id` finds in every working document the node it
 found before, and each new identifier at the one place it was written. The
 verifier's ID space is wider than the search: it also counts `ID` and `id`.
 The returned document has a valid ID space exactly when no new identifier is
 carried in the original under any of the three spellings.
 */
module WorkingIds {
  import opened Wrappers
  import opened XmlTree
  import opened Ids
  import opened IdSpace
  import opened Growth
  import opened Names
  import opened SignatureXml
  import opened SignatureIds
  import opened Planner
  import opened Working

  function PlanIds(plan: Plan): seq<string> {
    IdsIn(plan.id, plan.references)
  }

  /** Each plan's identifiers are distinct, and no search of the original finds one. */
  predicate FreshPlan(doc: Node, plan: Plan) {
    AllDistinct(PlanIds(plan)) && "" !in PlanIds(plan) && AllFree(doc, PlanIds(plan))
  }

  predicate NoneShared(a: Plan, b: Plan) {
    forall x :: x in PlanIds(a) ==> x !in PlanIds(b)
  }

  predicate Fresh(doc: Node, plans: seq<Plan>) {
    && (forall p :: p in plans ==> FreshPlan(doc, p))
    && (forall i, j :: 0 <= i < j < |plans| ==> NoneShared(plans[i], plans[j]))
  }

  // ----------------------------------------------------------- where nodes are

  predicate CarriesId(n: Node, p: Path, x: string) {
    IsElement(n, p) && AttributeOf(At(n, p), "Id") == Some(x)
  }

  lemma SameHeadSameId(a: Node, b: Node)
    requires SameHead(a, b)
    ensures a.Element? == b.Element? && AttributeOf(a, "Id") == AttributeOf(b, "Id")
  {
    assert WithKids(a, []).Element? == a.Element? && WithKids(b, []).Element? == b.Element?;
    if a.Element? { assert WithKids(a, []).attrs == a.attrs && WithKids(b, []).attrs == b.attrs; }
  }

  /** A node of a working document is an old node with its old tag, or a node of one signature. */
  lemma WhereNodesAre(doc: Node, plans: seq<Plan>, signing: Signing, fills: seq<Filling>, p: Path)
    requires AllInsertable(doc, plans) && Matching(plans, fills)
    ensures var w := WorkingDocument(doc, plans, signing, fills);
            && (Valid(doc, p) ==> Valid(w, p) && SameHead(At(w, p), At(doc, p)))
            && (Valid(w, p) && !Valid(doc, p) ==> exists i :: 0 <= i < |plans| && InSignature(doc, plans, signing, fills, i, p))
  {
    hide SignatureOf, Grown, SameHead, Valid, At, NextKid;
    ContainersAreSpots(doc, plans);
    var qs, kids := Containers(plans), Signatures(plans, signing, fills);
    WhereNodesGrew(doc, qs, kids, p);
    if Valid(Grown(doc, qs, kids), p) && !Valid(doc, p) {
      var i :| 0 <= i < |qs| && InKid(doc, qs, kids, i, p);
      assert plans[i] in plans;
      assert InSignature(doc, plans, signing, fills, i, p);
    }
  }

  /** `p` is a node of signature `i`. */
  predicate InSignature(doc: Node, plans: seq<Plan>, signing: Signing, fills: seq<Filling>, i: nat, p: Path)
    requires AllInsertable(doc, plans) && Matching(plans, fills) && i < |plans|
  {
    && plans[i] in plans && Place(doc, plans[i]) <= p
    && var w := WorkingDocument(doc, plans, signing, fills);
       var r := p[|Place(doc, plans[i])|..];
       && Valid(w, p) && Valid(SignatureOf(plans[i], signing, fills[i]), r)
       && At(w, p) == At(SignatureOf(plans[i], signing, fills[i]), r)
  }

  // --------------------------------------------------------------- uniqueness

  /** A fresh plan's signature has a valid ID space of its own. */
  lemma SignatureIdSpace(plan: Plan, signing: Signing, f: Filling, doc: Node)
    requires |plan.references| == |f.digests| && FreshPlan(doc, plan)
    ensures IdMap(SignatureOf(plan, signing, f)).Some?
    ensures forall x :: x in IdBag(SignatureOf(plan, signing, f)) <==> x in PlanIds(plan)
  {
    hide SignatureNode, IdBag, IdMap, IdsIn, AllFree;
    SignatureBag(plan.id, signing, plan.references, f);
    DistinctIsSingle(PlanIds(plan));
    IdMapByBag(SignatureOf(plan, signing, f));
  }

  lemma CarriedIsPlanned(plan: Plan, signing: Signing, f: Filling, doc: Node, r: Path, x: string)
    requires |plan.references| == |f.digests| && FreshPlan(doc, plan) && CarriesId(SignatureOf(plan, signing, f), r, x)
    ensures x in PlanIds(plan)
  {
    hide SignatureNode, IdBag, IdsIn, FreshPlan;
    SignatureIdSpace(plan, signing, f, doc);
    IdAttrCarries(SignatureOf(plan, signing, f), r, x);
    InBag(SignatureOf(plan, signing, f), x);
  }

  lemma CarriedOnce(plan: Plan, signing: Signing, f: Filling, doc: Node, r: Path, r': Path, x: string)
    requires |plan.references| == |f.digests| && FreshPlan(doc, plan)
    requires CarriesId(SignatureOf(plan, signing, f), r, x) && CarriesId(SignatureOf(plan, signing, f), r', x)
    ensures r == r'
  {
    hide SignatureNode, IdBag, IdsIn, FreshPlan, IdMap;
    var s := SignatureOf(plan, signing, f);
    SignatureIdSpace(plan, signing, f, doc);
    IdAttrCarries(s, r, x);
    IdAttrCarries(s, r', x);
    IdMapExact(s, x, r);
    IdMapExact(s, x, r');
  }

  lemma NotInTheOriginal(doc: Node, plans: seq<Plan>, i: nat, x: string, p: Path)
    requires Fresh(doc, plans) && i < |plans| && x in PlanIds(plans[i])
    ensures !CarriesId(doc, p, x)
  {
    hide PlanIds;
    assert plans[i] in plans && FreshPlan(doc, plans[i]);
    ByIdExact(doc, x);
  }

  lemma BothOld(doc: Node, p: Path, q: Path, x: string)
    requires IdMap(doc).Some? && CarriesId(doc, p, x) && CarriesId(doc, q, x)
    ensures p == q
  {
    hide IdMap;
    IdAttrCarries(doc, p, x);
    IdAttrCarries(doc, q, x);
    IdMapExact(doc, x, p);
    IdMapExact(doc, x, q);
  }

  lemma OnePlan(doc: Node, plans: seq<Plan>, i: nat, j: nat, x: string)
    requires Fresh(doc, plans) && i < |plans| && j < |plans|
    ensures x in PlanIds(plans[i]) && x in PlanIds(plans[j]) ==> i == j
  {
    hide PlanIds;
    if i < j {
      assert NoneShared(plans[i], plans[j]);
    } else if j < i {
      assert NoneShared(plans[j], plans[i]);
    }
  }

  lemma BothNew(doc: Node, plans: seq<Plan>, signing: Signing, fills: seq<Filling>, i: nat, p: Path, j: nat, q: Path, x: string)
    requires AllInsertable(doc, plans) && Matching(plans, fills) && Fresh(doc, plans) && i < |plans| && j < |plans|
    requires InSignature(doc, plans, signing, fills, i, p) && InSignature(doc, plans, signing, fills, j, q)
    requires x in PlanIds(plans[i]) && x in PlanIds(plans[j])
    requires CarriesId(WorkingDocument(doc, plans, signing, fills), p, x)
    requires CarriesId(WorkingDocument(doc, plans, signing, fills), q, x)
    ensures p == q
  {
    hide SignatureOf, WorkingDocument, PlanIds, Place, At, Valid, AttributeOf;
    OnePlan(doc, plans, i, j, x);
    assert FreshPlan(doc, plans[i]);
    var place := Place(doc, plans[i]);
    CarriedOnce(plans[i], signing, fills[i], doc, p[|place|..], q[|place|..], x);
    assert p == place + p[|place|..] && q == place + q[|place|..];
  }

  /** In a working document an identifier has one carrier at most. */
  lemma OneCarrier(doc: Node, plans: seq<Plan>, signing: Signing, fills: seq<Filling>, p: Path, q: Path, x: string)
    requires AllInsertable(doc, plans) && Matching(plans, fills) && Fresh(doc, plans) && IdMap(doc).Some?
    requires CarriesId(WorkingDocument(doc, plans, signing, fills), p, x)
    requires CarriesId(WorkingDocument(doc, plans, signing, fills), q, x)
    ensures p == q
  {
    hide WorkingDocument, PlanIds, IdMap, CarriesId, Fresh, InSignature, Valid, AllInsertable, Matching;
    OldOrPlanned(doc, plans, signing, fills, p, x);
    OldOrPlanned(doc, plans, signing, fills, q, x);
    if Valid(doc, p) && Valid(doc, q) {
      BothOld(doc, p, q, x);
    } else if Valid(doc, p) {
      var j :| 0 <= j < |plans| && x in PlanIds(plans[j]) && InSignature(doc, plans, signing, fills, j, q);
      NotInTheOriginal(doc, plans, j, x, p);
    } else if Valid(doc, q) {
      var i :| 0 <= i < |plans| && x in PlanIds(plans[i]) && InSignature(doc, plans, signing, fills, i, p);
      NotInTheOriginal(doc, plans, i, x, q);
    } else {
      var i :| 0 <= i < |plans| && x in PlanIds(plans[i]) && InSignature(doc, plans, signing, fills, i, p);
      var j :| 0 <= j < |plans| && x in PlanIds(plans[j]) && InSignature(doc, plans, signing, fills, j, q);
      BothNew(doc, plans, signing, fills, i, p, j, q, x);
    }
  }

  lemma OldOrPlanned(doc: Node, plans: seq<Plan>, signing: Signing, fills: seq<Filling>, p: Path, x: string)
    requires AllInsertable(doc, plans) && Matching(plans, fills) && Fresh(doc, plans)
    requires CarriesId(WorkingDocument(doc, plans, signing, fills), p, x)
    ensures Valid(doc, p) ==> CarriesId(doc, p, x)
    ensures !Valid(doc, p) ==>
              exists i :: 0 <= i < |plans| && x in PlanIds(plans[i]) && InSignature(doc, plans, signing, fills, i, p)
  {
    hide SignatureNode, WorkingDocument, PlanIds, SameHead, AttributeOf, Place;
    var w := WorkingDocument(doc, plans, signing, fills);
    WhereNodesAre(doc, plans, signing, fills, p);
    if Valid(doc, p) {
      SameHeadSameId(At(w, p), At(doc, p));
    } else {
      var i :| 0 <= i < |plans| && InSignature(doc, plans, signing, fills, i, p);
      assert FreshPlan(doc, plans[i]);
      CarriedIsPlanned(plans[i], signing, fills[i], doc, p[|Place(doc, plans[i])|..], x);
    }
  }

  /** The search finds the one carrier. */
  lemma FoundOnce(doc: Node, plans: seq<Plan>, signing: Signing, fills: seq<Filling>, p: Path, x: string)
    requires AllInsertable(doc, plans) && Matching(plans, fills) && Fresh(doc, plans) && IdMap(doc).Some?
    requires CarriesId(WorkingDocument(doc, plans, signing, fills), p, x)
    ensures ById(WorkingDocument(doc, plans, signing, fills), x) == Some(p)
  {
    hide SignatureNode, WorkingDocument, Fresh, IdMap;
    var w := WorkingDocument(doc, plans, signing, fills);
    ByIdExact(w, x);
    OneCarrier(doc, plans, signing, fills, p, ById(w, x).value, x);
  }

  /** What the search found in the original, it finds in every working document. */
  lemma OldIdStays(doc: Node, plans: seq<Plan>, signing: Signing, fills: seq<Filling>, x: string)
    requires AllInsertable(doc, plans) && Matching(plans, fills) && Fresh(doc, plans) && IdMap(doc).Some?
    requires ById(doc, x).Some?
    ensures ById(WorkingDocument(doc, plans, signing, fills), x) == ById(doc, x)
  {
    hide SignatureNode, WorkingDocument, Fresh, IdMap, SameHead, AttributeOf;
    var p := ById(doc, x).value;
    ByIdExact(doc, x);
    WhereNodesAre(doc, plans, signing, fills, p);
    SameHeadSameId(At(WorkingDocument(doc, plans, signing, fills), p), At(doc, p));
    FoundOnce(doc, plans, signing, fills, p, x);
  }

  /** A new identifier is found where its signature carries it. */
  lemma NewIdFound(doc: Node, plans: seq<Plan>, signing: Signing, fills: seq<Filling>, i: nat, r: Path, x: string)
    requires AllInsertable(doc, plans) && Matching(plans, fills) && Fresh(doc, plans) && IdMap(doc).Some?
    requires i < |plans| && plans[i] in plans && CarriesId(SignatureOf(plans[i], signing, fills[i]), r, x)
    ensures ById(WorkingDocument(doc, plans, signing, fills), x) == Some(Place(doc, plans[i]) + r)
  {
    hide SignatureNode, WorkingDocument, Fresh, IdMap, AttributeOf, Place, SignatureOf;
    SignaturesInPlace(doc, plans, signing, fills);
    AtConcat(WorkingDocument(doc, plans, signing, fills), Place(doc, plans[i]), r);
    FoundOnce(doc, plans, signing, fills, Place(doc, plans[i]) + r, x);
  }

  // ------------------------------------------------------------- the ID space

  function PlansBag(plans: seq<Plan>): multiset<string> {
    if plans == [] then multiset{} else multiset(PlanIds(plans[0])) + PlansBag(plans[1..])
  }

  lemma {:induction false} KidsAreBag(plans: seq<Plan>, signing: Signing, fills: seq<Filling>, kids: seq<Node>)
    requires Matching(plans, fills) && |kids| == |plans|
    requires forall i :: 0 <= i < |plans| ==> kids[i] == SignatureOf(plans[i], signing, fills[i])
    ensures IdBagOf(kids) == PlansBag(plans)
  {
    hide SignatureNode, IdBag, IdsIn;
    if plans != [] {
      SignatureBag(plans[0].id, signing, plans[0].references, fills[0]);
      KidsAreBag(plans[1..], signing, fills[1..], kids[1..]);
    }
  }

  lemma WorkingBag(doc: Node, plans: seq<Plan>, signing: Signing, fills: seq<Filling>)
    requires AllInsertable(doc, plans) && Matching(plans, fills)
    ensures IdBag(WorkingDocument(doc, plans, signing, fills)) == IdBag(doc) + PlansBag(plans)
  {
    hide SignatureNode, IdBag, IdsIn, Grown;
    ContainersAreSpots(doc, plans);
    var kids := Signatures(plans, signing, fills);
    GrownBag(doc, Containers(plans), kids);
    KidsAreBag(plans, signing, fills, kids);
  }

  lemma {:induction false} PlansBagOnce(plans: seq<Plan>)
    requires forall p :: p in plans ==> AllDistinct(PlanIds(p)) && "" !in PlanIds(p)
    requires forall i, j :: 0 <= i < j < |plans| ==> NoneShared(plans[i], plans[j])
    ensures ProperBag(PlansBag(plans))
    ensures forall x :: x in PlansBag(plans) <==> exists i :: 0 <= i < |plans| && x in PlanIds(plans[i])
  {
    hide PlanIds;
    if plans != [] {
      var first, rest := plans[0], plans[1..];
      assert first in plans && forall p :: p in rest ==> p in plans;
      forall i, j | 0 <= i < j < |rest|
        ensures NoneShared(rest[i], rest[j])
      {
        assert rest[i] == plans[i + 1] && rest[j] == plans[j + 1];
      }
      PlansBagOnce(rest);
      DistinctIsSingle(PlanIds(first));
      forall x
        ensures x in PlansBag(plans) <==> exists i :: 0 <= i < |plans| && x in PlanIds(plans[i])
        ensures PlansBag(plans)[x] <= 1
      {
        if x in PlanIds(first) {
          forall j | 0 <= j < |rest|
            ensures x !in PlanIds(rest[j])
          {
            assert NoneShared(plans[0], plans[j + 1]);
          }
        }
        InFirstOrRest(plans, x);
      }
    }
  }

  lemma InFirstOrRest(plans: seq<Plan>, x: string)
    requires plans != []
    ensures (exists i :: 0 <= i < |plans| && x in PlanIds(plans[i]))
       <==> x in PlanIds(plans[0]) || exists i :: 0 <= i < |plans[1..]| && x in PlanIds(plans[1..][i])
  {
    hide PlanIds;
    if exists i :: 0 <= i < |plans| && x in PlanIds(plans[i]) {
      var i :| 0 <= i < |plans| && x in PlanIds(plans[i]);
      if i > 0 { assert plans[1..][i - 1] == plans[i]; }
    }
    if exists i :: 0 <= i < |plans[1..]| && x in PlanIds(plans[1..][i]) {
      var i :| 0 <= i < |plans[1..]| && x in PlanIds(plans[1..][i]);
      assert plans[i + 1] == plans[1..][i];
    }
  }

  /** No identifier of the run is carried in the original under `Id`, `ID` or `id`. */
  predicate NoneTaken(doc: Node, plans: seq<Plan>) {
    forall i :: 0 <= i < |plans| ==> forall x :: x in PlanIds(plans[i]) ==> x !in IdBag(doc)
  }

  /** The signed document has a valid ID space if and only if no new identifier was taken under any
      spelling. */
  lemma IdSpaceSurvives(doc: Node, plans: seq<Plan>, signing: Signing, fills: seq<Filling>)
    requires AllInsertable(doc, plans) && Matching(plans, fills) && Fresh(doc, plans) && IdMap(doc).Some?
    ensures IdMap(WorkingDocument(doc, plans, signing, fills)).Some? <==> NoneTaken(doc, plans)
  {
    hide PlanIds, IdMap, IdBag, WorkingDocument, PlansBag;
    var w := WorkingDocument(doc, plans, signing, fills);
    WorkingBag(doc, plans, signing, fills);
    IdMapByBag(w);
    IdMapByBag(doc);
    forall p | p in plans
      ensures AllDistinct(PlanIds(p)) && "" !in PlanIds(p)
    {
      assert FreshPlan(doc, p);
    }
    PlansBagOnce(plans);
    SumProper(IdBag(doc), PlansBag(plans));
  }

  lemma SumProper(a: multiset<string>, b: multiset<string>)
    requires ProperBag(a) && ProperBag(b)
    ensures ProperBag(a + b) <==> forall x :: x in b ==> x !in a
  {
    if ProperBag(a + b) {
      forall x | x in b
        ensures x !in a
      {
        assert (a + b)[x] == a[x] + b[x];
      }
    }
    if forall x :: x in b ==> x !in a {
      forall x
        ensures (a + b)[x] <= 1
      {
        assert (a + b)[x] == a[x] + b[x];
      }
    }
  }

  /** Dossiers that spell identifiers `Id` keep a valid ID space. */
  lemma SpelledIdSurvives(doc: Node, plans: seq<Plan>, signing: Signing, fills: seq<Filling>)
    requires AllInsertable(doc, plans) && Matching(plans, fills) && Fresh(doc, plans) && IdMap(doc).Some?
    requires SpelledId(doc) && UniqueAttrs(doc)
    ensures IdMap(WorkingDocument(doc, plans, signing, fills)).Some?
  {
    hide PlanIds, IdMap, IdBag, WorkingDocument;
    forall i, x | 0 <= i < |plans| && x in PlanIds(plans[i])
      ensures x !in IdBag(doc)
    {
      assert plans[i] in plans && FreshPlan(doc, plans[i]);
      FreeMeansAbsent(doc, x);
    }
    IdSpaceSurvives(doc, plans, signing, fills);
  }
}
