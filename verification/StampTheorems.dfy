/**
 What a timestamping run keeps: the ID space, the enumeration of the documents,
 and what every included element looks like.
 */
module StampTheorems {
  import opened Wrappers
  import opened XmlTree
  import opened C14n
  import opened Ids
  import opened IdSpace
  import opened Dossier
  import opened Growth
  import opened GrownLayout
  import opened SignatureXml
  import opened SignatureParts
  import opened WorkingIds
  import opened Run
  import opened ContainerStamps
  import opened StampXml
  import opened StampRun

  // ------------------------------------------------------------- the ID space

  /** No identifier of the run is carried in the original under `Id`, `ID` or `id`. */
  predicate NoStampTaken(doc: Node, plans: seq<StampPlan>) {
    forall i :: 0 <= i < |plans| ==> plans[i].id !in IdBag(doc)
  }

  function StampIds(plans: seq<StampPlan>): (r: seq<string>)
    ensures |r| == |plans| && forall i :: 0 <= i < |plans| ==> r[i] == plans[i].id
  {
    seq(|plans|, i requires 0 <= i < |plans| => plans[i].id)
  }

  lemma {:induction false} StampsBag(plans: seq<StampPlan>, stamping: Stamping, tokens: seq<string>)
    requires |tokens| == |plans|
    ensures IdBagOf(Stamps(plans, stamping, tokens)) == multiset(StampIds(plans))
  {
    hide StampNode, IdBag;
    if plans != [] {
      var kids, ids := Stamps(plans, stamping, tokens), StampIds(plans);
      StampBag(plans[0], stamping, tokens[0]);
      StampsBag(plans[1..], stamping, tokens[1..]);
      assert kids[1..] == Stamps(plans[1..], stamping, tokens[1..]);
      assert ids == [plans[0].id] + StampIds(plans[1..]);
    }
  }

  lemma StampedBag(doc: Node, plans: seq<StampPlan>, stamping: Stamping, tokens: seq<string>)
    requires Spots(doc, StampPlaces(plans)) && |tokens| == |plans|
    ensures IdBag(StampedDocument(doc, plans, stamping, tokens)) == IdBag(doc) + multiset(StampIds(plans))
  {
    hide IdBag, Grown, StampNode, Spots;
    GrownBag(doc, StampPlaces(plans), Stamps(plans, stamping, tokens));
    StampsBag(plans, stamping, tokens);
  }

  /** The timestamped document has a valid ID space if and only if no new identifier was taken under any
      spelling. */
  lemma StampedIdSpace(doc: Node, plans: seq<StampPlan>, stamping: Stamping, tokens: seq<string>)
    requires GoodStamps(doc, plans) && |tokens| == |plans| && IdMap(doc).Some?
    ensures IdMap(StampedDocument(doc, plans, stamping, tokens)).Some? <==> NoStampTaken(doc, plans)
  {
    hide IdMap, IdBag, Grown, StampNode, AllTidyStamps, Spots, ById;
    var w, ids := StampedDocument(doc, plans, stamping, tokens), StampIds(plans);
    StampedBag(doc, plans, stamping, tokens);
    IdMapByBag(w);
    IdMapByBag(doc);
    DistinctIsSingle(ids);
    forall i | 0 <= i < |ids|
      ensures ids[i] != ""
    {
      assert plans[i] in plans;
    }
    assert "" !in ids;
    SumProper(IdBag(doc), multiset(ids));
    forall i | 0 <= i < |plans|
      ensures plans[i].id in multiset(ids)
    {
      assert ids[i] in ids;
    }
    forall x | x in multiset(ids)
      ensures exists i :: 0 <= i < |plans| && plans[i].id == x
    {
      var i :| 0 <= i < |ids| && ids[i] == x;
    }
  }

  lemma SameHeadSameAttrs(a: Node, b: Node)
    requires SameHead(a, b)
    ensures a.Element? == b.Element? && (a.Element? ==> a.attrs == b.attrs)
  {
    assert WithKids(a, []).Element? == a.Element? && WithKids(b, []).Element? == b.Element?;
    if a.Element? { assert WithKids(a, []).attrs == a.attrs && WithKids(b, []).attrs == b.attrs; }
  }

  /** An identifier the original carries names the same element in the timestamped document, for both
      searches. */
  lemma StampedKeepsId(doc: Node, plans: seq<StampPlan>, stamping: Stamping, tokens: seq<string>, x: string, p: Path)
    requires Spots(doc, StampPlaces(plans)) && |tokens| == |plans|
    requires IdMap(StampedDocument(doc, plans, stamping, tokens)).Some? && ById(doc, x) == Some(p)
    ensures var w := StampedDocument(doc, plans, stamping, tokens);
            && IsElement(w, p) && ById(w, x) == Some(p) && x in IdMap(w).value && IdMap(w).value[x] == p
  {
    hide IdMap, Grown, SameHead, Spots;
    ByIdExact(doc, x);
    GrownHead(doc, StampPlaces(plans), Stamps(plans, stamping, tokens), p);
    SameHeadSameAttrs(At(StampedDocument(doc, plans, stamping, tokens), p), At(doc, p));
    ByIdIsTheMap(StampedDocument(doc, plans, stamping, tokens), x, p);
  }

  /** What the map of the original resolves, the map of the timestamped document resolves alike. */
  lemma StampedKeepsEntry(doc: Node, plans: seq<StampPlan>, stamping: Stamping, tokens: seq<string>, x: string)
    requires Spots(doc, StampPlaces(plans)) && |tokens| == |plans| && IdMap(doc).Some? && x in IdMap(doc).value
    requires IdMap(StampedDocument(doc, plans, stamping, tokens)).Some?
    ensures var now := IdMap(StampedDocument(doc, plans, stamping, tokens)).value;
            x in now && now[x] == IdMap(doc).value[x]
  {
    hide IdMap, Grown, SameHead, Spots, StampNode;
    var w, p := StampedDocument(doc, plans, stamping, tokens), IdMap(doc).value[x];
    IdMapExact(doc, x, p);
    GrownHead(doc, StampPlaces(plans), Stamps(plans, stamping, tokens), p);
    SameHeadSameAttrs(At(w, p), At(doc, p));
    IdMapExact(w, x, p);
  }

  /** The map has no other identifiers than the original's and the timestamps' own. */
  lemma StampedMap(doc: Node, plans: seq<StampPlan>, stamping: Stamping, tokens: seq<string>, x: string)
    requires Spots(doc, StampPlaces(plans)) && |tokens| == |plans| && IdMap(doc).Some?
    requires IdMap(StampedDocument(doc, plans, stamping, tokens)).Some?
    ensures x in IdMap(StampedDocument(doc, plans, stamping, tokens)).value <==> x in IdMap(doc).value || x in StampIds(plans)
  {
    hide IdMap, Grown, Spots, IdBag, StampNode;
    MapIsBag(doc, x);
    MapIsBag(StampedDocument(doc, plans, stamping, tokens), x);
    StampedBag(doc, plans, stamping, tokens);
    assert x in multiset(StampIds(plans)) <==> x in StampIds(plans);
  }

  lemma MapIsBag(doc: Node, x: string)
    requires IdMap(doc).Some?
    ensures x in IdMap(doc).value <==> x in IdBag(doc)
  {
    hide IdMap, IdBag;
    InBag(doc, x);
    if x in IdMap(doc).value {
      IdMapExact(doc, x, IdMap(doc).value[x]);
    }
    if exists p :: Carries(doc, p, x) {
      var p :| Carries(doc, p, x);
      IdMapExact(doc, x, p);
    }
  }

  // ------------------------------------------------------------- what stays put

  lemma StampIsNamed(plan: StampPlan, stamping: Stamping, token: string)
    ensures var node := StampNode(plan, stamping, token);
            node.Element? && node.ns == stamping.namespace && node.local == "TimeStamp"
  {
    hide StampKids, OpenTag, StampDecls;
  }

  lemma StampsAreNamed(plans: seq<StampPlan>, stamping: Stamping, tokens: seq<string>, ns: string, local: string)
    requires |tokens| == |plans| && local != "TimeStamp"
    ensures NoneNamed(Stamps(plans, stamping, tokens), ns, local)
  {
    hide StampNode;
    var kids := Stamps(plans, stamping, tokens);
    forall kid | kid in kids
      ensures !IsNamed(kid, ns, local)
    {
      var i :| 0 <= i < |kids| && kids[i] == kid;
      StampIsNamed(plans[i], stamping, tokens[i]);
    }
  }

  /** Children of any other name are enumerated as before. */
  lemma StampedChildren(doc: Node, plans: seq<StampPlan>, stamping: Stamping, tokens: seq<string>, p: Path, ns: string, local: string)
    requires Spots(doc, StampPlaces(plans)) && |tokens| == |plans| && Valid(doc, p) && local != "TimeStamp"
    ensures var w := StampedDocument(doc, plans, stamping, tokens);
            Valid(w, p) && ChildrenNamed(w, p, ns, local) == ChildrenNamed(doc, p, ns, local)
            && ChildNamed(w, p, ns, local) == ChildNamed(doc, p, ns, local)
  {
    hide Grown, StampNode, ChildrenNamed, Spots, NoneNamed;
    StampsAreNamed(plans, stamping, tokens, ns, local);
    GrownChildren(doc, StampPlaces(plans), Stamps(plans, stamping, tokens), p, ns, local);
  }

  lemma {:induction false} SameWithProfile(doc: Node, plans: seq<StampPlan>, stamping: Stamping, tokens: seq<string>,
                                           nodes: seq<Path>, namespace: string)
    requires Spots(doc, StampPlaces(plans)) && |tokens| == |plans| && forall n :: n in nodes ==> Valid(doc, n)
    ensures forall n :: n in nodes ==> Valid(StampedDocument(doc, plans, stamping, tokens), n)
    ensures WithProfile(StampedDocument(doc, plans, stamping, tokens), nodes, namespace) == WithProfile(doc, nodes, namespace)
  {
    hide Grown, ChildrenNamed, Spots;
    if nodes != [] {
      assert nodes == [nodes[0]] + nodes[1..];
      StampedChildren(doc, plans, stamping, tokens, nodes[0], namespace, "DocumentProfile");
      SameWithProfile(doc, plans, stamping, tokens, nodes[1..], namespace);
    }
  }

  lemma StampedRoot(doc: Node, plans: seq<StampPlan>, stamping: Stamping, tokens: seq<string>)
    requires Spots(doc, StampPlaces(plans)) && |tokens| == |plans| && doc.Root?
    ensures RootElement(StampedDocument(doc, plans, stamping, tokens)) == RootElement(doc)
  {
    hide Grown, RootElement, Spots;
    GrownRoot(doc, StampPlaces(plans), Stamps(plans, stamping, tokens));
  }

  /** The verifier enumerates the same documents. */
  lemma StampedDocuments(doc: Node, plans: seq<StampPlan>, stamping: Stamping, tokens: seq<string>, namespace: string)
    requires Spots(doc, StampPlaces(plans)) && |tokens| == |plans| && doc.Root?
    ensures DocumentNodes(StampedDocument(doc, plans, stamping, tokens), namespace) == DocumentNodes(doc, namespace)
  {
    hide Grown, ChildrenNamed, Spots, RootElement, WithProfile;
    var w, root := StampedDocument(doc, plans, stamping, tokens), RootElement(doc);
    StampedRoot(doc, plans, stamping, tokens);
    StampedChildren(doc, plans, stamping, tokens, root, namespace, "Documents");
    match ChildNamed(doc, root, namespace, "Documents") {
      case None =>
      case Some(documents) =>
        ChildrenNamedExact(doc, root, namespace, "Documents", documents);
        NodesValid(doc, documents, namespace);
        StampedChildren(doc, plans, stamping, tokens, documents, namespace, "Document");
        SameWithProfile(doc, plans, stamping, tokens, ChildrenNamed(doc, documents, namespace, "Document"), namespace);
    }
  }

  /** Below one container, and so at or above none. */
  lemma BelowOne(doc: Node, plans: seq<StampPlan>, i: nat, t: Path)
    requires Spots(doc, StampPlaces(plans)) && i < |plans| && plans[i].container < t
    ensures forall q :: q in StampPlaces(plans) ==> !(t <= q)
  {
    hide Spot;
    var qs := StampPlaces(plans);
    forall q | q in qs
      ensures !(t <= q)
    {
      var j :| 0 <= j < |qs| && qs[j] == q;
      if i < j {
        assert Disjoint(qs[i], qs[j]);
      } else if j < i {
        assert Disjoint(qs[j], qs[i]);
      }
    }
  }

  /** An element at or above no container has the same octets whatever tokens are in place. */
  lemma StampedOctets(doc: Node, plans: seq<StampPlan>, stamping: Stamping, tokens: seq<string>, t: Path)
    requires Spots(doc, StampPlaces(plans)) && |tokens| == |plans| && IsElement(doc, t)
    requires forall q :: q in StampPlaces(plans) ==> !(t <= q)
    ensures var w := StampedDocument(doc, plans, stamping, tokens);
            IsElement(w, t) && Canonical(w, t) == Canonical(doc, t) && ViewAt(w, t, BASE_SCOPE) == ViewAt(doc, t, BASE_SCOPE)
  {
    hide Grown, ViewAt, Octets, Spots;
    OldView(doc, StampPlaces(plans), Stamps(plans, stamping, tokens), t);
    SameViewAgrees(StampedDocument(doc, plans, stamping, tokens), doc, WithoutComments(Subtree(t)), Exclusive(false), []);
  }

  // ------------------------------------------------------- the writer's search

  lemma CarriedByStamp(plan: StampPlan, stamping: Stamping, token: string, r: Path, x: string)
    requires CarriesId(StampNode(plan, stamping, token), r, x)
    ensures x == plan.id
  {
    hide StampNode, IdBag, AttributeOf;
    StampBag(plan, stamping, token);
    IdAttrCarries(StampNode(plan, stamping, token), r, x);
    InBag(StampNode(plan, stamping, token), x);
  }

  lemma OldCarrier(doc: Node, plans: seq<StampPlan>, stamping: Stamping, tokens: seq<string>, q: Path, x: string)
    requires GoodStamps(doc, plans) && |tokens| == |plans| && ById(doc, x).Some?
    requires CarriesId(StampedDocument(doc, plans, stamping, tokens), q, x)
    ensures CarriesId(doc, q, x)
  {
    hide Grown, StampNode, SameHead, InKid, ById, AttributeOf, Spots, AllTidyStamps;
    var w, qs, kids := StampedDocument(doc, plans, stamping, tokens), StampPlaces(plans), Stamps(plans, stamping, tokens);
    WhereNodesGrew(doc, qs, kids, q);
    if Valid(doc, q) {
      SameHeadSameId(At(w, q), At(doc, q));
    } else {
      var i :| 0 <= i < |qs| && InKid(doc, qs, kids, i, q);
      assert plans[i] in plans;
      InKidCarries(doc, qs, kids, i, q, x);
      CarriedByStamp(plans[i], stamping, tokens[i], q[|NextKid(doc, qs[i])|..], x);
      assert false;
    }
  }

  lemma InKidCarries(doc: Node, qs: seq<Path>, kids: seq<Node>, i: nat, q: Path, x: string)
    requires Spots(doc, qs) && |kids| == |qs| && i < |qs| && InKid(doc, qs, kids, i, q) && CarriesId(Grown(doc, qs, kids), q, x)
    ensures Spot(doc, qs[i]) && |NextKid(doc, qs[i])| <= |q| && CarriesId(kids[i], q[|NextKid(doc, qs[i])|..], x)
  {
    hide Grown, AttributeOf, NextKid;
  }

  /** What the search found in the original, it finds in the timestamped document, whether or not that
      has a valid ID space. */
  lemma StampedSearch(doc: Node, plans: seq<StampPlan>, stamping: Stamping, tokens: seq<string>, x: string, p: Path)
    requires GoodStamps(doc, plans) && |tokens| == |plans| && IdMap(doc).Some? && ById(doc, x) == Some(p)
    ensures ById(StampedDocument(doc, plans, stamping, tokens), x) == Some(p)
  {
    hide Grown, StampNode, SameHead, IdMap, ById, AttributeOf, Spots;
    var w := StampedDocument(doc, plans, stamping, tokens);
    ByIdExact(doc, x);
    GrownHead(doc, StampPlaces(plans), Stamps(plans, stamping, tokens), p);
    SameHeadSameId(At(w, p), At(doc, p));
    ByIdExact(w, x);
    var q := ById(w, x).value;
    OldCarrier(doc, plans, stamping, tokens, q, x);
    BothOld(doc, p, q, x);
  }

  /** The two included elements of a plan. */
  ghost predicate Aims(doc: Node, plans: seq<StampPlan>, i: nat, a: string, s: Path, b: string, t: Path)
    requires i < |plans|
  {
    && plans[i].includes == [a, b] && ById(doc, a) == Some(s) && ById(doc, b) == Some(t)
    && plans[i].container < s && plans[i].container < t && IsElement(doc, s) && IsElement(doc, t)
  }

  /** The imprint in a timestamped document is that of the original elements, whatever the tokens. */
  lemma StampedImprint(doc: Node, plans: seq<StampPlan>, stamping: Stamping, tokens: seq<string>, i: nat, a: string, s: Path,
                       b: string, t: Path)
    requires GoodStamps(doc, plans) && IdMap(doc).Some? && |tokens| == |plans| && i < |plans| && Aims(doc, plans, i, a, s, b, t)
    ensures var w := StampedDocument(doc, plans, stamping, tokens);
            && IsElement(w, s) && IsElement(w, t) && Canonical(w, s) == Canonical(doc, s) && Canonical(w, t) == Canonical(doc, t)
            && Imprint(w, plans[i].includes) == Ok(Canonical(doc, s) + Canonical(doc, t))
  {
    hide Grown, Canonical, IdMap, ById, Spots, AllTidyStamps, FreshStamps;
    var w := StampedDocument(doc, plans, stamping, tokens);
    StampedSearch(doc, plans, stamping, tokens, a, s);
    StampedSearch(doc, plans, stamping, tokens, b, t);
    BelowOne(doc, plans, i, s);
    BelowOne(doc, plans, i, t);
    StampedOctets(doc, plans, stamping, tokens, s);
    StampedOctets(doc, plans, stamping, tokens, t);
    TwoIncludes(w, a, s, b, t);
  }

  lemma TwoIncludes(w: Node, a: string, s: Path, b: string, t: Path)
    requires FoundById(w, a) == Some(s) && FoundById(w, b) == Some(t) && IsElement(w, s) && IsElement(w, t)
    ensures Imprint(w, [a, b]) == Ok(Canonical(w, s) + Canonical(w, t))
  {
    hide FoundById, Canonical;
    assert [a, b][1..] == [b] && [b][1..] == [];
    assert Imprint(w, [b]) == Ok(Canonical(w, t) + "");
    assert Canonical(w, t) + "" == Canonical(w, t);
  }

  /** Inside one timestamp only the element itself carries the identifier. */
  lemma OnlyItself(plan: StampPlan, stamping: Stamping, token: string, r: Path)
    requires plan.id != "" && CarriesId(StampNode(plan, stamping, token), r, plan.id)
    ensures r == []
  {
    hide StampNode, IdMap, IdBag, AttributeOf;
    var kid := StampNode(plan, stamping, token);
    StampBag(plan, stamping, token);
    IdMapByBag(kid);
    StampCarriesId(plan, stamping, token);
    BothOld(kid, [], r, plan.id);
  }

  /** Each plan's own element is found where it was written, whether or not the ID space is valid. */
  lemma StampFound(doc: Node, plans: seq<StampPlan>, stamping: Stamping, tokens: seq<string>, i: nat)
    requires GoodStamps(doc, plans) && |tokens| == |plans| && i < |plans| && StampPlaces(plans)[i] in StampPlaces(plans)
    ensures var w, place := StampedDocument(doc, plans, stamping, tokens), NextKid(doc, plans[i].container);
            && IsAt(w, place, StampNode(plans[i], stamping, tokens[i])) && FoundById(w, plans[i].id) == Some(place)
  {
    hide Grown, IdMap, StampNode, NextKid, Spot, ById, InKid, SameHead, AttributeOf, AllTidyStamps;
    var w, place, qs, kids := StampedDocument(doc, plans, stamping, tokens), NextKid(doc, plans[i].container), StampPlaces(plans),
                              Stamps(plans, stamping, tokens);
    var x := plans[i].id;
    assert plans[i] in plans;
    KidsInPlace(doc, qs, kids);
    StampCarriesId(plans[i], stamping, tokens[i]);
    ByIdExact(w, x);
    var q := ById(w, x).value;
    WhereNodesGrew(doc, qs, kids, q);
    if Valid(doc, q) {
      SameHeadSameId(At(w, q), At(doc, q));
      ByIdExact(doc, x);
      assert false;
    } else {
      var j :| 0 <= j < |qs| && InKid(doc, qs, kids, j, q);
      InKidCarries(doc, qs, kids, j, q, x);
      CarriedByStamp(plans[j], stamping, tokens[j], q[|NextKid(doc, qs[j])|..], x);
      assert j == i;
      OnlyItself(plans[i], stamping, tokens[i], q[|place|..]);
      PrefixIs(doc, qs, kids, i, q);
    }
  }

  lemma PrefixIs(doc: Node, qs: seq<Path>, kids: seq<Node>, i: nat, q: Path)
    requires Spots(doc, qs) && |kids| == |qs| && i < |qs| && InKid(doc, qs, kids, i, q)
    requires |NextKid(doc, qs[i])| <= |q| && q[|NextKid(doc, qs[i])|..] == []
    ensures q == NextKid(doc, qs[i])
  {
    hide Grown, NextKid;
  }

  lemma StampCarriesId(plan: StampPlan, stamping: Stamping, token: string)
    ensures StampNode(plan, stamping, token).Element? && AttributeOf(StampNode(plan, stamping, token), "Id") == Some(plan.id)
  {
    hide StampKids, OpenTag, StampDecls;
  }
}
