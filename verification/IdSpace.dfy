/** The ID space as a bag of identifiers: what an edit adds to it and takes from it. */
module IdSpace {
  import opened XmlTree
  import opened Ids

  function AttrBag(attrs: seq<Attr>): multiset<string> {
    if attrs == [] then multiset{}
    else (if IsIdAttr(attrs[0]) then multiset{attrs[0].value} else multiset{}) + AttrBag(attrs[1..])
  }

  function OwnBag(node: Node): multiset<string> {
    if node.Element? then AttrBag(node.attrs) else multiset{}
  }

  /** Every identifier carried in a subtree, with multiplicity. */
  function IdBag(node: Node): multiset<string>
    decreases node, 1
  {
    OwnBag(node) + if node.Root? || node.Element? then IdBagOf(node.children) else multiset{}
  }

  function IdBagOf(kids: seq<Node>): multiset<string>
    decreases kids, 0
  {
    if kids == [] then multiset{} else IdBag(kids[0]) + IdBagOf(kids[1..])
  }

  lemma {:induction false} EntryIdsConcat(a: seq<Entry>, b: seq<Entry>)
    ensures EntryIds(a + b) == EntryIds(a) + EntryIds(b)
  {
    if a == [] {
      assert a + b == b;
    } else {
      assert (a + b)[1..] == a[1..] + b;
      EntryIdsConcat(a[1..], b);
    }
  }

  lemma {:induction false} AttrEntriesBag(attrs: seq<Attr>, path: Path)
    ensures multiset(EntryIds(AttrEntries(attrs, path))) == AttrBag(attrs)
  {
    if attrs != [] {
      AttrEntriesBag(attrs[1..], path);
      EntryIdsConcat(if IsIdAttr(attrs[0]) then [Entry(attrs[0].value, path)] else [], AttrEntries(attrs[1..], path));
    }
  }

  lemma {:induction false} EntriesBag(node: Node, base: Path)
    ensures multiset(EntryIds(Entries(node, base))) == IdBag(node)
    decreases node, 1
  {
    if node.Element? { AttrEntriesBag(node.attrs, base); }
    if node.Root? || node.Element? {
      EntriesOfBag(node.children, base, 0);
      EntryIdsConcat(OwnEntries(node, base), EntriesOf(node.children, base, 0));
    }
  }

  lemma {:induction false} EntriesOfBag(kids: seq<Node>, parent: Path, k: nat)
    ensures multiset(EntryIds(EntriesOf(kids, parent, k))) == IdBagOf(kids)
    decreases kids, 0
  {
    if kids != [] {
      EntriesBag(kids[0], parent + [k]);
      EntriesOfBag(kids[1..], parent, k + 1);
      EntryIdsConcat(Entries(kids[0], parent + [k]), EntriesOf(kids[1..], parent, k + 1));
    }
  }

  ghost predicate ProperBag(bag: multiset<string>) {
    "" !in bag && forall id :: bag[id] <= 1
  }

  lemma {:induction false} DistinctIsSingle(ids: seq<string>)
    ensures AllDistinct(ids) <==> forall id :: multiset(ids)[id] <= 1
  {
    if ids != [] {
      var first, rest := ids[0], ids[1..];
      assert ids == [first] + rest;
      DistinctIsSingle(rest);
      DistinctCons(ids);
      if forall id :: multiset(ids)[id] <= 1 {
        assert multiset(ids)[first] == 1 + multiset(rest)[first];
        forall id ensures multiset(rest)[id] <= 1 {
          assert multiset(rest)[id] <= multiset(ids)[id];
        }
      }
    }
  }

  lemma DistinctCons(ids: seq<string>)
    requires ids != []
    ensures AllDistinct(ids) <==> AllDistinct(ids[1..]) && ids[0] !in ids[1..]
  {
    var rest := ids[1..];
    if AllDistinct(ids) {
      forall j | 0 <= j < |rest| ensures rest[j] != ids[0] {
        assert ids[0] != ids[j + 1];
      }
    }
    if AllDistinct(rest) && ids[0] !in rest {
      forall i, j | 0 <= i < j < |ids| ensures ids[i] != ids[j] {
        assert ids[j] == rest[j - 1];
        assert i > 0 ==> ids[i] == rest[i - 1];
      }
    }
  }

  /** A document has a valid ID space exactly when its bag is proper. */
  lemma IdMapByBag(doc: Node)
    ensures IdMap(doc).Some? <==> ProperBag(IdBag(doc))
  {
    hide InsertAll, Entries, IdBag, EntryIds;
    var entries := Entries(doc, []);
    var ids := EntryIds(entries);
    InsertAllExact(entries, map[]);
    EntriesBag(doc, []);
    EntryIdsAt(entries);
    DistinctIsSingle(ids);
    assert (forall e :: e in entries ==> e.id != "") <==> "" !in ids by {
      if "" in ids {
        var i :| 0 <= i < |ids| && ids[i] == "";
        assert entries[i] in entries;
      }
      if !(forall e :: e in entries ==> e.id != "") {
        var i :| 0 <= i < |entries| && entries[i].id == "";
        assert ids[i] == "";
      }
    }
    assert (forall i, j :: 0 <= i < j < |entries| ==> entries[i].id != entries[j].id) <==> AllDistinct(ids) by {
      assert AllDistinct(ids) ==> forall i, j :: 0 <= i < j < |entries| ==> ids[i] != ids[j];
    }
  }

  lemma SameSum(a: multiset<string>, b: multiset<string>, c: multiset<string>, d: multiset<string>, own: multiset<string>)
    requires a + b == c + d
    ensures (own + a) + b == (own + c) + d
  {
    forall id ensures ((own + a) + b)[id] == ((own + c) + d)[id] {
      assert (a + b)[id] == (c + d)[id];
    }
  }

  lemma {:induction false} BagOfSet(kids: seq<Node>, k: nat, m: Node)
    requires k < |kids|
    ensures IdBagOf(kids[k := m]) + IdBag(kids[k]) == IdBagOf(kids) + IdBag(m)
  {
    var now := kids[k := m];
    if k == 0 {
      assert now[1..] == kids[1..];
    } else {
      assert now[1..] == kids[1..][k - 1 := m];
      BagOfSet(kids[1..], k - 1, m);
      assert IdBagOf(now) == IdBag(kids[0]) + IdBagOf(now[1..]);
      assert IdBagOf(kids) == IdBag(kids[0]) + IdBagOf(kids[1..]);
      SameSum(IdBagOf(now[1..]), IdBag(kids[k]), IdBagOf(kids[1..]), IdBag(m), IdBag(kids[0]));
    }
  }

  /** Replacing a subtree exchanges its identifiers for the new one's. */
  lemma {:induction false} ReplaceBag(n: Node, p: Path, m: Node)
    requires Valid(n, p)
    ensures IdBag(ReplaceAt(n, p, m)) + IdBag(At(n, p)) == IdBag(n) + IdBag(m)
    decreases |p|
  {
    if p != [] {
      var kids := Kids(n);
      var kid := kids[p[0]];
      var now := ReplaceAt(kid, p[1..], m);
      ReplaceBag(kid, p[1..], m);
      BagOfSet(kids, p[0], now);
      var grown := ReplaceAt(n, p, m);
      assert Kids(grown) == kids[p[0] := now];
      assert At(n, p) == At(kid, p[1..]);
      assert IdBag(grown) == OwnBag(n) + IdBagOf(kids[p[0] := now]);
      assert IdBag(n) == OwnBag(n) + IdBagOf(kids);
      Exchange(IdBagOf(kids[p[0] := now]), IdBag(kid), IdBagOf(kids), IdBag(now), IdBag(At(n, p)), IdBag(m), OwnBag(n));
    }
  }

  lemma Exchange(after: multiset<string>, kid: multiset<string>, before: multiset<string>, now: multiset<string>,
                 gone: multiset<string>, come: multiset<string>, own: multiset<string>)
    requires after + kid == before + now && now + gone == kid + come
    ensures (own + after) + gone == (own + before) + come
  {
    forall id ensures ((own + after) + gone)[id] == ((own + before) + come)[id] {
      assert (after + kid)[id] == (before + now)[id];
      assert (now + gone)[id] == (kid + come)[id];
    }
  }

  lemma {:induction false} BagOfConcat(a: seq<Node>, b: seq<Node>)
    ensures IdBagOf(a + b) == IdBagOf(a) + IdBagOf(b)
  {
    if a == [] {
      assert a + b == b;
    } else {
      assert (a + b)[1..] == a[1..] + b;
      BagOfConcat(a[1..], b);
    }
  }

  /** Appending a child adds its identifiers. */
  lemma AddKidBag(e: Node, kid: Node)
    requires e.Root? || e.Element?
    ensures IdBag(AddKid(e, kid)) == IdBag(e) + IdBag(kid)
  {
    BagOfConcat(e.children, [kid]);
    assert [kid][1..] == [];
    assert IdBagOf([kid]) == IdBag(kid);
  }

  /** Exactly the carried identifiers are in the bag. */
  lemma InBag(doc: Node, id: string)
    ensures id in IdBag(doc) <==> exists p :: Carries(doc, p, id)
  {
    var entries := Entries(doc, []);
    EntriesBag(doc, []);
    EntryIdsAt(entries);
    if id in IdBag(doc) {
      var i :| 0 <= i < |EntryIds(entries)| && EntryIds(entries)[i] == id;
      var e := entries[i];
      EntriesExact(doc, [], e);
      assert e.path[0..] == e.path;
      assert Carries(doc, e.path, id);
    }
    if exists p :: Carries(doc, p, id) {
      var p :| Carries(doc, p, id);
      EntriesExact(doc, [], Entry(id, p));
      assert p[0..] == p;
      var i :| 0 <= i < |entries| && entries[i] == Entry(id, p);
      assert EntryIds(entries)[i] == id;
    }
  }

  /** Every identifier is spelled `Id`. */
  ghost predicate SpelledId(doc: Node) {
    forall p :: IsElement(doc, p) ==> forall a :: a in At(doc, p).attrs && IsIdAttr(a) ==> a.local == "Id"
  }

  /** Attribute names are unique on an element, so the first `Id` is the `Id`. */
  ghost predicate UniqueAttrs(doc: Node) {
    forall p :: IsElement(doc, p) ==>
      forall a, b :: a in At(doc, p).attrs && b in At(doc, p).attrs && a.ns == b.ns && a.local == b.local ==> a == b
  }

  /** What the signer's search does not find is not carried at all, when identifiers are spelled `Id`. */
  lemma FreeMeansAbsent(doc: Node, id: string)
    requires SpelledId(doc) && UniqueAttrs(doc) && ById(doc, id).None?
    ensures id !in IdBag(doc)
  {
    ByIdExact(doc, id);
    InBag(doc, id);
    forall p ensures !Carries(doc, p, id) {
      if IsElement(doc, p) {
        AttrValueIn(At(doc, p).attrs, "Id");
        forall a | a in At(doc, p).attrs && IsIdAttr(a) ensures a.value != id {
          assert a.local == "Id";
        }
      }
    }
  }
}
