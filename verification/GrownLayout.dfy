/** What the structural parser looks for is where it was after elements gained children of other names. */
module GrownLayout {
  import opened XmlTree
  import opened SourceText
  import opened TreeEdits
  import opened Dossier
  import opened Growth

  lemma SameHeadSameName(a: Node, b: Node, ns: string, local: string)
    requires SameHead(a, b)
    ensures IsNamed(a, ns, local) == IsNamed(b, ns, local)
  {
    assert WithKids(a, []).Element? == a.Element? && WithKids(b, []).Element? == b.Element?;
    if a.Element? {
      assert WithKids(a, []).ns == a.ns && WithKids(a, []).local == a.local;
      assert WithKids(b, []).ns == b.ns && WithKids(b, []).local == b.local;
    }
  }

  lemma {:induction false} NamedFromConcat(a: seq<Node>, b: seq<Node>, parent: Path, k: nat, ns: string, local: string)
    ensures NamedFrom(a + b, parent, k, ns, local) == NamedFrom(a, parent, k, ns, local) + NamedFrom(b, parent, k + |a|, ns, local)
  {
    hide IsNamed;
    if a == [] {
      assert a + b == b;
    } else {
      assert (a + b)[1..] == a[1..] + b;
      NamedFromConcat(a[1..], b, parent, k + 1, ns, local);
    }
  }

  lemma OneNotListed(kid: Node, q: Path, k: nat, ns: string, local: string)
    requires !IsNamed(kid, ns, local)
    ensures NamedFrom([kid], q, k, ns, local) == []
  {
    assert [kid][1..] == [];
  }

  /** The same tags in the same order. */
  predicate SameHeads(a: seq<Node>, b: seq<Node>) {
    |a| == |b| && forall k :: 0 <= k < |a| ==> SameHead(a[k], b[k])
  }

  lemma {:induction false} SameHeadsSameNames(a: seq<Node>, b: seq<Node>, parent: Path, k: nat, ns: string, local: string)
    requires SameHeads(a, b)
    ensures NamedFrom(a, parent, k, ns, local) == NamedFrom(b, parent, k, ns, local)
  {
    hide IsNamed, SameHead;
    if a != [] {
      SameHeadSameName(a[0], b[0], ns, local);
      SameHeadsSameNames(a[1..], b[1..], parent, k + 1, ns, local);
    }
  }

  lemma {:induction false} SameHeadsSameFirst(a: seq<Node>, b: seq<Node>, k: nat)
    requires SameHeads(a, b)
    ensures FirstElement(a, k) == FirstElement(b, k)
  {
    if a != [] {
      assert WithKids(a[0], []).Element? == a[0].Element? && WithKids(b[0], []).Element? == b[0].Element?;
      SameHeadsSameFirst(a[1..], b[1..], k + 1);
    }
  }

  /** Above a grown element only tags count, and they stay. */
  lemma AboveHeads(n: Node, q: Path, kid: Node, p: Path)
    requires Valid(n, q) && At(n, q).Element? && p < q
    ensures Valid(n, p) && Valid(AppendAt(n, q, kid), p)
    ensures SameHeads(Kids(At(AppendAt(n, q, kid), p)), Kids(At(n, p)))
  {
    hide ReplaceAt, SameHead, AppendAt;
    var d := AppendAt(n, q, kid);
    assert d == ReplaceAt(n, q, AddKid(At(n, q), kid)) by { AppendIs(n, q, kid); }
    ReplaceAbove(n, q, AddKid(At(n, q), kid), p);
    forall k | 0 <= k < |Kids(At(n, p))|
      ensures SameHead(Kids(At(d, p))[k], Kids(At(n, p))[k])
    {
      AtConcat(n, p, [k]);
      AtConcat(d, p, [k]);
      assert [k][1..] == [];
      AppendCases(n, q, kid, p + [k]);
    }
  }

  lemma AppendIs(n: Node, q: Path, kid: Node)
    requires Valid(n, q)
    ensures AppendAt(n, q, kid) == ReplaceAt(n, q, AddKid(At(n, q), kid))
  {}

  lemma AppendChildren(n: Node, q: Path, kid: Node, p: Path, ns: string, local: string)
    requires Valid(n, q) && At(n, q).Element? && Valid(n, p) && !IsNamed(kid, ns, local)
    ensures Valid(AppendAt(n, q, kid), p)
    ensures ChildrenNamed(AppendAt(n, q, kid), p, ns, local) == ChildrenNamed(n, p, ns, local)
  {
    hide ReplaceAt, SameHead, IsNamed, AppendAt, NamedFrom;
    AppendIs(n, q, kid);
    if p == q {
      ReplaceBelow(n, q, AddKid(At(n, q), kid), []);
      assert q + [] == q;
      NamedFromConcat(Kids(At(n, q)), [kid], q, 0, ns, local);
      OneNotListed(kid, q, |Kids(At(n, q))|, ns, local);
    } else if p < q {
      AboveHeads(n, q, kid, p);
      SameHeadsSameNames(Kids(At(AppendAt(n, q, kid), p)), Kids(At(n, p)), p, 0, ns, local);
    } else {
      AppendCases(n, q, kid, p);
    }
  }

  lemma {:induction false} AdditionsChildren(n: Node, changes: seq<Change>, kids: seq<Node>, p: Path, ns: string, local: string)
    requires Additions(n, changes, kids) && Valid(n, p) && forall kid :: kid in kids ==> !IsNamed(kid, ns, local)
    ensures Valid(ApplyChanges(n, changes), p)
    ensures ChildrenNamed(ApplyChanges(n, changes), p, ns, local) == ChildrenNamed(n, p, ns, local)
    decreases |changes|
  {
    hide IsNamed, ChildrenNamed;
    if changes != [] {
      assert changes[0] in changes && kids[0] in kids && forall kid :: kid in kids[1..] ==> kid in kids;
      RestAreAdditions(n, changes, kids);
      AppendChildren(n, changes[0].path, kids[0], p, ns, local);
      AdditionsChildren(AppendAt(n, changes[0].path, kids[0]), changes[1..], kids[1..], p, ns, local);
    }
  }

  lemma AppendRoot(n: Node, q: Path, kid: Node)
    requires n.Root? && Valid(n, q) && At(n, q).Element?
    ensures AppendAt(n, q, kid).Root? && RootElement(AppendAt(n, q, kid)) == RootElement(n)
  {
    hide ReplaceAt, SameHead, FirstElement;
    assert q != [];
    AboveHeads(n, q, kid, []);
    SameHeadsSameFirst(Kids(AppendAt(n, q, kid)), Kids(n), 0);
    ReplaceAbove(n, q, AddKid(At(n, q), kid), []);
    RootHead(AppendAt(n, q, kid), n);
  }

  lemma RootHead(a: Node, b: Node)
    requires SameHead(a, b)
    ensures a.Root? == b.Root?
  {
    assert WithKids(a, []).Root? == a.Root? && WithKids(b, []).Root? == b.Root?;
  }

  lemma {:induction false} AdditionsRoot(n: Node, changes: seq<Change>, kids: seq<Node>)
    requires Additions(n, changes, kids) && n.Root?
    ensures ApplyChanges(n, changes).Root? && RootElement(ApplyChanges(n, changes)) == RootElement(n)
    decreases |changes|
  {
    hide RootElement;
    if changes != [] {
      assert changes[0] in changes;
      RestAreAdditions(n, changes, kids);
      AppendRoot(n, changes[0].path, kids[0]);
      AdditionsRoot(AppendAt(n, changes[0].path, kids[0]), changes[1..], kids[1..]);
    }
  }

  // ----------------------------------------------------------- grown documents

  predicate NoneNamed(kids: seq<Node>, ns: string, local: string) {
    forall kid :: kid in kids ==> !IsNamed(kid, ns, local)
  }

  /** Enumerating the children of an old node gives the same list. */
  lemma GrownChildren(doc: Node, qs: seq<Path>, kids: seq<Node>, p: Path, ns: string, local: string)
    requires Spots(doc, qs) && |kids| == |qs| && Valid(doc, p) && NoneNamed(kids, ns, local)
    ensures Valid(Grown(doc, qs, kids), p)
    ensures ChildrenNamed(Grown(doc, qs, kids), p, ns, local) == ChildrenNamed(doc, p, ns, local)
  {
    hide IsNamed, ChildrenNamed, InsertOffset, Source, ApplyChanges;
    GrowthsFit(doc, qs, kids);
    AdditionsChildren(doc, Growths(doc, qs, kids), kids, p, ns, local);
  }

  lemma GrownRoot(doc: Node, qs: seq<Path>, kids: seq<Node>)
    requires Spots(doc, qs) && |kids| == |qs| && doc.Root?
    ensures Grown(doc, qs, kids).Root? && RootElement(Grown(doc, qs, kids)) == RootElement(doc)
  {
    hide RootElement, InsertOffset, Source, ApplyChanges;
    GrowthsFit(doc, qs, kids);
    AdditionsRoot(doc, Growths(doc, qs, kids), kids);
  }

  /** An old node keeps its name and its attributes. */
  lemma GrownHead(doc: Node, qs: seq<Path>, kids: seq<Node>, p: Path)
    requires Spots(doc, qs) && |kids| == |qs| && Valid(doc, p)
    ensures Valid(Grown(doc, qs, kids), p) && SameHead(At(Grown(doc, qs, kids), p), At(doc, p))
  {
    hide Grown, InKid, SameHead;
    WhereNodesGrew(doc, qs, kids, p);
  }
}
