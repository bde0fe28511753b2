/**
 A document in which some elements have each gained one more last child.

 Both writers do this, one with signatures and one with container timestamps.
 A node that is not such an element or above one sees what it saw before; a
 node of an added child is decided by that child and by where it was added. On
 the text, adding the children is one insertion each, and replacing the values
 in them leads to the text of the document grown with the next children.
 */
module Growth {
  import opened XmlTree
  import opened IdSpace
  import opened SourceText
  import opened Splicing
  import opened TreeEdits

  /** An element with something in it, which can gain a last child. */
  predicate Spot(doc: Node, q: Path) {
    Valid(doc, q) && At(doc, q).Element? && Kids(At(doc, q)) != []
  }

  predicate Spots(doc: Node, qs: seq<Path>) {
    && (forall q :: q in qs ==> Spot(doc, q))
    && (forall i, j :: 0 <= i < j < |qs| ==> Disjoint(qs[i], qs[j]))
  }

  /** The path of the child an element gains. */
  function NextKid(doc: Node, q: Path): Path
    requires Spot(doc, q)
  {
    q + [|Kids(At(doc, q))|]
  }

  /** The element gains a last child, the text an insertion. */
  function GrowthAt(doc: Node, q: Path, kid: Node): Change
    requires Spot(doc, q)
  {
    Change(q, AddKid(At(doc, q), kid), Edit(InsertOffset(doc, q), InsertOffset(doc, q), Source(kid)))
  }

  function Growths(doc: Node, qs: seq<Path>, kids: seq<Node>): (r: seq<Change>)
    requires Spots(doc, qs) && |kids| == |qs|
    ensures |r| == |qs|
    ensures forall i :: 0 <= i < |qs| ==> qs[i] in qs && r[i] == GrowthAt(doc, qs[i], kids[i])
  {
    seq(|qs|, i requires 0 <= i < |qs| => assert qs[i] in qs; GrowthAt(doc, qs[i], kids[i]))
  }

  lemma GrowthsFit(doc: Node, qs: seq<Path>, kids: seq<Node>)
    requires Spots(doc, qs) && |kids| == |qs|
    ensures Additions(doc, Growths(doc, qs, kids), kids)
  {
    hide InsertOffset, Source;
    var r := Growths(doc, qs, kids);
    forall c | c in r
      ensures Valid(doc, c.path)
    {
      var i :| 0 <= i < |r| && r[i] == c;
      assert qs[i] in qs;
    }
  }

  /** The document with every child in place. */
  function Grown(doc: Node, qs: seq<Path>, kids: seq<Node>): Node
    requires Spots(doc, qs) && |kids| == |qs|
  {
    GrowthsFit(doc, qs, kids);
    ApplyChanges(doc, Growths(doc, qs, kids))
  }

  // -------------------------------------------------------------- additions

  /** Every change gives an element one more child. */
  predicate Additions(n: Node, changes: seq<Change>, kids: seq<Node>) {
    && |kids| == |changes| && AllValid(n, changes) && AllApart(changes)
    && forall i :: 0 <= i < |changes| ==> changes[i] in changes && At(n, changes[i].path).Element?
                                          && changes[i].node == AddKid(At(n, changes[i].path), kids[i])
  }

  lemma RestAreAdditions(n: Node, changes: seq<Change>, kids: seq<Node>)
    requires Additions(n, changes, kids) && changes != []
    ensures Valid(n, changes[0].path)
    ensures Additions(AppendAt(n, changes[0].path, kids[0]), changes[1..], kids[1..])
    ensures ReplaceAt(n, changes[0].path, changes[0].node) == AppendAt(n, changes[0].path, kids[0])
    ensures forall i :: 1 <= i < |changes| ==>
              && Valid(n, changes[i].path)
              && At(AppendAt(n, changes[0].path, kids[0]), changes[i].path) == At(n, changes[i].path)
  {
    RestStaysValid(n, changes);
    var next := ReplaceAt(n, changes[0].path, changes[0].node);
    forall i | 1 <= i < |changes|
      ensures changes[1..][i - 1] in changes[1..] && At(next, changes[i].path) == At(n, changes[i].path)
    {
      assert changes[i] == changes[1..][i - 1];
      assert Disjoint(changes[0].path, changes[i].path);
      ReplaceApart(n, changes[0].path, changes[0].node, changes[i].path);
    }
    forall i | 0 <= i < |changes[1..]|
      ensures changes[1..][i] in changes[1..] && At(next, changes[1..][i].path).Element?
              && changes[1..][i].node == AddKid(At(next, changes[1..][i].path), kids[1..][i])
    {
      assert changes[i + 1] == changes[1..][i];
    }
  }

  /** `t` is a proper descendant of no... nothing was added at `t` or below it. */
  predicate AboveNone(changes: seq<Change>, t: Path) {
    forall c :: c in changes ==> !(t <= c.path)
  }

  lemma {:induction false} AdditionsKeepView(n: Node, changes: seq<Change>, kids: seq<Node>, t: Path)
    requires Additions(n, changes, kids) && Valid(n, t) && AboveNone(changes, t)
    ensures Valid(ApplyChanges(n, changes), t)
    ensures ViewAt(ApplyChanges(n, changes), t, BASE_SCOPE) == ViewAt(n, t, BASE_SCOPE)
    decreases |changes|
  {
    hide ViewAt;
    if changes != [] {
      assert changes[0] in changes && forall c :: c in changes[1..] ==> c in changes;
      RestAreAdditions(n, changes, kids);
      AppendKeepsView(n, changes[0].path, kids[0], t, BASE_SCOPE);
      AdditionsKeepView(AppendAt(n, changes[0].path, kids[0]), changes[1..], kids[1..], t);
    }
  }

  /** Old nodes keep their paths and tags; every new node is below an added child. */
  lemma {:induction false} AdditionsCases(n: Node, changes: seq<Change>, kids: seq<Node>, t: Path)
    requires Additions(n, changes, kids)
    ensures Valid(n, t) ==> Valid(ApplyChanges(n, changes), t) && SameHead(At(ApplyChanges(n, changes), t), At(n, t))
    ensures Valid(ApplyChanges(n, changes), t) && !Valid(n, t) ==>
              exists i :: 0 <= i < |changes| && AtAdded(n, changes, i, t)
    decreases |changes|
  {
    if changes != [] {
      var q := changes[0].path;
      RestAreAdditions(n, changes, kids);
      AppendCases(n, q, kids[0], t);
      var next := AppendAt(n, q, kids[0]);
      AdditionsCases(next, changes[1..], kids[1..], t);
      if Valid(ApplyChanges(n, changes), t) && !Valid(n, t) {
        if Valid(next, t) {
          assert AtAdded(n, changes, 0, t);
        } else {
          var i :| 0 <= i < |changes[1..]| && AtAdded(next, changes[1..], i, t);
          assert changes[1..][i] == changes[i + 1];
          assert AtAdded(n, changes, i + 1, t);
        }
      }
    }
  }

  /** `t` is at or below the child change `i` adds. */
  predicate AtAdded(n: Node, changes: seq<Change>, i: nat, t: Path)
    requires i < |changes|
  {
    Valid(n, changes[i].path) && changes[i].path + [|Kids(At(n, changes[i].path))|] <= t
  }

  // -------------------------------------------------------- what a node sees

  /** A node at or above no grown element sees what it saw before. */
  lemma OldView(doc: Node, qs: seq<Path>, kids: seq<Node>, t: Path)
    requires Spots(doc, qs) && |kids| == |qs|
    requires Valid(doc, t) && forall q :: q in qs ==> !(t <= q)
    ensures Valid(Grown(doc, qs, kids), t)
    ensures ViewAt(Grown(doc, qs, kids), t, BASE_SCOPE) == ViewAt(doc, t, BASE_SCOPE)
  {
    hide InsertOffset, Source, ViewAt;
    var changes := Growths(doc, qs, kids);
    GrowthsFit(doc, qs, kids);
    forall c | c in changes
      ensures !(t <= c.path)
    {
      var i :| 0 <= i < |changes| && changes[i] == c;
      assert qs[i] in qs;
    }
    AdditionsKeepView(doc, changes, kids, t);
  }

  /** The scope and the `xml:*` attributes a child of the element at `q` inherits. */
  function ScopeInside(doc: Node, q: Path): Scope
    requires Spot(doc, q)
  {
    Extend(DeclsOf(At(doc, q)), ScopeAbove(doc, q, BASE_SCOPE))
  }

  function XmlInside(doc: Node, q: Path): seq<Attr>
    requires Spot(doc, q)
  {
    XmlAttrsOf(At(doc, q)) + XmlAbove(doc, q)
  }

  /** What a node of an added child sees: that child, under the scope inside the element. */
  function NewView(doc: Node, q: Path, kid: Node, r: Path): View
    requires Spot(doc, q) && Valid(kid, r)
  {
    View(At(kid, r), ScopeAbove(kid, r, ScopeInside(doc, q)), XmlAbove(kid, r) + XmlInside(doc, q))
  }

  lemma InsideAdded(doc: Node, q: Path, kid: Node, r: Path)
    requires Spot(doc, q) && Valid(kid, r)
    ensures var k := |Kids(At(doc, q))|; var grown := AddKid(At(doc, q), kid);
            && Valid(grown, [k] + r) && At(grown, [k] + r) == At(kid, r)
            && ScopeAbove(grown, [k] + r, ScopeAbove(doc, q, BASE_SCOPE)) == ScopeAbove(kid, r, ScopeInside(doc, q))
            && XmlAbove(grown, [k] + r) + XmlAbove(doc, q) == XmlAbove(kid, r) + XmlInside(doc, q)
  {
    var e := At(doc, q);
    var grown := AddKid(e, kid);
    assert Kids(grown)[|Kids(e)|] == kid && DeclsOf(grown) == DeclsOf(e) && XmlAttrsOf(grown) == XmlAttrsOf(e);
    hide XmlAttrsOf, DeclsOf, Extend, Valid, At, ScopeAbove, XmlAbove, AddKid;
    OneDown(grown, |Kids(e)|, r, ScopeAbove(doc, q, BASE_SCOPE));
    Rejoin(XmlAbove(kid, r), XmlAttrsOf(e), XmlAbove(doc, q));
  }

  lemma AddedView(doc: Node, qs: seq<Path>, kids: seq<Node>, i: nat, r: Path)
    requires Spots(doc, qs) && |kids| == |qs| && i < |qs| && qs[i] in qs && Valid(kids[i], r)
    ensures var w := Grown(doc, qs, kids); var t := NextKid(doc, qs[i]) + r;
            Valid(w, t) && ViewAt(w, t, BASE_SCOPE) == NewView(doc, qs[i], kids[i], r)
  {
    hide InsertOffset, Source, ScopeInside, XmlInside, ApplyChanges, AddKid, ScopeAbove, XmlAbove, Valid, At;
    var changes := Growths(doc, qs, kids);
    GrowthsFit(doc, qs, kids);
    var q := qs[i];
    var k := |Kids(At(doc, q))|;
    InsideAdded(doc, q, kids[i], r);
    assert q + [k] + r == q + ([k] + r);
    ChangesBelow(doc, changes, i, [k] + r);
  }

  /** `p` is a node of added child `i`. */
  predicate InKid(doc: Node, qs: seq<Path>, kids: seq<Node>, i: nat, p: Path)
    requires Spots(doc, qs) && |kids| == |qs| && i < |qs|
  {
    && qs[i] in qs && NextKid(doc, qs[i]) <= p
    && var w := Grown(doc, qs, kids);
       var r := p[|NextKid(doc, qs[i])|..];
       Valid(w, p) && Valid(kids[i], r) && At(w, p) == At(kids[i], r)
  }

  lemma BelowNextKid(doc: Node, qs: seq<Path>, kids: seq<Node>, i: nat, p: Path)
    requires Spots(doc, qs) && |kids| == |qs| && i < |qs| && qs[i] in qs
    requires NextKid(doc, qs[i]) <= p && Valid(Grown(doc, qs, kids), p)
    ensures InKid(doc, qs, kids, i, p)
  {
    hide Grown, At, Valid, NextKid;
    KidsInPlace(doc, qs, kids);
    var place := NextKid(doc, qs[i]);
    assert p == place + p[|place|..];
    AtConcat(Grown(doc, qs, kids), place, p[|place|..]);
  }

  /** A node of a grown document is an old node with its old tag, or a node of one added child. */
  lemma WhereNodesGrew(doc: Node, qs: seq<Path>, kids: seq<Node>, p: Path)
    requires Spots(doc, qs) && |kids| == |qs|
    ensures var w := Grown(doc, qs, kids);
            && (Valid(doc, p) ==> Valid(w, p) && SameHead(At(w, p), At(doc, p)))
            && (Valid(w, p) && !Valid(doc, p) ==> exists i :: 0 <= i < |qs| && InKid(doc, qs, kids, i, p))
  {
    hide InsertOffset, Source, ApplyChanges, SameHead, InKid;
    var w := Grown(doc, qs, kids);
    var changes := Growths(doc, qs, kids);
    GrowthsFit(doc, qs, kids);
    AdditionsCases(doc, changes, kids, p);
    if Valid(w, p) && !Valid(doc, p) {
      var i :| 0 <= i < |changes| && AtAdded(doc, changes, i, p);
      assert qs[i] in qs;
      BelowNextKid(doc, qs, kids, i, p);
    }
  }

  // ------------------------------------------------------------- the ID space

  lemma {:induction false} AdditionsBag(n: Node, changes: seq<Change>, kids: seq<Node>)
    requires Additions(n, changes, kids)
    ensures IdBag(ApplyChanges(n, changes)) == IdBag(n) + IdBagOf(kids)
    decreases |changes|
  {
    hide IdBag;
    if changes != [] {
      var q := changes[0].path;
      assert changes[0] in changes;
      RestAreAdditions(n, changes, kids);
      ReplaceBag(n, q, AddKid(At(n, q), kids[0]));
      AddKidBag(At(n, q), kids[0]);
      AdditionsBag(AppendAt(n, q, kids[0]), changes[1..], kids[1..]);
      Cancel(IdBag(AppendAt(n, q, kids[0])), IdBag(At(n, q)), IdBag(n), IdBag(kids[0]));
    }
  }

  lemma Cancel(after: multiset<string>, old': multiset<string>, before: multiset<string>, kid: multiset<string>)
    requires after + old' == before + (old' + kid)
    ensures after == before + kid
  {
    forall x ensures after[x] == (before + kid)[x] {
      assert (after + old')[x] == (before + (old' + kid))[x];
    }
  }

  /** Growing adds the children's identifiers and changes no other. */
  lemma GrownBag(doc: Node, qs: seq<Path>, kids: seq<Node>)
    requires Spots(doc, qs) && |kids| == |qs|
    ensures IdBag(Grown(doc, qs, kids)) == IdBag(doc) + IdBagOf(kids)
  {
    hide IdBag, InsertOffset, Source, ApplyChanges;
    GrowthsFit(doc, qs, kids);
    AdditionsBag(doc, Growths(doc, qs, kids), kids);
  }

  // ------------------------------------------------------------- whole passes

  /** The added child at `q` becomes another one. */
  function RegrowthAt(doc: Node, now: Node, q: Path, kid: Node): Change
    requires Spot(doc, q) && Valid(now, NextKid(doc, q))
  {
    Change(NextKid(doc, q), kid, Edit(Start(now, NextKid(doc, q)), End(now, NextKid(doc, q)), Source(kid)))
  }

  predicate InPlace(doc: Node, now: Node, qs: seq<Path>) {
    forall q :: q in qs ==> Spot(doc, q) && Valid(now, NextKid(doc, q))
  }

  function Regrowths(doc: Node, now: Node, qs: seq<Path>, kids: seq<Node>): (r: seq<Change>)
    requires Spots(doc, qs) && |kids| == |qs| && InPlace(doc, now, qs)
    ensures |r| == |qs|
    ensures forall i :: 0 <= i < |qs| ==> qs[i] in qs && r[i] == RegrowthAt(doc, now, qs[i], kids[i])
  {
    seq(|qs|, i requires 0 <= i < |qs| => assert qs[i] in qs; RegrowthAt(doc, now, qs[i], kids[i]))
  }

  lemma KidsApart(doc: Node, a: Path, b: Path)
    requires Spot(doc, a) && Spot(doc, b) && Disjoint(a, b)
    ensures Disjoint(NextKid(doc, a), NextKid(doc, b)) && Disjoint(NextKid(doc, a), b) && Disjoint(a, NextKid(doc, b))
  {
    BelowIsApart(b, a, [|Kids(At(doc, a))|]);
    BelowIsApart(a, b, [|Kids(At(doc, b))|]);
    BelowIsApart(NextKid(doc, a), b, [|Kids(At(doc, b))|]);
  }

  lemma RegrowthsFit(doc: Node, now: Node, qs: seq<Path>, kids: seq<Node>)
    requires Spots(doc, qs) && |kids| == |qs| && InPlace(doc, now, qs)
    ensures AllValid(now, Regrowths(doc, now, qs, kids)) && AllApart(Regrowths(doc, now, qs, kids))
  {
    hide Start, End, Source;
    var r := Regrowths(doc, now, qs, kids);
    forall c | c in r
      ensures Valid(now, c.path)
    {
      var i :| 0 <= i < |r| && r[i] == c;
      assert qs[i] in qs;
    }
    forall i, j | 0 <= i < j < |r|
      ensures Disjoint(r[i].path, r[j].path)
    {
      assert qs[i] in qs && qs[j] in qs;
      KidsApart(doc, qs[i], qs[j]);
    }
  }

  /** Each added child is where it was added. */
  lemma KidsInPlace(doc: Node, qs: seq<Path>, kids: seq<Node>)
    requires Spots(doc, qs) && |kids| == |qs|
    ensures InPlace(doc, Grown(doc, qs, kids), qs)
    ensures forall i :: 0 <= i < |qs| ==> qs[i] in qs && At(Grown(doc, qs, kids), NextKid(doc, qs[i])) == kids[i]
  {
    hide InsertOffset, Source, Grown;
    forall i | 0 <= i < |qs|
      ensures qs[i] in qs && Valid(Grown(doc, qs, kids), NextKid(doc, qs[i]))
      ensures At(Grown(doc, qs, kids), NextKid(doc, qs[i])) == kids[i]
    {
      AddedView(doc, qs, kids, i, []);
      assert NextKid(doc, qs[i]) + [] == NextKid(doc, qs[i]);
    }
  }

  /** Change `i` adds `a` to an element; change `i` of `after` adds `b` instead; `swaps[i]` puts `b` in place of `a`. */
  predicate Swapping(before: seq<Change>, after: seq<Change>, swaps: seq<Change>) {
    && |before| == |after| == |swaps|
    && forall i :: 0 <= i < |before| ==> SwapsOne(before[i], after[i], swaps[i])
  }

  predicate SwapsOne(before: Change, after: Change, swap: Change) {
    && before.path == after.path
    && before.node.Element? && after.node.Element? && |before.node.children| > 0
    && var k := |before.node.children| - 1;
       swap.path == before.path + [k] && after.node == WithKids(before.node, before.node.children[k := swap.node])
  }

  lemma ReplaceTwice(n: Node, before: Change, after: Change, swap: Change)
    requires Valid(n, before.path) && SwapsOne(before, after, swap)
    ensures Valid(ReplaceAt(n, before.path, before.node), swap.path)
    ensures ReplaceAt(ReplaceAt(n, before.path, before.node), swap.path, swap.node) == ReplaceAt(n, after.path, after.node)
  {
    var k := |before.node.children| - 1;
    assert [k][1..] == [];
    assert ReplaceAt(before.node, [k], swap.node) == after.node;
    ReplaceInside(n, before.path, before.node, [k], swap.node);
  }

  /** Replacing inside a replacement. */
  lemma {:induction false} ReplaceInside(n: Node, p: Path, m: Node, r: Path, x: Node)
    requires Valid(n, p) && Valid(m, r)
    ensures Valid(ReplaceAt(n, p, m), p + r)
    ensures ReplaceAt(ReplaceAt(n, p, m), p + r, x) == ReplaceAt(n, p, ReplaceAt(m, r, x))
  {
    ReplaceBelow(n, p, m, r);
    if p == [] {
      assert p + r == r;
    } else {
      assert (p + r)[1..] == p[1..] + r;
      var kid := Kids(n)[p[0]];
      ReplaceInside(kid, p[1..], m, r, x);
      hide Valid, WithKids;
      var inner := ReplaceAt(kid, p[1..], m);
      SetKids(n, Kids(n)[p[0] := inner], Kids(n)[p[0] := inner][p[0] := ReplaceAt(inner, p[1..] + r, x)]);
      assert Kids(n)[p[0] := inner][p[0] := ReplaceAt(inner, p[1..] + r, x)] == Kids(n)[p[0] := ReplaceAt(inner, p[1..] + r, x)];
    }
  }

  lemma SwapStays(before: seq<Change>, after: seq<Change>, swaps: seq<Change>)
    requires Swapping(before, after, swaps) && before != [] && AllApart(before)
    ensures Swapping(before[1..], after[1..], swaps[1..]) && SwapsOne(before[0], after[0], swaps[0])
    ensures ApartFrom(before[1..], swaps[0].path)
    ensures AllApart([after[0]] + before[1..]) && AllApart(after) && AllApart(swaps)
  {
    forall i | 0 <= i < |before| - 1
      ensures SwapsOne(before[1..][i], after[1..][i], swaps[1..][i])
    {
      assert SwapsOne(before[i + 1], after[i + 1], swaps[i + 1]);
    }
    forall c | c in before[1..]
      ensures Disjoint(c.path, swaps[0].path)
    {
      var j :| 0 <= j < |before[1..]| && before[1..][j] == c;
      assert before[j + 1] == c && Disjoint(before[0].path, c.path);
      BelowIsApart(c.path, before[0].path, [|before[0].node.children| - 1]);
    }
    var mixed := [after[0]] + before[1..];
    forall i, j | 0 <= i < j < |mixed|
      ensures Disjoint(mixed[i].path, mixed[j].path)
    {
      assert mixed[j] == before[j] && mixed[i].path == before[i].path;
    }
    forall i, j | 0 <= i < j < |after|
      ensures Disjoint(after[i].path, after[j].path) && Disjoint(swaps[i].path, swaps[j].path)
    {
      var x, y := [|before[i].node.children| - 1], [|before[j].node.children| - 1];
      assert SwapsOne(before[i], after[i], swaps[i]) && SwapsOne(before[j], after[j], swaps[j]);
      BelowIsApart(before[i].path, before[j].path, y);
      BelowIsApart(before[j].path + y, before[i].path, x);
    }
  }

  lemma {:induction false} SwapAfter(n: Node, before: seq<Change>, after: seq<Change>, swaps: seq<Change>)
    requires AllValid(n, before) && AllApart(before) && Swapping(before, after, swaps)
    ensures AllValid(n, after) && AllApart(after) && AllApart(swaps) && AllValid(ApplyChanges(n, before), swaps)
    ensures ApplyChanges(ApplyChanges(n, before), swaps) == ApplyChanges(n, after)
    decreases |before|
  {
    forall c | c in after
      ensures Valid(n, c.path)
    {
      var i :| 0 <= i < |after| && after[i] == c;
      assert SwapsOne(before[i], after[i], swaps[i]) && before[i] in before;
    }
    if before != [] {
      hide ReplaceAt, Valid, SwapsOne;
      var b, a, s := before[0], after[0], swaps[0];
      assert b in before;
      SwapStays(before, after, swaps);
      RestStaysValid(n, before);
      ReplaceTwice(n, b, a, s);
      var n1, n1' := ReplaceAt(n, b.path, b.node), ReplaceAt(n, a.path, a.node);
      EditFirst(n1, before[1..], s.path, s.node);
      var mixed := [a] + before[1..];
      assert AllValid(n, mixed) by {
        assert forall c :: c in mixed ==> c == a || c in before;
        assert a in after;
      }
      RestStaysValid(n, mixed);
      assert mixed[1..] == before[1..] && mixed[0] == a;
      SwapAfter(n1', before[1..], after[1..], swaps[1..]);
      SwapsValid(ApplyChanges(n1, before[1..]), s, swaps);
      RestStaysValid(ApplyChanges(n1, before[1..]), swaps);
    }
  }

  /** Disjoint paths stay valid when one of them is replaced. */
  lemma SwapsValid(n: Node, s: Change, swaps: seq<Change>)
    requires swaps != [] && swaps[0] == s && Valid(n, s.path) && AllApart(swaps)
    requires AllValid(ReplaceAt(n, s.path, s.node), swaps[1..])
    ensures AllValid(n, swaps)
  {
    forall c | c in swaps
      ensures Valid(n, c.path)
    {
      var i :| 0 <= i < |swaps| && swaps[i] == c;
      if i > 0 {
        assert swaps[1..][i - 1] == c;
        ReplaceApart(n, s.path, s.node, c.path);
      }
    }
  }

  lemma GrowthsSwap(doc: Node, now: Node, qs: seq<Path>, kids: seq<Node>, next: seq<Node>)
    requires Spots(doc, qs) && |kids| == |next| == |qs| && InPlace(doc, now, qs)
    ensures Swapping(Growths(doc, qs, kids), Growths(doc, qs, next), Regrowths(doc, now, qs, next))
  {
    hide InsertOffset, Source, Start, End, Valid, At, Disjoint;
    var before, after, swaps := Growths(doc, qs, kids), Growths(doc, qs, next), Regrowths(doc, now, qs, next);
    forall i | 0 <= i < |qs|
      ensures SwapsOne(before[i], after[i], swaps[i])
    {
      assert qs[i] in qs;
      var there := Kids(At(doc, qs[i]));
      assert (there + [kids[i]])[|there| := next[i]] == there + [next[i]];
    }
  }

  /** Replacing every added child by the next one yields the document grown with the next ones. */
  lemma RegrownIsGrown(doc: Node, qs: seq<Path>, kids: seq<Node>, next: seq<Node>)
    requires Spots(doc, qs) && |kids| == |next| == |qs|
    ensures var w := Grown(doc, qs, kids);
            && InPlace(doc, w, qs)
            && var swaps := Regrowths(doc, w, qs, next);
               AllValid(w, swaps) && AllApart(swaps) && ApplyChanges(w, swaps) == Grown(doc, qs, next)
  {
    hide InsertOffset, Source, ApplyChanges, Start, End, Swapping, GrowthAt, RegrowthAt, Spots, InPlace, AllApart, AllValid;
    KidsInPlace(doc, qs, kids);
    var w := Grown(doc, qs, kids);
    GrowthsFit(doc, qs, kids);
    GrowthsFit(doc, qs, next);
    RegrowthsFit(doc, w, qs, next);
    GrowthsSwap(doc, w, qs, kids, next);
    SwapAfter(doc, Growths(doc, qs, kids), Growths(doc, qs, next), Regrowths(doc, w, qs, next));
  }

  // --------------------------------------------------------------- on the text

  /** The end tags are written out, as those of elements with content are. */
  predicate EndTagged(doc: Node, qs: seq<Path>) {
    forall q :: q in qs ==> Spot(doc, q) && At(doc, q).close != ""
  }

  lemma GrowthMatches(doc: Node, q: Path, kid: Node)
    requires Spot(doc, q) && At(doc, q).close != ""
    ensures Matches(doc, GrowthAt(doc, q, kid))
  {
    hide Source, InsertOffset;
    var c := GrowthAt(doc, q, kid);
    assert Kids(c.node) == Kids(At(doc, q)) + [kid];
    assert IsAppend(doc, c);
  }

  /** Inserting the children's text is adding the children to the tree. */
  lemma GrowthText(doc: Node, qs: seq<Path>, kids: seq<Node>)
    requires Spots(doc, qs) && |kids| == |qs| && EndTagged(doc, qs)
    ensures var edits := EditsIn(Growths(doc, qs, kids));
            && AllSeparate(edits) && (forall e :: e in edits ==> Fits(Source(doc), e) && e.start == e.end)
            && Substituted(Source(doc), EditSet(edits), 0) == Source(Grown(doc, qs, kids))
  {
    hide Source, InsertOffset, ApplyChanges;
    var changes := Growths(doc, qs, kids);
    GrowthsFit(doc, qs, kids);
    forall c | c in changes
      ensures Matches(doc, c) && c.edit.start == c.edit.end
    {
      var i :| 0 <= i < |changes| && changes[i] == c;
      assert qs[i] in qs;
      GrowthMatches(doc, qs[i], kids[i]);
    }
    TextFollowsTree(doc, changes);
    EditsInAt(changes);
    forall e | e in EditsIn(changes)
      ensures e.start == e.end
    {
      var i :| 0 <= i < |changes| && EditsIn(changes)[i] == e;
      assert changes[i] in changes;
    }
  }

  lemma {:induction false} EditsOfAt(text: string, edits: seq<FragmentEdit>)
    requires forall e :: e in edits ==> UsableEdit(text, e)
    ensures |EditsOf(text, edits)| == |edits|
    ensures forall i :: 0 <= i < |edits| ==> edits[i] in edits && EditsOf(text, edits)[i] == EditOf(text, edits[i])
  {
    if edits != [] {
      hide EditOf, UsableEdit;
      assert edits[0] in edits && forall e :: e in edits[1..] ==> e in edits;
      EditsOfAt(text, edits[1..]);
      forall i | 0 <= i < |edits|
        ensures edits[i] in edits && EditsOf(text, edits)[i] == EditOf(text, edits[i])
      {
        if i > 0 { assert edits[i] == edits[1..][i - 1]; }
      }
    }
  }

  /** The fragment edits of a pass: each child's values, in that child's range. */
  function PassEdits(doc: Node, now: Node, qs: seq<Path>, values: seq<seq<Substitution>>): (r: seq<FragmentEdit>)
    requires InPlace(doc, now, qs) && |qs| == |values|
    ensures |r| == |qs|
    ensures forall i :: 0 <= i < |qs| ==>
              && qs[i] in qs
              && r[i] == FragmentEdit(Start(now, NextKid(doc, qs[i])), End(now, NextKid(doc, qs[i])), values[i])
  {
    seq(|qs|, i requires 0 <= i < |qs| =>
      assert qs[i] in qs;
      FragmentEdit(Start(now, NextKid(doc, qs[i])), End(now, NextKid(doc, qs[i])), values[i]))
  }

  /** On the text of `kid`, the substitutions lead to the text of `next`. */
  predicate LeadsTo(kid: Node, values: seq<Substitution>, next: Node) {
    && Source(kid) != "" && (forall v :: v in values ==> v.placeholder != "")
    && FillFragment(Source(kid), values) == Source(next)
  }

  predicate AllLead(kids: seq<Node>, values: seq<seq<Substitution>>, next: seq<Node>) {
    |kids| == |values| == |next| && forall i :: 0 <= i < |kids| ==> LeadsTo(kids[i], values[i], next[i])
  }

  lemma RangeHolds(now: Node, p: Path)
    requires Valid(now, p)
    ensures Start(now, p) <= End(now, p) <= |Source(now)| && Source(now)[Start(now, p)..End(now, p)] == Source(At(now, p))
  {
    hide Source;
    ReplaceIsSplice(now, p, now);
  }

  lemma OneFragment(doc: Node, now: Node, q: Path, kid: Node, values: seq<Substitution>, next: Node)
    requires Spot(doc, q) && IsAt(now, NextKid(doc, q), kid) && LeadsTo(kid, values, next)
    ensures var p := NextKid(doc, q); var e := FragmentEdit(Start(now, p), End(now, p), values);
            && UsableEdit(Source(now), e)
            && EditOf(Source(now), e) == RegrowthAt(doc, now, q, next).edit
            && Matches(now, RegrowthAt(doc, now, q, next))
  {
    var p := NextKid(doc, q);
    RangeHolds(now, p);
    hide Source, Start, End, FillFragment;
    assert IsReplacement(now, RegrowthAt(doc, now, q, next));
  }

  /** One pass over the text. */
  lemma PassText(doc: Node, qs: seq<Path>, kids: seq<Node>, values: seq<seq<Substitution>>, next: seq<Node>)
    requires Spots(doc, qs) && |kids| == |qs| && AllLead(kids, values, next)
    ensures InPlace(doc, Grown(doc, qs, kids), qs)
    ensures var w := Grown(doc, qs, kids);
            var edits := PassEdits(doc, w, qs, values);
            && (forall e :: e in edits ==> UsableEdit(Source(w), e))
            && AllSeparate(EditsOf(Source(w), edits)) && (forall e :: e in EditsOf(Source(w), edits) ==> Fits(Source(w), e))
            && Substituted(Source(w), EditSet(EditsOf(Source(w), edits)), 0) == Source(Grown(doc, qs, next))
  {
    hide Source, Start, End, ApplyChanges, LeadsTo, InsertOffset, Grown;
    var w := Grown(doc, qs, kids);
    KidsInPlace(doc, qs, kids);
    RegrownIsGrown(doc, qs, kids, next);
    var swaps := Regrowths(doc, w, qs, next);
    var edits := PassEdits(doc, w, qs, values);
    forall i | 0 <= i < |qs|
      ensures qs[i] in qs && UsableEdit(Source(w), edits[i])
      ensures EditOf(Source(w), edits[i]) == swaps[i].edit && Matches(w, swaps[i])
    {
      assert qs[i] in qs && LeadsTo(kids[i], values[i], next[i]);
      OneFragment(doc, w, qs[i], kids[i], values[i], next[i]);
    }
    hide UsableEdit, EditOf, Matches, RegrowthAt, Valid;
    EachUsable(Source(w), edits);
    EachMatches(w, swaps);
    EditsOfAt(Source(w), edits);
    EditsInAt(swaps);
    assert EditsOf(Source(w), edits) == EditsIn(swaps);
    TextFollowsTree(w, swaps);
  }

  lemma EachUsable(text: string, edits: seq<FragmentEdit>)
    requires forall i :: 0 <= i < |edits| ==> UsableEdit(text, edits[i])
    ensures forall e :: e in edits ==> UsableEdit(text, e)
  {
    hide UsableEdit;
  }

  lemma EachMatches(n: Node, changes: seq<Change>)
    requires forall i :: 0 <= i < |changes| ==> Matches(n, changes[i])
    ensures AllMatch(n, changes)
  {
    hide Matches;
  }

  /** Insert the children, from the last one in the text to the first. */
  method WriteKids(doc: Node, qs: seq<Path>, kids: seq<Node>) returns (text: string)
    requires Spots(doc, qs) && |kids| == |qs| && EndTagged(doc, qs)
    ensures text == Source(Grown(doc, qs, kids))
  {
    hide Grown, Source, Substituted, EditSet, Fits, EditsIn, Growths;
    GrowthText(doc, qs, kids);
    text := InsertElements(Source(doc), EditsIn(Growths(doc, qs, kids)));
  }

  /** One pass: from the text grown with `kids` to the text grown with `next`. */
  method FillKids(text: string, doc: Node, qs: seq<Path>, kids: seq<Node>, values: seq<seq<Substitution>>, next: seq<Node>)
    returns (r: string)
    requires Spots(doc, qs) && |kids| == |qs| && AllLead(kids, values, next)
    requires text == Source(Grown(doc, qs, kids))
    ensures r == Source(Grown(doc, qs, next))
  {
    hide Grown, Source, Substituted, EditSet, UsableEdit, Fits, LeadsTo, InPlace;
    PassText(doc, qs, kids, values, next);
    r := FillIn(text, PassEdits(doc, Grown(doc, qs, kids), qs, values));
  }
}
