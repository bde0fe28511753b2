/**
 How large a document gets when elements gain last children. The length of its
 text and the numbers of its nodes and elements are those of the original and of
 what was added, together, and it is as deep as the original or as an added
 child makes it. `GrownReads` puts this in terms of the reader's limits.
 */
module GrownSize {
  import opened XmlTree
  import opened SourceText
  import opened TreeEdits
  import opened Growth
  import opened Reader
  import opened TreeScan

  /** The length of a node's text, and how many nodes and elements it is. */
  datatype Size = Size(length: nat, nodes: nat, elements: nat)

  function SizeOf(n: Node): Size {
    Size(|Source(n)|, NodeCount(n), ElementCount(n))
  }

  function SizeOfAll(kids: seq<Node>): Size {
    Size(|SourceAll(kids)|, NodeCountAll(kids), ElementCountAll(kids))
  }

  function Plus(a: Size, b: Size): Size {
    Size(a.length + b.length, a.nodes + b.nodes, a.elements + b.elements)
  }

  lemma SizeOfCons(n: Node, rest: seq<Node>)
    ensures SizeOfAll([n] + rest) == Plus(SizeOf(n), SizeOfAll(rest))
  {
    hide Source, NodeCount, ElementCount;
    assert ([n] + rest)[1..] == rest;
  }

  lemma {:induction false} SizeOfConcat(a: seq<Node>, b: seq<Node>)
    ensures SizeOfAll(a + b) == Plus(SizeOfAll(a), SizeOfAll(b))
  {
    if a == [] {
      assert a + b == b;
    } else {
      hide SizeOfAll, SizeOf;
      assert a + b == [a[0]] + (a[1..] + b) && a == [a[0]] + a[1..];
      SizeOfCons(a[0], a[1..]);
      SizeOfCons(a[0], a[1..] + b);
      SizeOfConcat(a[1..], b);
    }
  }

  lemma SizeOfOne(n: Node)
    ensures SizeOfAll([n]) == SizeOf(n)
  {
    hide Source, NodeCount, ElementCount;
    assert [n] + [] == [n];
    SizeOfCons(n, []);
  }

  lemma SizeOfSet(kids: seq<Node>, k: nat, m: Node)
    requires k < |kids|
    ensures Plus(SizeOfAll(kids[k := m]), SizeOf(kids[k])) == Plus(SizeOfAll(kids), SizeOf(m))
  {
    hide SizeOfAll, SizeOf;
    assert kids == kids[..k] + ([kids[k]] + kids[k + 1..]);
    assert kids[k := m] == kids[..k] + ([m] + kids[k + 1..]);
    SizeOfConcat(kids[..k], [kids[k]] + kids[k + 1..]);
    SizeOfConcat(kids[..k], [m] + kids[k + 1..]);
    SizeOfConcat([kids[k]], kids[k + 1..]);
    SizeOfConcat([m], kids[k + 1..]);
    SizeOfOne(kids[k]);
    SizeOfOne(m);
  }

  /** Tags and nothing else. */
  function OwnSize(n: Node): Size {
    if Holds(n) then Size(|n.open| + |n.close|, 1, if n.Element? then 1 else 0) else SizeOf(n)
  }

  lemma OwnAndKids(n: Node, kids: seq<Node>)
    requires Holds(n)
    ensures SizeOf(WithKids(n, kids)) == Plus(OwnSize(n), SizeOfAll(kids)) && SizeOf(n) == Plus(OwnSize(n), SizeOfAll(Kids(n)))
  {}

  lemma {:induction false} ReplaceSize(n: Node, p: Path, m: Node)
    requires Valid(n, p)
    ensures Plus(SizeOf(ReplaceAt(n, p, m)), SizeOf(At(n, p))) == Plus(SizeOf(n), SizeOf(m))
    decreases |p|
  {
    hide SizeOf, SizeOfAll, OwnSize;
    if p != [] {
      var kids := Kids(n);
      var kid := kids[p[0]];
      var now := ReplaceAt(kid, p[1..], m);
      ReplaceSize(kid, p[1..], m);
      SizeOfSet(kids, p[0], now);
      OwnAndKids(n, kids[p[0] := now]);
    }
  }

  lemma AddKidSize(e: Node, kid: Node)
    requires Holds(e)
    ensures SizeOf(AddKid(e, kid)) == Plus(SizeOf(e), SizeOf(kid))
  {
    hide SizeOf, SizeOfAll, OwnSize;
    OwnAndKids(e, Kids(e) + [kid]);
    SizeOfConcat(Kids(e), [kid]);
    SizeOfOne(kid);
  }

  lemma NothingSized(n: Node)
    ensures Plus(SizeOf(n), SizeOfAll([])) == SizeOf(n)
  {}

  lemma {:induction false} AdditionsSize(n: Node, changes: seq<Change>, kids: seq<Node>)
    requires Additions(n, changes, kids)
    ensures SizeOf(ApplyChanges(n, changes)) == Plus(SizeOf(n), SizeOfAll(kids))
    decreases |changes|
  {
    hide SizeOf, SizeOfAll;
    if changes == [] {
      NothingSized(n);
    } else {
      var q := changes[0].path;
      assert changes[0] in changes;
      RestAreAdditions(n, changes, kids);
      ReplaceSize(n, q, AddKid(At(n, q), kids[0]));
      AddKidSize(At(n, q), kids[0]);
      AdditionsSize(AppendAt(n, q, kids[0]), changes[1..], kids[1..]);
      SizeOfCons(kids[0], kids[1..]);
      assert kids == [kids[0]] + kids[1..];
    }
  }

  /** The grown document's size. */
  lemma GrownIsSum(doc: Node, qs: seq<Path>, kids: seq<Node>)
    requires Spots(doc, qs) && |kids| == |qs|
    ensures SizeOf(Grown(doc, qs, kids)) == Plus(SizeOf(doc), SizeOfAll(kids))
  {
    hide SizeOf, SizeOfAll, InsertOffset, Source, ApplyChanges;
    GrowthsFit(doc, qs, kids);
    AdditionsSize(doc, Growths(doc, qs, kids), kids);
  }

  // --------------------------------------------------------------------- depth

  /** How many elements enclose what is added to the node at `q`. */
  function PathDepth(n: Node, q: Path): nat
    requires Valid(n, q)
  {
    (if n.Element? then 1 else 0) + if q == [] then 0 else PathDepth(Kids(n)[q[0]], q[1..])
  }

  lemma {:induction false} DeepestSet(kids: seq<Node>, k: nat, m: Node, deep: nat)
    requires k < |kids| && ElementDepth(m) == Scan.Max(ElementDepth(kids[k]), deep)
    ensures ElementDepthAll(kids[k := m]) == Scan.Max(ElementDepthAll(kids), deep)
  {
    hide ElementDepth;
    if k == 0 {
      assert kids[k := m][1..] == kids[1..];
    } else {
      assert kids[k := m][1..] == kids[1..][k - 1 := m];
      DeepestSet(kids[1..], k - 1, m, deep);
    }
  }

  lemma {:induction false} DeepestAdd(kids: seq<Node>, kid: Node)
    ensures ElementDepthAll(kids + [kid]) == Scan.Max(ElementDepthAll(kids), ElementDepth(kid))
  {
    hide ElementDepth;
    if kids == [] {
      assert [] + [kid] == [kid] && [kid][1..] == [];
    } else {
      assert (kids + [kid])[1..] == kids[1..] + [kid];
      DeepestAdd(kids[1..], kid);
    }
  }

  lemma {:induction false} AppendDepth(n: Node, q: Path, kid: Node)
    requires Valid(n, q) && Holds(At(n, q))
    ensures ElementDepth(AppendAt(n, q, kid)) == Scan.Max(ElementDepth(n), PathDepth(n, q) + ElementDepth(kid))
    decreases |q|
  {
    hide ElementDepthAll;
    if q == [] {
      DeepestAdd(Kids(n), kid);
    } else {
      var below := Kids(n)[q[0]];
      AppendDepth(below, q[1..], kid);
      DeepestSet(Kids(n), q[0], AppendAt(below, q[1..], kid), PathDepth(below, q[1..]) + ElementDepth(kid));
      assert AppendAt(n, q, kid) == WithKids(n, Kids(n)[q[0] := AppendAt(below, q[1..], kid)]);
    }
  }

  lemma {:induction false} PathDepthStays(n: Node, q: Path, kid: Node, p: Path)
    requires Valid(n, q) && Holds(At(n, q)) && Valid(n, p)
    ensures Valid(AppendAt(n, q, kid), p) && PathDepth(AppendAt(n, q, kid), p) == PathDepth(n, p)
    decreases |p|
  {
    if p != [] && q != [] && p[0] == q[0] {
      PathDepthStays(Kids(n)[q[0]], q[1..], kid, p[1..]);
    }
  }

  /** The `i`-th child makes the document no deeper than this. */
  predicate FitsAt(n: Node, changes: seq<Change>, kids: seq<Node>, deepest: nat, i: nat)
    requires i < |changes| && |kids| == |changes|
  {
    Valid(n, changes[i].path) && PathDepth(n, changes[i].path) + ElementDepth(kids[i]) <= deepest
  }

  predicate AllFit(n: Node, changes: seq<Change>, kids: seq<Node>, deepest: nat)
    requires |kids| == |changes|
  {
    forall i :: 0 <= i < |changes| ==> FitsAt(n, changes, kids, deepest, i)
  }

  lemma RestFit(n: Node, changes: seq<Change>, kids: seq<Node>, deepest: nat)
    requires Additions(n, changes, kids) && changes != []
    ensures Valid(n, changes[0].path)
    ensures AllFit(n, changes, kids, deepest)
       <==> PathDepth(n, changes[0].path) + ElementDepth(kids[0]) <= deepest
            && AllFit(AppendAt(n, changes[0].path, kids[0]), changes[1..], kids[1..], deepest)
  {
    hide ElementDepth, PathDepth, AppendAt, ReplaceAt;
    var q, rest, others := changes[0].path, changes[1..], kids[1..];
    assert changes[0] in changes;
    var next := AppendAt(n, q, kids[0]);
    forall i | 1 <= i < |changes|
      ensures FitsAt(n, changes, kids, deepest, i) <==> FitsAt(next, rest, others, deepest, i - 1)
    {
      assert changes[i] in changes;
      PathDepthStays(n, q, kids[0], changes[i].path);
    }
    if AllFit(n, changes, kids, deepest) {
      assert FitsAt(n, changes, kids, deepest, 0);
      forall i | 0 <= i < |rest|
        ensures FitsAt(next, rest, others, deepest, i)
      {
        assert FitsAt(n, changes, kids, deepest, i + 1);
      }
    }
    if PathDepth(n, q) + ElementDepth(kids[0]) <= deepest && AllFit(next, rest, others, deepest) {
      forall i | 0 <= i < |changes|
        ensures FitsAt(n, changes, kids, deepest, i)
      {
        if i > 0 { assert FitsAt(next, rest, others, deepest, i - 1); }
      }
    }
  }

  lemma {:induction false} AdditionsDepth(n: Node, changes: seq<Change>, kids: seq<Node>, deepest: nat)
    requires Additions(n, changes, kids)
    ensures ElementDepth(ApplyChanges(n, changes)) <= deepest <==> ElementDepth(n) <= deepest && AllFit(n, changes, kids, deepest)
    decreases |changes|
  {
    hide ElementDepth, PathDepth, AllFit;
    if changes == [] {
      NoneUnfit(n, deepest);
    } else {
      assert changes[0] in changes;
      RestAreAdditions(n, changes, kids);
      AppendDepth(n, changes[0].path, kids[0]);
      RestFit(n, changes, kids, deepest);
      AdditionsDepth(AppendAt(n, changes[0].path, kids[0]), changes[1..], kids[1..], deepest);
    }
  }

  lemma NoneUnfit(n: Node, deepest: nat)
    ensures AllFit(n, [], [], deepest)
  {}

  /** No added child is too deep where it is added. */
  predicate Shallow(doc: Node, qs: seq<Path>, kids: seq<Node>, deepest: nat)
    requires Spots(doc, qs) && |kids| == |qs|
  {
    forall i :: 0 <= i < |qs| ==> qs[i] in qs && PathDepth(doc, qs[i]) + ElementDepth(kids[i]) <= deepest
  }

  lemma GrownDepth(doc: Node, qs: seq<Path>, kids: seq<Node>, deepest: nat)
    requires Spots(doc, qs) && |kids| == |qs|
    ensures ElementDepth(Grown(doc, qs, kids)) <= deepest <==> ElementDepth(doc) <= deepest && Shallow(doc, qs, kids, deepest)
  {
    hide InsertOffset, Source, ApplyChanges, ElementDepth, PathDepth;
    GrowthsFit(doc, qs, kids);
    var changes := Growths(doc, qs, kids);
    AdditionsDepth(doc, changes, kids, deepest);
    forall i | 0 <= i < |qs|
      ensures FitsAt(doc, changes, kids, deepest, i) <==> PathDepth(doc, qs[i]) + ElementDepth(kids[i]) <= deepest
    {
      assert qs[i] in qs;
    }
  }

  // -------------------------------------------------------------------- markup

  lemma {:induction false} ScannableSet(kids: seq<Node>, k: nat, m: Node)
    requires k < |kids| && ScannableAll(kids) && Scannable(m)
    ensures ScannableAll(kids[k := m])
  {
    hide Scannable;
    if k == 0 {
      assert kids[k := m][1..] == kids[1..];
    } else {
      assert kids[k := m][1..] == kids[1..][k - 1 := m];
      ScannableSet(kids[1..], k - 1, m);
    }
  }

  lemma {:induction false} ScannableAdd(kids: seq<Node>, kid: Node)
    requires ScannableAll(kids) && Scannable(kid)
    ensures ScannableAll(kids + [kid])
  {
    hide Scannable;
    if kids == [] {
      assert [] + [kid] == [kid] && [kid][1..] == [];
    } else {
      assert (kids + [kid])[1..] == kids[1..] + [kid];
      ScannableAdd(kids[1..], kid);
    }
  }

  lemma {:induction false} ScannablePick(kids: seq<Node>, k: nat)
    requires ScannableAll(kids) && k < |kids|
    ensures Scannable(kids[k])
  {
    if k > 0 { ScannablePick(kids[1..], k - 1); }
  }

  lemma {:induction false} AppendScannable(n: Node, q: Path, kid: Node)
    requires Scannable(n) && Scannable(kid) && Valid(n, q) && At(n, q).Element? && Kids(At(n, q)) != []
    ensures Scannable(AppendAt(n, q, kid))
    decreases |q|
  {
    hide ScannableAll, Passes, Opens, Closes;
    if q == [] {
      ScannableAdd(Kids(n), kid);
    } else {
      ScannablePick(Kids(n), q[0]);
      var now := AppendAt(Kids(n)[q[0]], q[1..], kid);
      AppendScannable(Kids(n)[q[0]], q[1..], kid);
      ScannableSet(Kids(n), q[0], now);
      assert AppendAt(n, q, kid) == WithKids(n, Kids(n)[q[0] := now]);
    }
  }

  lemma {:induction false} AdditionsScannable(n: Node, changes: seq<Change>, kids: seq<Node>)
    requires Additions(n, changes, kids) && Scannable(n) && ScannableAll(kids)
    requires forall c :: c in changes ==> Valid(n, c.path) && Kids(At(n, c.path)) != []
    ensures Scannable(ApplyChanges(n, changes))
    decreases |changes|
  {
    hide Scannable;
    if changes != [] {
      assert changes[0] in changes;
      RestAreAdditions(n, changes, kids);
      AppendScannable(n, changes[0].path, kids[0]);
      var next := AppendAt(n, changes[0].path, kids[0]);
      forall c | c in changes[1..]
        ensures Valid(next, c.path) && Kids(At(next, c.path)) != []
      {
        var i :| 0 <= i < |changes[1..]| && changes[1..][i] == c;
        assert changes[i + 1] == c && c in changes;
      }
      AdditionsScannable(next, changes[1..], kids[1..]);
    }
  }

  lemma GrownScannable(doc: Node, qs: seq<Path>, kids: seq<Node>)
    requires Spots(doc, qs) && |kids| == |qs| && Scannable(doc) && ScannableAll(kids)
    ensures Scannable(Grown(doc, qs, kids))
  {
    hide InsertOffset, Source, ApplyChanges, Scannable, ScannableAll;
    GrowthsFit(doc, qs, kids);
    var changes := Growths(doc, qs, kids);
    forall c | c in changes
      ensures Valid(doc, c.path) && Kids(At(doc, c.path)) != []
    {
      var i :| 0 <= i < |changes| && changes[i] == c;
      assert qs[i] in qs;
    }
    AdditionsScannable(doc, changes, kids);
  }

  // -------------------------------------------------------------------- limits

  /** The document and what is added to it, within the limits. */
  predicate Within(doc: Node, qs: seq<Path>, kids: seq<Node>, limits: Limits)
    requires Spots(doc, qs) && |kids| == |qs|
  {
    && |Source(doc)| + |SourceAll(kids)| <= limits.maxInput
    && ElementCount(doc) + ElementCountAll(kids) <= limits.maxElements
    && ElementDepth(doc) <= limits.maxDepth && Shallow(doc, qs, kids, limits.maxDepth)
    && NodeCount(doc) + NodeCountAll(kids) <= MaxNodes(limits)
  }

  /** Whether a grown document is read. */
  lemma GrownReads(doc: Node, qs: seq<Path>, kids: seq<Node>, limits: Limits)
    requires Spots(doc, qs) && |kids| == |qs| && Scannable(doc) && ScannableAll(kids)
    ensures Reads(Grown(doc, qs, kids), limits) <==> Within(doc, qs, kids, limits)
  {
    hide Source, SourceAll, NodeCount, NodeCountAll, ElementCount, ElementCountAll, Grown, Shallow, Scannable, ScannableAll, Scans;
    GrownIsSum(doc, qs, kids);
    GrownDepth(doc, qs, kids, limits.maxDepth);
    GrownScannable(doc, qs, kids);
    DocumentScans(Grown(doc, qs, kids), limits);
  }
}
