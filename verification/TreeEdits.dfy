/**
 Edits of the text and edits of the tree are the same edits.

 A change is a tree edit (the node at a path becomes another) with the text edit
 that goes with it. For pairwise disjoint paths the changes commute, and the one
 simultaneous substitution on the text of a document is the text of the document
 after all tree edits.
 */
module TreeEdits {
  import opened XmlTree
  import opened SourceText
  import opened Splicing

  datatype Change = Change(path: Path, node: Node, edit: Edit)

  predicate AllApart(changes: seq<Change>) {
    forall i, j :: 0 <= i < j < |changes| ==> Disjoint(changes[i].path, changes[j].path)
  }

  predicate AllValid(n: Node, changes: seq<Change>) {
    forall c :: c in changes ==> Valid(n, c.path)
  }

  /** Disjointness from every changed path. */
  predicate ApartFrom(changes: seq<Change>, p: Path) {
    forall c :: c in changes ==> Disjoint(c.path, p)
  }

  function ApplyChanges(n: Node, changes: seq<Change>): Node
    requires AllValid(n, changes) && AllApart(changes)
    decreases |changes|
  {
    if changes == [] then n
    else
      RestStaysValid(n, changes);
      ApplyChanges(ReplaceAt(n, changes[0].path, changes[0].node), changes[1..])
  }

  lemma RestStaysValid(n: Node, changes: seq<Change>)
    requires AllValid(n, changes) && AllApart(changes) && changes != []
    ensures Valid(n, changes[0].path)
    ensures AllValid(ReplaceAt(n, changes[0].path, changes[0].node), changes[1..]) && AllApart(changes[1..])
    ensures ApartFrom(changes[1..], changes[0].path)
  {
    assert changes[0] in changes;
    forall c | c in changes[1..]
      ensures Valid(ReplaceAt(n, changes[0].path, changes[0].node), c.path)
      ensures Disjoint(c.path, changes[0].path)
    {
      var j :| 0 <= j < |changes[1..]| && changes[1..][j] == c;
      assert changes[j + 1] == c && c in changes;
      ReplaceApart(n, changes[0].path, changes[0].node, c.path);
    }
  }

  // -------------------------------------------------------------- commuting

  /** Replacing below one child. */
  lemma ReplaceKid(n: Node, k: nat, p: Path, m: Node)
    requires k < |Kids(n)| && Valid(Kids(n)[k], p)
    ensures Valid(n, [k] + p)
    ensures ReplaceAt(n, [k] + p, m) == WithKids(n, Kids(n)[k := ReplaceAt(Kids(n)[k], p, m)])
  {
    assert ([k] + p)[1..] == p;
  }

  lemma SetKids(n: Node, kids: seq<Node>, kids': seq<Node>)
    requires Kids(n) != []
    ensures Kids(WithKids(n, kids)) == kids && WithKids(WithKids(n, kids), kids') == WithKids(n, kids')
  {}

  lemma DifferentKids(n: Node, i: nat, p: Path, a: Node, j: nat, q: Path, b: Node)
    requires i < |Kids(n)| && Valid(Kids(n)[i], p) && j < |Kids(n)| && Valid(Kids(n)[j], q) && i != j
    ensures Valid(n, [i] + p) && Valid(n, [j] + q)
    ensures Valid(ReplaceAt(n, [i] + p, a), [j] + q)
    ensures ReplaceAt(ReplaceAt(n, [i] + p, a), [j] + q, b)
         == WithKids(n, Kids(n)[i := ReplaceAt(Kids(n)[i], p, a)][j := ReplaceAt(Kids(n)[j], q, b)])
  {
    var x := ReplaceAt(Kids(n)[i], p, a);
    ReplaceKid(n, i, p, a);
    ReplaceKid(n, j, q, b);
    SetKids(n, Kids(n)[i := x], Kids(n)[i := x][j := ReplaceAt(Kids(n)[j], q, b)]);
    ReplaceKid(WithKids(n, Kids(n)[i := x]), j, q, b);
  }

  lemma SameKid(n: Node, i: nat, p: Path, a: Node, q: Path, b: Node)
    requires i < |Kids(n)| && Valid(Kids(n)[i], p) && Valid(ReplaceAt(Kids(n)[i], p, a), q)
    ensures Valid(n, [i] + p) && Valid(ReplaceAt(n, [i] + p, a), [i] + q)
    ensures ReplaceAt(ReplaceAt(n, [i] + p, a), [i] + q, b)
         == WithKids(n, Kids(n)[i := ReplaceAt(ReplaceAt(Kids(n)[i], p, a), q, b)])
  {
    var x := ReplaceAt(Kids(n)[i], p, a);
    var z := ReplaceAt(x, q, b);
    ReplaceKid(n, i, p, a);
    SetKids(n, Kids(n)[i := x], Kids(n)[i := x][i := z]);
    ReplaceKid(WithKids(n, Kids(n)[i := x]), i, q, b);
    assert Kids(n)[i := x][i := z] == Kids(n)[i := z];
  }

  lemma {:induction false} ReplaceCommutes(n: Node, p: Path, a: Node, q: Path, b: Node)
    requires Valid(n, p) && Valid(n, q) && Disjoint(p, q)
    ensures Valid(ReplaceAt(n, p, a), q) && Valid(ReplaceAt(n, q, b), p)
    ensures ReplaceAt(ReplaceAt(n, p, a), q, b) == ReplaceAt(ReplaceAt(n, q, b), p, a)
    decreases |p|
  {
    var i, j, r, s := p[0], q[0], p[1..], q[1..];
    assert p == [i] + r && q == [j] + s;
    if i == j {
      DisjointTail(p, q);
      ReplaceCommutes(Kids(n)[i], r, a, s, b);
      SameKid(n, i, r, a, s, b);
      SameKid(n, i, s, b, r, a);
    } else {
      DifferentKids(n, i, r, a, j, s, b);
      DifferentKids(n, j, s, b, i, r, a);
      var x, y := ReplaceAt(Kids(n)[i], r, a), ReplaceAt(Kids(n)[j], s, b);
      assert Kids(n)[i := x][j := y] == Kids(n)[j := y][i := x];
    }
  }

  /** An edit apart from all the changes can be made first or last. */
  lemma {:induction false} EditFirst(n: Node, changes: seq<Change>, p: Path, m: Node)
    requires AllValid(n, changes) && AllApart(changes) && Valid(n, p) && ApartFrom(changes, p)
    ensures Valid(ApplyChanges(n, changes), p) && AllValid(ReplaceAt(n, p, m), changes)
    ensures ReplaceAt(ApplyChanges(n, changes), p, m) == ApplyChanges(ReplaceAt(n, p, m), changes)
    decreases |changes|
  {
    forall c | c in changes
      ensures Valid(ReplaceAt(n, p, m), c.path)
    {
      ReplaceApart(n, p, m, c.path);
    }
    if changes != [] {
      RestStaysValid(n, changes);
      RestStaysValid(ReplaceAt(n, p, m), changes);
      var c := changes[0];
      ReplaceApart(n, c.path, c.node, p);
      ReplaceCommutes(n, c.path, c.node, p, m);
      EditFirst(ReplaceAt(n, c.path, c.node), changes[1..], p, m);
    }
  }

  function EditsIn(changes: seq<Change>): seq<Edit> {
    if changes == [] then [] else [changes[0].edit] + EditsIn(changes[1..])
  }

  function InsertChange(sorted: seq<Change>, c: Change): seq<Change> {
    if sorted == [] || sorted[0].edit.start < c.edit.start then [c] + sorted
    else [sorted[0]] + InsertChange(sorted[1..], c)
  }

  function SortChanges(changes: seq<Change>): seq<Change> {
    if changes == [] then [] else InsertChange(SortChanges(changes[..|changes| - 1]), changes[|changes| - 1])
  }

  lemma {:induction false} EditsInAt(changes: seq<Change>)
    ensures |EditsIn(changes)| == |changes|
    ensures forall i :: 0 <= i < |changes| ==> EditsIn(changes)[i] == changes[i].edit
  {
    if changes != [] { EditsInAt(changes[1..]); }
  }

  lemma {:induction false} InsertChangeEdits(sorted: seq<Change>, c: Change)
    ensures EditsIn(InsertChange(sorted, c)) == InsertByStart(EditsIn(sorted), c.edit)
  {
    if sorted == [] || sorted[0].edit.start < c.edit.start {
      assert ([c] + sorted)[1..] == sorted;
    } else {
      InsertChangeEdits(sorted[1..], c);
      assert ([sorted[0]] + InsertChange(sorted[1..], c))[1..] == InsertChange(sorted[1..], c);
    }
  }

  lemma {:induction false} SortChangesEdits(changes: seq<Change>)
    ensures EditsIn(SortChanges(changes)) == SortDescending(EditsIn(changes))
  {
    if changes != [] {
      var most, last := changes[..|changes| - 1], changes[|changes| - 1];
      SortChangesEdits(most);
      InsertChangeEdits(SortChanges(most), last);
      EditsInAt(changes);
      EditsInAt(most);
      var edits := EditsIn(changes);
      assert edits[..|edits| - 1] == EditsIn(most);
    }
  }

  lemma ConsApart(first: Change, rest: seq<Change>)
    requires AllApart(rest) && ApartFrom(rest, first.path)
    ensures AllApart([first] + rest)
  {
    var all := [first] + rest;
    forall i, j | 0 <= i < j < |all|
      ensures Disjoint(all[i].path, all[j].path)
    {
      if i == 0 { assert all[j] in rest; } else { assert all[i] == rest[i - 1] && all[j] == rest[j - 1]; }
    }
  }

  lemma {:induction false} InsertChangeApart(sorted: seq<Change>, c: Change)
    requires AllApart(sorted) && ApartFrom(sorted, c.path)
    ensures AllApart(InsertChange(sorted, c))
    ensures forall x :: x in InsertChange(sorted, c) <==> x == c || x in sorted
  {
    if sorted == [] || sorted[0].edit.start < c.edit.start {
      ConsApart(c, sorted);
    } else {
      assert sorted == [sorted[0]] + sorted[1..];
      InsertChangeApart(sorted[1..], c);
      forall x | x in InsertChange(sorted[1..], c)
        ensures Disjoint(x.path, sorted[0].path)
      {
        if x in sorted[1..] {
          var j :| 0 <= j < |sorted[1..]| && sorted[1..][j] == x;
          assert sorted[j + 1] == x;
        }
      }
      ConsApart(sorted[0], InsertChange(sorted[1..], c));
    }
  }

  /** Inserting a change into a sorted list comes to applying it in front. */
  lemma {:induction false} InsertChangeApplies(n: Node, sorted: seq<Change>, c: Change)
    requires AllValid(n, sorted) && AllApart(sorted) && Valid(n, c.path) && ApartFrom(sorted, c.path)
    ensures AllValid(n, InsertChange(sorted, c)) && AllApart(InsertChange(sorted, c))
    ensures AllValid(ReplaceAt(n, c.path, c.node), sorted)
    ensures ApplyChanges(n, InsertChange(sorted, c)) == ApplyChanges(ReplaceAt(n, c.path, c.node), sorted)
    decreases |sorted|
  {
    InsertChangeApart(sorted, c);
    EditFirst(n, sorted, c.path, c.node);
    if sorted == [] || sorted[0].edit.start < c.edit.start {
      assert ([c] + sorted)[1..] == sorted;
    } else {
      hide ReplaceAt, Valid, Disjoint;
      var first := sorted[0];
      RestStaysValid(n, sorted);
      assert first in sorted && sorted == [first] + sorted[1..];
      ReplaceApart(n, first.path, first.node, c.path);
      InsertChangeApplies(ReplaceAt(n, first.path, first.node), sorted[1..], c);
      assert ([first] + InsertChange(sorted[1..], c))[1..] == InsertChange(sorted[1..], c);
      ReplaceCommutes(n, first.path, first.node, c.path, c.node);
    }
  }

  lemma {:induction false} SortChangesApply(n: Node, changes: seq<Change>)
    requires AllValid(n, changes) && AllApart(changes)
    ensures AllValid(n, SortChanges(changes)) && AllApart(SortChanges(changes))
    ensures forall x :: x in SortChanges(changes) <==> x in changes
    ensures ApplyChanges(n, SortChanges(changes)) == ApplyChanges(n, changes)
    decreases |changes|
  {
    if changes != [] {
      var most, last := changes[..|changes| - 1], changes[|changes| - 1];
      assert changes == most + [last];
      SortChangesApply(n, most);
      forall x | x in most
        ensures Disjoint(x.path, last.path)
      {
        var i :| 0 <= i < |most| && most[i] == x;
        assert changes[i] == x && changes[|changes| - 1] == last;
      }
      InsertChangeApart(SortChanges(most), last);
      InsertChangeApplies(n, SortChanges(most), last);
      EditFirst(n, SortChanges(most), last.path, last.node);
      LastChange(n, most, last);
    }
  }

  lemma {:induction false} LastChange(n: Node, most: seq<Change>, last: Change)
    requires AllValid(n, most + [last]) && AllApart(most + [last])
    ensures AllValid(n, most) && AllApart(most) && Valid(ApplyChanges(n, most), last.path)
    ensures ApplyChanges(n, most + [last]) == ReplaceAt(ApplyChanges(n, most), last.path, last.node)
    decreases |most|
  {
    var all := most + [last];
    assert forall c :: c in most ==> c in all;
    assert last in all;
    forall i, j | 0 <= i < j < |most|
      ensures Disjoint(most[i].path, most[j].path)
    {
      assert all[i] == most[i] && all[j] == most[j];
    }
    RestStaysValid(n, all);
    if most == [] {
      assert all[1..] == [];
    } else {
      assert all[1..] == most[1..] + [last] && all[0] == most[0];
      LastChange(ReplaceAt(n, most[0].path, most[0].node), most[1..], last);
    }
  }

  // ------------------------------------------------------- text follows tree

  /** The node is replaced, and so is its range. */
  predicate IsReplacement(n: Node, c: Change)
    requires Valid(n, c.path)
  {
    && c.edit == Edit(Start(n, c.path), End(n, c.path), Source(c.node))
    && Source(At(n, c.path)) != ""
  }

  /** The node gets one more child, and that child's text goes in after the last one. */
  predicate IsAppend(n: Node, c: Change)
    requires Valid(n, c.path)
  {
    var e := At(n, c.path);
    && Kids(e) != [] && e.close != "" && Kids(c.node) != []
    && var kid := Kids(c.node)[|Kids(c.node)| - 1];
       c.node == AddKid(e, kid) && c.edit == Edit(InsertOffset(n, c.path), InsertOffset(n, c.path), Source(kid))
  }

  predicate Matches(n: Node, c: Change) {
    Valid(n, c.path) && (IsReplacement(n, c) || IsAppend(n, c))
  }

  predicate AllMatch(n: Node, changes: seq<Change>) {
    forall c :: c in changes ==> Matches(n, c)
  }

  lemma MatchedEdit(n: Node, c: Change)
    requires Matches(n, c)
    ensures Fits(Source(n), c.edit)
    ensures Start(n, c.path) <= c.edit.start < End(n, c.path) && c.edit.end <= End(n, c.path)
    ensures Source(ReplaceAt(n, c.path, c.node)) == Splice(Source(n), c.edit.start, c.edit.end, c.edit.text)
  {
    ReplaceIsSplice(n, c.path, c.node);
    if IsAppend(n, c) {
      InsertOffsetIs(n, c.path);
      AppendIsInsert(n, c.path, Kids(c.node)[|Kids(c.node)| - 1]);
    }
  }

  lemma StillMatches(n: Node, c: Change, d: Change)
    requires Matches(n, c) && Matches(n, d) && Disjoint(c.path, d.path) && d.edit.start < c.edit.start
    ensures Matches(ReplaceAt(n, c.path, c.node), d)
  {
    MatchedEdit(n, c);
    MatchedEdit(n, d);
    DisjointIsOrdered(c.path, d.path);
    if Before(c.path, d.path) { EarlierEndsFirst(n, c.path, d.path); }
    EarlierStays(n, c.path, c.node, d.path);
    if IsAppend(n, d) { EarlierOffsetStays(n, c.path, c.node, d.path); }
  }

  lemma ApartIsSeparate(n: Node, c: Change, d: Change)
    requires Matches(n, c) && Matches(n, d) && Disjoint(c.path, d.path)
    ensures Separate(c.edit, d.edit)
  {
    MatchedEdit(n, c);
    MatchedEdit(n, d);
    DisjointIsOrdered(c.path, d.path);
    if Before(c.path, d.path) { EarlierEndsFirst(n, c.path, d.path); } else { EarlierEndsFirst(n, d.path, c.path); }
  }

  lemma {:induction false} SortedTextFollows(n: Node, changes: seq<Change>)
    requires AllMatch(n, changes) && AllApart(changes)
    requires Stacked(EditsIn(changes), |Source(n)|)
    ensures AllValid(n, changes)
    ensures ApplyInOrder(Source(n), EditsIn(changes)) == Source(ApplyChanges(n, changes))
    decreases |changes|
  {
    if changes != [] {
      var c := changes[0];
      assert c in changes && Matches(n, c);
      var next := ReplaceAt(n, c.path, c.node);
      MatchedEdit(n, c);
      RestStaysValid(n, changes);
      StackedFits(EditsIn(changes), |Source(n)|);
      EditsInAt(changes);
      forall d | d in changes[1..]
        ensures Matches(next, d)
      {
        var j :| 0 <= j < |changes[1..]| && changes[1..][j] == d;
        assert changes[j + 1] == d && EditsIn(changes)[j + 1].start < EditsIn(changes)[0].start;
        StillMatches(n, c, d);
      }
      assert EditsIn(changes)[1..] == EditsIn(changes[1..]);
      StackedBelow(EditsIn(changes[1..]), c.edit.start, |Source(next)|);
      SortedTextFollows(next, changes[1..]);
    }
  }

  /** Substituting all the edits at once in the text of a document gives the text of the document with
      all the tree edits made. */
  lemma TextFollowsTree(n: Node, changes: seq<Change>)
    requires AllMatch(n, changes) && AllApart(changes)
    ensures AllValid(n, changes)
    ensures AllSeparate(EditsIn(changes)) && forall e :: e in EditsIn(changes) ==> Fits(Source(n), e)
    ensures Substituted(Source(n), EditSet(EditsIn(changes)), 0) == Source(ApplyChanges(n, changes))
  {
    EditsInAt(changes);
    forall i, j | 0 <= i < j < |changes|
      ensures Separate(EditsIn(changes)[i], EditsIn(changes)[j])
    {
      assert changes[i] in changes && changes[j] in changes;
      ApartIsSeparate(n, changes[i], changes[j]);
    }
    forall i | 0 <= i < |changes|
      ensures Fits(Source(n), EditsIn(changes)[i])
    {
      assert changes[i] in changes;
      MatchedEdit(n, changes[i]);
    }
    SplicingIsSubstitution(Source(n), EditsIn(changes));
    SortChangesEdits(changes);
    SortChangesApply(n, changes);
    SortedTextFollows(n, SortChanges(changes));
  }

  // ------------------------------------------------- what the changes leave

  lemma {:induction false} ChangesApart(n: Node, changes: seq<Change>, t: Path)
    requires AllValid(n, changes) && AllApart(changes) && Valid(n, t) && ApartFrom(changes, t)
    ensures Valid(ApplyChanges(n, changes), t)
    ensures ViewAt(ApplyChanges(n, changes), t, BASE_SCOPE) == ViewAt(n, t, BASE_SCOPE)
    decreases |changes|
  {
    if changes != [] {
      var c := changes[0];
      assert c in changes;
      RestStaysValid(n, changes);
      ReplaceKeepsView(n, c.path, c.node, t, BASE_SCOPE);
      ChangesApart(ReplaceAt(n, c.path, c.node), changes[1..], t);
    }
  }

  /** Below a changed path stands the new node, in the context the old one had. */
  lemma {:induction false} ChangesBelow(n: Node, changes: seq<Change>, i: nat, r: Path)
    requires AllValid(n, changes) && AllApart(changes) && i < |changes| && Valid(changes[i].node, r)
    ensures Valid(n, changes[i].path) && Valid(ApplyChanges(n, changes), changes[i].path + r)
    ensures At(ApplyChanges(n, changes), changes[i].path + r) == At(changes[i].node, r)
    ensures ScopeAbove(ApplyChanges(n, changes), changes[i].path + r, BASE_SCOPE)
         == ScopeAbove(changes[i].node, r, ScopeAbove(n, changes[i].path, BASE_SCOPE))
    ensures XmlAbove(ApplyChanges(n, changes), changes[i].path + r)
         == XmlAbove(changes[i].node, r) + XmlAbove(n, changes[i].path)
    decreases |changes|
  {
    var c := changes[0];
    assert c in changes && changes[i] in changes;
    RestStaysValid(n, changes);
    var next := ReplaceAt(n, c.path, c.node);
    if i == 0 {
      var t := c.path + r;
      ViewInReplaced(n, c.path, c.node, r, BASE_SCOPE);
      forall d | d in changes[1..]
        ensures Disjoint(d.path, t)
      {
        assert Disjoint(d.path, c.path);
        BelowIsApart(d.path, c.path, r);
      }
      ChangesApart(next, changes[1..], t);
      var v, v' := ViewAt(next, t, BASE_SCOPE), ViewAt(ApplyChanges(n, changes), t, BASE_SCOPE);
      assert v.node == v'.node && v.scope == v'.scope && v.inherited == v'.inherited;
    } else {
      assert changes[1..][i - 1] == changes[i];
      ReplaceKeepsView(n, c.path, c.node, changes[i].path, BASE_SCOPE);
      var v, v' := ViewAt(n, changes[i].path, BASE_SCOPE), ViewAt(next, changes[i].path, BASE_SCOPE);
      assert v.scope == v'.scope && v.inherited == v'.inherited;
      ChangesBelow(next, changes[1..], i - 1, r);
    }
  }

  lemma BelowIsApart(p: Path, q: Path, r: Path)
    requires Disjoint(p, q)
    ensures Disjoint(p, q + r)
  {
    assert (q + r)[..|q|] == q;
    assert |p| <= |q| ==> (q + r)[..|p|] == q[..|p|];
  }
}
