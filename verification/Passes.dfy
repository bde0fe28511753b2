/**
 The passes over the text: inserting the skeletons, and filling placeholders in
 the range of every signature at once.

 Each pass is a simultaneous substitution on the text of one working document,
 and its result is the text of the next working document.
 */
module Passes {
  import opened Strings
  import opened Splicing
  import opened Placeholders
  import opened Names
  import opened SignatureXml
  import opened SignatureFilling
  import opened Planner

  // ---------------------------------------------------- placeholders differ

  lemma HoleShape(y: string, k: nat)
    requires '@' !in y && k < |y| + 4
    ensures |Hole(y)| == |y| + 4 && (Hole(y)[k] == '@' <==> k < 2 || k >= |y| + 2)
    ensures 2 <= k < |y| + 2 ==> Hole(y)[k] == y[k - 2]
  {
    if 2 <= k < |y| + 2 {
      assert Hole(y)[k] == ("@@" + y)[k] == y[k - 2];
      assert y[k - 2] in y;
    }
  }

  lemma SameCharacter(h: string, g: string, i: nat, k: nat)
    requires i <= |g| && h <= g[i..] && k < |h|
    ensures i + k < |g| && h[k] == g[i + k]
  {
    assert g[i..][k] == g[i + k];
  }

  /** An occurrence has to start where the delimiters are, and then reaches from end to end. */
  lemma OccursWhole(x: string, y: string, i: nat)
    requires HoleName(x) && HoleName(y) && i <= |Hole(y)| && Hole(x) <= Hole(y)[i..]
    ensures i == 0 && |x| == |y|
  {
    var h, g := Hole(x), Hole(y);
    HoleShape(x, 0);
    HoleShape(x, 1);
    HoleShape(x, |x| + 2);
    HoleShape(x, |x| + 3);
    SameCharacter(h, g, i, |x| + 3);
    SameCharacter(h, g, i, |x| + 2);
    SameCharacter(h, g, i, 0);
    SameCharacter(h, g, i, 1);
    hide Hole, HoleName;
    HoleShape(y, i);
    HoleShape(y, i + 1);
    HoleShape(y, i + |x| + 2);
  }

  /** One placeholder occurs in another only when they are the same. */
  lemma HolesDoNotNest(x: string, y: string)
    requires HoleName(x) && HoleName(y) && Contains(Hole(y), Hole(x))
    ensures x == y
  {
    var i :| 0 <= i <= |Hole(y)| && Hole(x) <= Hole(y)[i..];
    OccursWhole(x, y, i);
    forall k | 0 <= k < |x|
      ensures x[k] == y[k]
    {
      HoleShape(x, k + 2);
      HoleShape(y, k + 2);
      SameCharacter(Hole(x), Hole(y), 0, k + 2);
    }
  }

  predicate HasName(h: string, name: string) {
    HoleName(name) && h == Hole(name)
  }

  lemma NamedHoles(id: string)
    requires IsPlain(id)
    ensures HasName(DigestHole(id), MARK + "digest:" + id) && HasName(ValueHole(id), MARK + "value:" + id)
    ensures HasName(TokenHole(id), MARK + "timestamp:" + id)
    ensures OurHole(DigestHole(id)) && OurHole(ValueHole(id)) && OurHole(TokenHole(id))
  {
    PlainHoleName(MARK + "digest:", id);
    PlainHoleName(MARK + "value:", id);
    PlainHoleName(MARK + "timestamp:", id);
    Begins("digest:" + id);
    Begins("value:" + id);
    Begins("timestamp:" + id);
    assert MARK + "digest:" + id == MARK + ("digest:" + id);
    assert MARK + "value:" + id == MARK + ("value:" + id);
    assert MARK + "timestamp:" + id == MARK + ("timestamp:" + id);
  }

  lemma Begins(s: string)
    ensures "@@" + MARK <= Hole(MARK + s)
  {
    assert Hole(MARK + s) == "@@" + MARK + (s + "@@");
  }

  lemma PlainHoleName(front: string, id: string)
    requires IsPlain(front) && IsPlain(id) && front != ""
    ensures HoleName(front + id) && IsHole(Hole(front + id))
  {
    forall c | c in front + id
      ensures PlainChar(c)
    {
      assert c in front || c in id;
    }
    HolesAreHoles(front + id);
  }

  lemma DifferentHoles(h: string, x: string, g: string, y: string)
    requires HasName(h, x) && HasName(g, y) && x != y
    ensures h != g && !Contains(g, h)
  {
    if Contains(g, h) { HolesDoNotNest(x, y); }
    if h == g { SelfContained(h); }
  }

  lemma KindsDiffer(a: string, b: string)
    ensures MARK + "digest:" + a != MARK + "value:" + b
    ensures MARK + "digest:" + a != MARK + "timestamp:" + b
    ensures MARK + "value:" + a != MARK + "timestamp:" + b
  {
    var d, v, t := MARK + "digest:" + a, MARK + "value:" + b, MARK + "timestamp:" + b;
    assert d[|MARK|] == (MARK + "digest:")[|MARK|] == 'd';
    assert v[|MARK|] == (MARK + "value:")[|MARK|] == 'v';
    assert t[|MARK|] == (MARK + "timestamp:")[|MARK|] == 't';
    assert (MARK + "value:" + a)[|MARK|] == (MARK + "value:")[|MARK|] == 'v';
  }

  lemma DigestHolesDiffer(a: string, b: string)
    requires IsPlain(a) && IsPlain(b) && a != b
    ensures DigestHole(a) != DigestHole(b) && !Contains(DigestHole(b), DigestHole(a))
  {
    NamedHoles(a);
    NamedHoles(b);
    assert (MARK + "digest:" + a)[|MARK + "digest:"|..] == a && (MARK + "digest:" + b)[|MARK + "digest:"|..] == b;
    DifferentHoles(DigestHole(a), MARK + "digest:" + a, DigestHole(b), MARK + "digest:" + b);
  }

  lemma KindHolesDiffer(a: string, b: string)
    requires IsPlain(a) && IsPlain(b)
    ensures !Contains(ValueHole(b), DigestHole(a)) && !Contains(TokenHole(b), DigestHole(a))
    ensures !Contains(TokenHole(b), ValueHole(a))
  {
    NamedHoles(a);
    NamedHoles(b);
    KindsDiffer(a, b);
    DifferentHoles(DigestHole(a), MARK + "digest:" + a, ValueHole(b), MARK + "value:" + b);
    DifferentHoles(DigestHole(a), MARK + "digest:" + a, TokenHole(b), MARK + "timestamp:" + b);
    DifferentHoles(ValueHole(a), MARK + "value:" + a, TokenHole(b), MARK + "timestamp:" + b);
  }

  // --------------------------------------------------------- pass by pass

  function DigestValues(refs: seq<PlannedReference>, ds: seq<string>): seq<Substitution>
    requires |refs| == |ds|
  {
    if refs == [] then [] else [Substitution(DigestHole(refs[0].id), ds[0])] + DigestValues(refs[1..], ds[1..])
  }

  predicate DistinctIds(refs: seq<PlannedReference>) {
    forall i, j :: 0 <= i < j < |refs| ==> refs[i].id != refs[j].id
  }

  predicate NoAts(ds: seq<string>) {
    forall d :: d in ds ==> NoAt(d)
  }

  lemma {:induction false} SwapConcat(a: seq<string>, b: seq<string>, h: string, v: string)
    ensures SwapAll(a + b, h, v) == SwapAll(a, h, v) + SwapAll(b, h, v)
  {
    if a == [] {
      assert a + b == b;
    } else {
      assert (a + b)[1..] == a[1..] + b;
      SwapConcat(a[1..], b, h, v);
    }
  }

  lemma {:induction false} SwapNone(a: seq<string>, h: string, v: string)
    requires h !in a
    ensures SwapAll(a, h, v) == a
  {
    if a != [] { SwapNone(a[1..], h, v); }
  }

  lemma ReferenceIdPlain(r: PlannedReference)
    requires TidyReference(r)
    ensures IsPlain(r.id)
  {}

  lemma OtherDigests(refs: seq<PlannedReference>)
    requires refs != [] && DistinctIds(refs) && TidyReferences(refs)
    ensures DigestHole(refs[0].id) !in DigestHoles(refs[1..])
  {
    hide IsPlain, TidyReference, Contains, DigestHole, DigestHoles;
    HoleCount(refs[1..]);
    ReferenceIdPlain(refs[0]);
    forall j | 0 <= j < |refs[1..]|
      ensures DigestHoles(refs[1..])[j] != DigestHole(refs[0].id)
    {
      assert refs[1..][j] == refs[j + 1] && refs[j + 1] in refs;
      ReferenceIdPlain(refs[j + 1]);
      DigestHolesDiffer(refs[0].id, refs[j + 1].id);
    }
  }

  lemma SwapFirst(h: string, rest: seq<string>, d: string)
    requires h !in rest
    ensures SwapAll([h] + rest, h, d) == [d] + rest
  {
    assert ([h] + rest)[1..] == rest;
    SwapNone(rest, h, d);
  }

  lemma OneDigest(done: seq<string>, refs: seq<PlannedReference>, d: string)
    requires refs != [] && DistinctIds(refs) && TidyReferences(refs) && NoAts(done)
    ensures SwapAll(done + DigestHoles(refs), DigestHole(refs[0].id), d) == (done + [d]) + DigestHoles(refs[1..])
  {
    var h, rest := DigestHole(refs[0].id), DigestHoles(refs[1..]);
    assert h[0] == '@';
    assert DigestHoles(refs) == [h] + rest;
    hide SwapAll, DigestHole, DigestHoles, TidyReferences, DistinctIds;
    SwapNone(done, h, d);
    OtherDigests(refs);
    SwapConcat(done, [h] + rest, h, d);
    SwapFirst(h, rest, d);
    assert done + ([d] + rest) == (done + [d]) + rest;
  }

  lemma {:induction false} DigestsSwap(done: seq<string>, refs: seq<PlannedReference>, ds: seq<string>, value: string, token: string)
    requires |refs| == |ds| && DistinctIds(refs) && TidyReferences(refs) && NoAts(done) && NoAts(ds)
    requires forall r :: r in refs ==> DigestHole(r.id) != value && DigestHole(r.id) != token
    ensures SwapMany(Filling(done + DigestHoles(refs), value, token), DigestValues(refs, ds)) == Filling(done + ds, value, token)
    decreases |refs|
  {
    if refs == [] {
      assert done + [] == done && ds == [];
    } else {
      assert refs[0] in refs && ds[0] in ds;
      OneDigest(done, refs, ds[0]);
      var f := Filling(done + DigestHoles(refs), value, token);
      assert SwapIn(f, DigestHole(refs[0].id), ds[0]) == Filling((done + [ds[0]]) + DigestHoles(refs[1..]), value, token);
      forall i, j | 0 <= i < j < |refs[1..]|
        ensures refs[1..][i].id != refs[1..][j].id
      {
        assert refs[i + 1].id != refs[j + 1].id;
      }
      assert forall r :: r in refs[1..] ==> r in refs;
      DigestsSwap(done + [ds[0]], refs[1..], ds[1..], value, token);
      assert done + [ds[0]] + ds[1..] == done + ds;
    }
  }

  /** A plan as the passes need it. */
  predicate TidyPlan(plan: Plan) {
    IsPlain(plan.id) && TidyReferences(plan.references) && DistinctIds(plan.references)
  }

  /** What one pass puts into one signature, and the filling it leads from and to. */
  predicate Advances(plan: Plan, values: seq<Substitution>, f: Filling, next: Filling) {
    && |f.digests| == |plan.references| == |next.digests|
    && ProperValues(values)
    && (forall s :: s in values ==> OurHole(s.placeholder) && Slots(f, s.placeholder))
    && SwapMany(f, values) == next
  }

  lemma {:induction false} DigestValuesMembers(refs: seq<PlannedReference>, ds: seq<string>, s: Substitution)
    requires |refs| == |ds| && s in DigestValues(refs, ds)
    ensures exists j :: 0 <= j < |refs| && s == Substitution(DigestHole(refs[j].id), ds[j])
  {
    if s == DigestValues(refs, ds)[0] {
      assert s == Substitution(DigestHole(refs[0].id), ds[0]);
    } else {
      assert DigestValues(refs, ds)[1..] == DigestValues(refs[1..], ds[1..]);
      DigestValuesMembers(refs[1..], ds[1..], s);
      var j :| 0 <= j < |refs[1..]| && s == Substitution(DigestHole(refs[1..][j].id), ds[1..][j]);
      assert refs[1..][j] == refs[j + 1] && ds[1..][j] == ds[j + 1];
    }
  }

  lemma DigestsSwapped(plan: Plan, ds: seq<string>)
    requires TidyPlan(plan) && |ds| == |plan.references| && NoAts(ds)
    ensures var f := Unfilled(plan.id, plan.references);
            SwapMany(f, DigestValues(plan.references, ds)) == f.(digests := ds)
  {
    hide IsPlain, TidyReference, Contains, ValueHole, TokenHole, DigestHole, DigestHoles, SwapMany, DigestValues;
    var refs := plan.references;
    var f := Unfilled(plan.id, refs);
    forall r | r in refs
      ensures DigestHole(r.id) != f.value && DigestHole(r.id) != f.token
    {
      ReferenceIdPlain(r);
      KindHolesDiffer(r.id, plan.id);
      SelfContained(f.value);
      SelfContained(f.token);
    }
    assert NoAts([]);
    DigestsSwap([], refs, ds, f.value, f.token);
    assert [] + f.digests == f.digests && [] + ds == ds;
  }

  lemma DigestValueFits(plan: Plan, ds: seq<string>, s: Substitution)
    requires TidyPlan(plan) && |ds| == |plan.references| && NoAts(ds) && s in DigestValues(plan.references, ds)
    ensures OurHole(s.placeholder) && IsHole(s.placeholder) && s.placeholder != "" && NoAt(s.value)
    ensures Slots(Unfilled(plan.id, plan.references), s.placeholder)
  {
    hide TidyPlan, Slots, DigestHole, DigestValues, Unfilled;
    DigestValuesMembers(plan.references, ds, s);
    var j :| 0 <= j < |plan.references| && s == Substitution(DigestHole(plan.references[j].id), ds[j]);
    assert ds[j] in ds;
    DigestSlots(plan, j);
    HoleIsText(s.placeholder);
  }

  /** Pass one fills the digests. */
  lemma DigestPass(plan: Plan, ds: seq<string>)
    requires TidyPlan(plan) && |ds| == |plan.references| && NoAts(ds)
    ensures var f := Unfilled(plan.id, plan.references);
            Advances(plan, DigestValues(plan.references, ds), f, f.(digests := ds))
  {
    hide TidyPlan, Slots, OurHole, DigestValues, Unfilled, SwapMany, IsHole, NoAts;
    DigestsSwapped(plan, ds);
    forall s | s in DigestValues(plan.references, ds)
      ensures OurHole(s.placeholder) && IsHole(s.placeholder) && s.placeholder != "" && NoAt(s.value)
      ensures Slots(Unfilled(plan.id, plan.references), s.placeholder)
    {
      DigestValueFits(plan, ds, s);
    }
  }

  lemma HoleIsText(h: string)
    requires OurHole(h)
    ensures IsHole(h) && h != ""
  {}

  lemma DigestSlots(plan: Plan, j: nat)
    requires TidyPlan(plan) && j < |plan.references|
    ensures OurHole(DigestHole(plan.references[j].id))
    ensures Slots(Unfilled(plan.id, plan.references), DigestHole(plan.references[j].id))
  {
    var refs := plan.references;
    var f := Unfilled(plan.id, refs);
    HoleCount(refs);
    assert refs[j] in refs;
    NamedHoles(refs[j].id);
    KindHolesDiffer(refs[j].id, plan.id);
    forall d | d in f.digests
      ensures Slot(d, DigestHole(refs[j].id))
    {
      var i :| 0 <= i < |f.digests| && f.digests[i] == d;
      assert refs[i] in refs;
      if i != j { DigestHolesDiffer(refs[j].id, refs[i].id); }
    }
  }

  /** Pass two fills the signature value. */
  lemma ValuePass(plan: Plan, ds: seq<string>, value: string)
    requires TidyPlan(plan) && |ds| == |plan.references| && NoAts(ds) && NoAt(value)
    ensures var f := Unfilled(plan.id, plan.references).(digests := ds);
            Advances(plan, [Substitution(ValueHole(plan.id), value)], f, f.(value := value))
  {
    var h := ValueHole(plan.id);
    var f := Unfilled(plan.id, plan.references).(digests := ds);
    NamedHoles(plan.id);
    KindHolesDiffer(plan.id, plan.id);
    NothingToSwap(ds, h, value);
    SelfContained(f.token);
    assert [Substitution(h, value)][1..] == [];
    forall s | s in [Substitution(h, value)]
      ensures s == Substitution(h, value)
    {}
  }

  /** Pass three fills the token. */
  lemma TokenPass(plan: Plan, ds: seq<string>, value: string, token: string)
    requires TidyPlan(plan) && |ds| == |plan.references| && NoAts(ds) && NoAt(value) && NoAt(token)
    ensures var f := Filling(ds, value, TokenHole(plan.id));
            Advances(plan, [Substitution(TokenHole(plan.id), token)], f, Filling(ds, value, token))
  {
    var h := TokenHole(plan.id);
    NamedHoles(plan.id);
    NothingToSwap(ds, h, token);
    PlainInert(value, h);
    assert h[0] == '@';
    assert [Substitution(h, token)][1..] == [];
    forall s | s in [Substitution(h, token)]
      ensures s == Substitution(h, token)
    {}
  }

  lemma NothingToSwap(ds: seq<string>, h: string, v: string)
    requires NoAts(ds) && OurHole(h)
    ensures SwapAll(ds, h, v) == ds && forall d :: d in ds ==> !Contains(d, h)
  {
    assert h[0] == '@';
    SwapNone(ds, h, v);
    forall d | d in ds
      ensures !Contains(d, h)
    {
      PlainInert(d, h);
    }
  }
}
