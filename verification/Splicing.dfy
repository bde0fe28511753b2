/**
 Editing the working text in place.

 `InsertElements` and `FillIn` sort their edits by descending offset and splice
 them one after the other into the text they are changing. `Substituted` is the
 reference: one left-to-right reading of the original text, every offset the
 original's, that knows nothing of any order on the edits. For pairwise separate
 ranges in any order the two are the same text.
 */
module Splicing {
  import opened Strings
  import opened SourceText

  datatype Edit = Edit(start: nat, end: nat, text: string)

  predicate Fits(text: string, e: Edit) {
    e.start <= e.end <= |text|
  }

  predicate Separate(a: Edit, b: Edit) {
    a.start != b.start && (a.end <= b.start || b.end <= a.start)
  }

  predicate AllSeparate(edits: seq<Edit>) {
    forall i, j :: 0 <= i < j < |edits| ==> Separate(edits[i], edits[j])
  }

  // -------------------------------------------------------------- reference

  predicate Starts(edits: set<Edit>, i: nat) {
    exists e :: e in edits && e.start == i
  }

  ghost function EditAt(edits: set<Edit>, i: nat): Edit
    requires Starts(edits, i)
  {
    var e :| e in edits && e.start == i;
    e
  }

  /** The original text from offset `i` on, each edited range replaced. */
  ghost function Substituted(text: string, edits: set<Edit>, i: nat): string
    requires i <= |text| && forall e :: e in edits ==> Fits(text, e)
    decreases |text| - i, 1
  {
    if !Starts(edits, i) then Kept(text, edits, i)
    else
      var e := EditAt(edits, i);
      assert Fits(text, e);
      e.text + (if e.end == i then Kept(text, edits, i) else Substituted(text, edits, e.end))
  }

  /** The character at `i` survives, and reading goes on behind it. */
  ghost function Kept(text: string, edits: set<Edit>, i: nat): string
    requires i <= |text| && forall e :: e in edits ==> Fits(text, e)
    decreases |text| - i, 0
  {
    if i == |text| then "" else [text[i]] + Substituted(text, edits, i + 1)
  }

  ghost function EditSet(edits: seq<Edit>): set<Edit> {
    set e | e in edits
  }

  // ------------------------------------------------------------- in sequence

  /** Stable insertion into a list sorted by descending start. */
  function InsertByStart(sorted: seq<Edit>, e: Edit): seq<Edit> {
    if sorted == [] || sorted[0].start < e.start then [e] + sorted
    else [sorted[0]] + InsertByStart(sorted[1..], e)
  }

  function SortDescending(edits: seq<Edit>): seq<Edit> {
    if edits == [] then [] else InsertByStart(SortDescending(edits[..|edits| - 1]), edits[|edits| - 1])
  }

  /** Descending, and each edit ends before the previous one starts. */
  predicate Stacked(edits: seq<Edit>, hi: nat) {
    edits == [] || (edits[0].start <= edits[0].end <= hi && Stacked(edits[1..], edits[0].start)
                    && (|edits| > 1 ==> edits[1].start < edits[0].start))
  }

  function ApplyInOrder(text: string, edits: seq<Edit>): string
    requires Stacked(edits, |text|)
    decreases |edits|
  {
    if edits == [] then text
    else
      var e := edits[0];
      var next := Splice(text, e.start, e.end, e.text);
      StackedBelow(edits[1..], e.start, |next|);
      ApplyInOrder(next, edits[1..])
  }

  lemma StackedBelow(edits: seq<Edit>, hi: nat, hi': nat)
    requires Stacked(edits, hi) && hi <= hi'
    ensures Stacked(edits, hi')
  {}

  lemma {:induction false} InsertMembers(sorted: seq<Edit>, e: Edit)
    ensures forall x :: x in InsertByStart(sorted, e) <==> x == e || x in sorted
  {
    if sorted != [] && sorted[0].start >= e.start {
      InsertMembers(sorted[1..], e);
      assert sorted == [sorted[0]] + sorted[1..];
    }
  }

  lemma {:induction false} InsertStacks(sorted: seq<Edit>, e: Edit, hi: nat)
    requires Stacked(sorted, hi) && e.start <= e.end <= hi
    requires forall x :: x in sorted ==> Separate(x, e)
    ensures Stacked(InsertByStart(sorted, e), hi)
  {
    if sorted != [] {
      var first := sorted[0];
      assert first in sorted;
      if first.start < e.start {
        StackedBelow(sorted, hi, hi);
        assert ([e] + sorted)[1..] == sorted;
        assert Stacked(sorted, e.start);
      } else {
        assert e.end <= first.start || first.end <= e.start;
        assert e.start < first.start && e.end <= first.start;
        InsertStacks(sorted[1..], e, first.start);
        var rest := InsertByStart(sorted[1..], e);
        assert rest[0] == e || rest[0] == sorted[1];
        assert ([first] + rest)[1..] == rest;
      }
    }
  }

  lemma {:induction false} SortStacks(text: string, edits: seq<Edit>)
    requires AllSeparate(edits) && forall e :: e in edits ==> Fits(text, e)
    ensures Stacked(SortDescending(edits), |text|)
    ensures forall x :: x in SortDescending(edits) <==> x in edits
  {
    if edits != [] {
      var most, last := edits[..|edits| - 1], edits[|edits| - 1];
      assert edits == most + [last];
      SortStacks(text, most);
      forall x | x in SortDescending(most)
        ensures Separate(x, last)
      {
        var i :| 0 <= i < |most| && most[i] == x;
        assert Separate(edits[i], edits[|edits| - 1]);
      }
      assert last in edits;
      InsertStacks(SortDescending(most), last, |text|);
      InsertMembers(SortDescending(most), last);
    }
  }

  // ------------------------------------------------------------- equivalence

  /** The text up to `hi` with a stacked list of edits woven in. */
  function Woven(text: string, hi: nat, edits: seq<Edit>): string
    requires hi <= |text| && Stacked(edits, hi)
    decreases |edits|
  {
    if edits == [] then text[..hi]
    else Woven(text, edits[0].start, edits[1..]) + edits[0].text + text[edits[0].end..hi]
  }

  /** Weaving reads only what is below its bound; the rest of the text follows. */
  lemma WovenPrefix(text: string, hi: nat, other: string, hi': nat, edits: seq<Edit>)
    requires hi <= |text| && hi <= hi' <= |other| && other[..hi] == text[..hi] && Stacked(edits, hi)
    ensures Stacked(edits, hi')
    ensures Woven(other, hi', edits) == Woven(text, hi, edits) + other[hi..hi']
    decreases |edits|
  {
    if edits != [] {
      var e := edits[0];
      assert other[..e.start] == other[..hi][..e.start] == text[..e.start];
      WovenPrefix(text, e.start, other, e.start, edits[1..]);
      assert other[e.start..e.start] == "";
      assert other[e.end..hi] == other[..hi][e.end..] == text[e.end..hi];
      assert other[e.end..hi'] == text[e.end..hi] + other[hi..hi'];
      Regroup(Woven(text, e.start, edits[1..]) + e.text, text[e.end..hi], other[hi..hi']);
    } else {
      assert other[..hi'] == other[..hi] + other[hi..hi'];
    }
  }

  lemma {:induction false} InOrderIsWoven(text: string, edits: seq<Edit>)
    requires Stacked(edits, |text|)
    ensures ApplyInOrder(text, edits) == Woven(text, |text|, edits)
    decreases |edits|
  {
    if edits != [] {
      var e := edits[0];
      var next := Splice(text, e.start, e.end, e.text);
      StackedBelow(edits[1..], e.start, |next|);
      InOrderIsWoven(next, edits[1..]);
      assert next[..e.start] == text[..e.start];
      WovenPrefix(text, e.start, next, |next|, edits[1..]);
      assert next[e.start..] == e.text + text[e.end..];
      Regroup(Woven(text, e.start, edits[1..]), e.text, text[e.end..]);
    } else {
      assert text[..|text|] == text;
    }
  }

  lemma {:induction false} NoMoreEdits(text: string, edits: set<Edit>, i: nat)
    requires i <= |text| && forall e :: e in edits ==> Fits(text, e) && e.start < i
    ensures Substituted(text, edits, i) == text[i..]
    decreases |text| - i
  {
    if i < |text| {
      NoMoreEdits(text, edits, i + 1);
      assert text[i..] == [text[i]] + text[i + 1..];
    }
  }

  /** No two edits start at the same offset. */
  predicate OnePerStart(edits: set<Edit>) {
    forall a, b :: a in edits && b in edits && a.start == b.start ==> a == b
  }

  /** Edits that all lie before `hi`. */
  predicate AllBefore(edits: set<Edit>, hi: nat) {
    forall e :: e in edits ==> e.start <= e.end <= hi && e.start < hi
  }

  lemma LastEditReached(text: string, edits: set<Edit>, last: Edit)
    requires Fits(text, last) && AllBefore(edits, last.start)
    ensures Substituted(text, edits + {last}, last.start) == last.text + text[last.end..]
    ensures Substituted(text[..last.start], edits, last.start) == ""
  {
    var all := edits + {last};
    var i := last.start;
    assert last in all && EditAt(all, i) == last;
    if last.end > i {
      NoMoreEdits(text, all, last.end);
    } else if i < |text| {
      NoMoreEdits(text, all, i + 1);
      assert text[i..] == [text[i]] + text[i + 1..];
    }
  }

  /** The last edit, taken off the reference reading. */
  lemma {:induction false} LastEdit(text: string, edits: set<Edit>, last: Edit, i: nat)
    requires Fits(text, last) && i <= last.start
    requires AllBefore(edits, last.start) && OnePerStart(edits)
    ensures Substituted(text, edits + {last}, i)
         == Substituted(text[..last.start], edits, i) + (last.text + text[last.end..])
    decreases last.start - i
  {
    var below := text[..last.start];
    var tail := last.text + text[last.end..];
    if i == last.start {
      LastEditReached(text, edits, last);
      assert "" + tail == tail;
    } else {
      var all := edits + {last};
      LastEdit(text, edits, last, i + 1);
      KeptSplit(text, all, below, edits, i, tail);
      assert Starts(edits, i) <==> Starts(all, i) by {
        if Starts(edits, i) { assert EditAt(edits, i) in all; }
      }
      if Starts(edits, i) {
        var e := EditAt(edits, i);
        assert e in all && EditAt(all, i) in edits && EditAt(all, i) == e;
        if e.end > i {
          LastEdit(text, edits, last, e.end);
          Regroup(e.text, Substituted(below, edits, e.end), tail);
        } else {
          Regroup(e.text, Kept(below, edits, i), tail);
        }
      }
    }
  }

  lemma KeptSplit(text: string, all: set<Edit>, below: string, edits: set<Edit>, i: nat, tail: string)
    requires i < |below| <= |text| && below[i] == text[i]
    requires forall e :: e in all ==> Fits(text, e)
    requires forall e :: e in edits ==> Fits(below, e)
    requires Substituted(text, all, i + 1) == Substituted(below, edits, i + 1) + tail
    ensures Kept(text, all, i) == Kept(below, edits, i) + tail
  {
    Regroup([text[i]], Substituted(below, edits, i + 1), tail);
  }

  lemma {:induction false} StackedFits(edits: seq<Edit>, hi: nat)
    requires Stacked(edits, hi)
    ensures forall e :: e in edits ==> e.start <= e.end <= hi
    ensures forall i, j :: 0 <= i < j < |edits| ==> edits[j].start < edits[i].start
    decreases |edits|
  {
    if edits != [] {
      StackedFits(edits[1..], edits[0].start);
      assert edits == [edits[0]] + edits[1..];
      if |edits| > 1 {
        forall j | 1 <= j < |edits|
          ensures edits[j].start < edits[0].start
        {
          if j > 1 { assert edits[1..][j - 1].start < edits[1..][0].start; }
        }
      }
    }
  }

  lemma {:induction false} WovenIsSubstituted(text: string, edits: seq<Edit>)
    requires Stacked(edits, |text|)
    ensures forall e :: e in edits ==> Fits(text, e)
    ensures Woven(text, |text|, edits) == Substituted(text, EditSet(edits), 0)
    decreases |edits|
  {
    StackedFits(edits, |text|);
    if edits == [] {
      NoMoreEdits(text, {}, 0);
      assert text[..|text|] == text == text[0..];
      assert EditSet(edits) == {};
    } else {
      var last, rest := edits[0], edits[1..];
      var below := text[..last.start];
      WovenIsSubstituted(below, rest);
      assert below[..last.start] == below;
      WovenPrefix(below, last.start, text, last.start, rest);
      assert text[last.start..last.start] == "";
      StackedSet(edits, |text|);
      LastEdit(text, EditSet(rest), last, 0);
      Regroup(Woven(below, last.start, rest), last.text, text[last.end..]);
    }
  }

  lemma StackedSet(edits: seq<Edit>, hi: nat)
    requires Stacked(edits, hi) && edits != []
    ensures EditSet(edits) == EditSet(edits[1..]) + {edits[0]}
    ensures AllBefore(EditSet(edits[1..]), edits[0].start) && OnePerStart(EditSet(edits[1..]))
  {
    var rest := edits[1..];
    assert edits == [edits[0]] + rest;
    StackedFits(rest, edits[0].start);
    StackedStarts(rest, edits[0].start);
    StackedStrictly(edits, hi);
  }

  lemma StackedStarts(edits: seq<Edit>, hi: nat)
    requires Stacked(edits, hi)
    ensures OnePerStart(EditSet(edits))
  {
    StackedFits(edits, hi);
    forall a, b | a in EditSet(edits) && b in EditSet(edits) && a.start == b.start
      ensures a == b
    {
      var i :| 0 <= i < |edits| && edits[i] == a;
      var j :| 0 <= j < |edits| && edits[j] == b;
    }
  }

  lemma StackedStrictly(edits: seq<Edit>, hi: nat)
    requires Stacked(edits, hi) && edits != []
    ensures forall e :: e in edits[1..] ==> e.start < edits[0].start
  {
    StackedFits(edits, hi);
    forall e | e in edits[1..]
      ensures e.start < edits[0].start
    {
      var j :| 0 <= j < |edits[1..]| && edits[1..][j] == e;
      assert edits[j + 1].start < edits[0].start;
    }
  }

  /** In-place splicing in descending order is simultaneous substitution on original offsets. */
  lemma SplicingIsSubstitution(text: string, edits: seq<Edit>)
    requires AllSeparate(edits) && forall e :: e in edits ==> Fits(text, e)
    ensures Stacked(SortDescending(edits), |text|)
    ensures ApplyInOrder(text, SortDescending(edits)) == Substituted(text, EditSet(edits), 0)
  {
    SortStacks(text, edits);
    InOrderIsWoven(text, SortDescending(edits));
    WovenIsSubstituted(text, SortDescending(edits));
    assert EditSet(SortDescending(edits)) == EditSet(edits);
  }

  // ---------------------------------------------------------- the two editors

  /** A placeholder and what replaces it. */
  datatype Substitution = Substitution(placeholder: string, value: string)

  /** Substitutions for one stretch of the text. */
  datatype FragmentEdit = FragmentEdit(start: nat, end: nat, values: seq<Substitution>)

  function FillFragment(fragment: string, values: seq<Substitution>): string
    requires forall v :: v in values ==> v.placeholder != ""
    decreases |values|
  {
    if values == [] then fragment
    else FillFragment(Replace(fragment, values[0].placeholder, values[0].value), values[1..])
  }

  predicate UsableEdit(text: string, e: FragmentEdit) {
    e.start <= e.end <= |text| && forall v :: v in e.values ==> v.placeholder != ""
  }

  /** The splice one fragment edit comes to, read off the original text. */
  function EditOf(text: string, e: FragmentEdit): Edit
    requires UsableEdit(text, e)
  {
    Edit(e.start, e.end, FillFragment(text[e.start..e.end], e.values))
  }

  function EditsOf(text: string, edits: seq<FragmentEdit>): seq<Edit>
    requires forall e :: e in edits ==> UsableEdit(text, e)
  {
    if edits == [] then [] else [EditOf(text, edits[0])] + EditsOf(text, edits[1..])
  }

  function InsertFragment(sorted: seq<FragmentEdit>, e: FragmentEdit): seq<FragmentEdit> {
    if sorted == [] || sorted[0].start < e.start then [e] + sorted
    else [sorted[0]] + InsertFragment(sorted[1..], e)
  }

  function SortFragments(edits: seq<FragmentEdit>): seq<FragmentEdit> {
    if edits == [] then [] else InsertFragment(SortFragments(edits[..|edits| - 1]), edits[|edits| - 1])
  }

  lemma {:induction false} EditsOfConcat(text: string, a: seq<FragmentEdit>, b: seq<FragmentEdit>)
    requires forall e :: e in a + b ==> UsableEdit(text, e)
    ensures forall e :: e in a ==> UsableEdit(text, e)
    ensures forall e :: e in b ==> UsableEdit(text, e)
    ensures EditsOf(text, a + b) == EditsOf(text, a) + EditsOf(text, b)
  {
    assert forall e :: e in a || e in b ==> e in a + b;
    if a == [] {
      assert a + b == b;
    } else {
      assert (a + b)[1..] == a[1..] + b;
      EditsOfConcat(text, a[1..], b);
    }
  }

  lemma {:induction false} InsertCommutes(text: string, sorted: seq<FragmentEdit>, e: FragmentEdit)
    requires UsableEdit(text, e) && forall x :: x in sorted ==> UsableEdit(text, x)
    ensures forall x :: x in InsertFragment(sorted, e) ==> UsableEdit(text, x)
    ensures EditsOf(text, InsertFragment(sorted, e)) == InsertByStart(EditsOf(text, sorted), EditOf(text, e))
  {
    if sorted != [] {
      assert sorted == [sorted[0]] + sorted[1..];
      if sorted[0].start < e.start {
        assert ([e] + sorted)[1..] == sorted;
      } else {
        InsertCommutes(text, sorted[1..], e);
        assert ([sorted[0]] + InsertFragment(sorted[1..], e))[1..] == InsertFragment(sorted[1..], e);
      }
    }
  }

  lemma {:induction false} SortCommutes(text: string, edits: seq<FragmentEdit>)
    requires forall e :: e in edits ==> UsableEdit(text, e)
    ensures forall e :: e in SortFragments(edits) ==> UsableEdit(text, e)
    ensures EditsOf(text, SortFragments(edits)) == SortDescending(EditsOf(text, edits))
  {
    if edits != [] {
      var most, last := edits[..|edits| - 1], edits[|edits| - 1];
      assert edits == most + [last];
      SortCommutes(text, most);
      EditsOfConcat(text, most, [last]);
      assert EditsOf(text, [last]) == [EditOf(text, last)];
      InsertCommutes(text, SortFragments(most), last);
      var all := EditsOf(text, edits);
      assert all[..|all| - 1] == EditsOf(text, most) && all[|all| - 1] == EditOf(text, last);
    }
  }

  /** Insert every element at its offset, last offset first. */
  method InsertElements(text: string, insertions: seq<Edit>) returns (r: string)
    requires AllSeparate(insertions) && forall e :: e in insertions ==> Fits(text, e) && e.start == e.end
    ensures r == Substituted(text, EditSet(insertions), 0)
  {
    var ordered := SortDescending(insertions);
    SplicingIsSubstitution(text, insertions);
    SortStacks(text, insertions);
    r := text;
    var i := 0;
    while i < |ordered|
      invariant i <= |ordered| && Stacked(ordered[i..], |r|)
      invariant ApplyInOrder(r, ordered[i..]) == ApplyInOrder(text, ordered)
    {
      assert ordered[i..][1..] == ordered[i + 1..];
      assert ordered[i] in ordered;
      StackedBelow(ordered[i + 1..], ordered[i].start, |r| + |ordered[i].text|);
      r := r[..ordered[i].start] + ordered[i].text + r[ordered[i].start..];
      i := i + 1;
    }
  }

  method ReplaceEach(text: string, values: seq<Substitution>) returns (fragment: string)
    requires forall v :: v in values ==> v.placeholder != ""
    ensures fragment == FillFragment(text, values)
  {
    fragment := text;
    var j := 0;
    while j < |values|
      invariant j <= |values|
      invariant FillFragment(fragment, values[j..]) == FillFragment(text, values)
    {
      assert values[j..][1..] == values[j + 1..] && values[j] in values;
      fragment := Replace(fragment, values[j].placeholder, values[j].value);
      j := j + 1;
    }
    assert values[j..] == [];
  }

  /** What one iteration keeps: the text below `bound` is still the original, so the next fragment
      reads as it did, and the edits left lead to the same text. */
  ghost predicate Filling(text: string, edits: seq<FragmentEdit>, r: string, bound: nat, final: string) {
    && bound <= |text| && bound <= |r| && r[..bound] == text[..bound]
    && (forall e :: e in edits ==> UsableEdit(text, e))
    && Stacked(EditsOf(text, edits), bound)
    && ApplyInOrder(r, EditsOf(text, edits)) == final
  }

  lemma FillStep(text: string, edits: seq<FragmentEdit>, r: string, bound: nat, final: string)
    requires Filling(text, edits, r, bound, final) && edits != []
    ensures var e := edits[0];
            && UsableEdit(text, e) && e.end <= bound
            && r[e.start..e.end] == text[e.start..e.end]
            && Filling(text, edits[1..], Splice(r, e.start, e.end, EditOf(text, e).text), e.start, final)
  {
    var e := edits[0];
    var rest := EditsOf(text, edits[1..]);
    assert edits == [e] + edits[1..];
    assert EditsOf(text, edits) == [EditOf(text, e)] + rest;
    assert EditsOf(text, edits)[1..] == rest;
    assert r[e.start..e.end] == r[..bound][e.start..e.end] == text[e.start..e.end];
    var next := Splice(r, e.start, e.end, EditOf(text, e).text);
    assert next[..e.start] == r[..bound][..e.start] == text[..e.start];
    StackedBelow(rest, e.start, |next|);
  }

  /** Replace the placeholders of each fragment inside its own range, last range first. */
  method FillIn(text: string, edits: seq<FragmentEdit>) returns (r: string)
    requires forall e :: e in edits ==> UsableEdit(text, e)
    requires AllSeparate(EditsOf(text, edits)) && forall e :: e in EditsOf(text, edits) ==> Fits(text, e)
    ensures r == Substituted(text, EditSet(EditsOf(text, edits)), 0)
  {
    var ordered := SortFragments(edits);
    SortCommutes(text, edits);
    SplicingIsSubstitution(text, EditsOf(text, edits));
    ghost var final := Substituted(text, EditSet(EditsOf(text, edits)), 0);
    r := text;
    ghost var bound: nat := |text|;
    var i := 0;
    while i < |ordered|
      invariant i <= |ordered| && Filling(text, ordered[i..], r, bound, final)
    {
      FillStep(text, ordered[i..], r, bound, final);
      assert ordered[i..][1..] == ordered[i + 1..];
      var edit := ordered[i];
      var fragment := ReplaceEach(r[edit.start..edit.end], edit.values);
      r := r[..edit.start] + fragment + r[edit.end..];
      bound := edit.start;
      i := i + 1;
    }
  }
}
