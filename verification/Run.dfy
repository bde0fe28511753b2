/**
 A whole signing run: skeletons in, then three passes, each hashing what the
 previous one wrote.

 `Run` says what the passes compute, on the working documents. `SignText` does
 it on the text, as the signer does, and is proved to return the text of the
 last working document, or to fail where a pass cannot read the text it starts
 from (`ReadPasses`). What the parser builds is not part of this model: after
 each pass the working document stands for what parsing the text gives, and
 `PassOverText` shows that the text is that document's.
 */
module Run {
  import opened Wrappers
  import opened XmlTree
  import opened C14n
  import opened Ids
  import opened Dossier
  import opened SourceText
  import opened Splicing
  import opened Growth
  import opened Names
  import opened SignatureXml
  import opened SignatureFilling
  import opened Planner
  import opened Working
  import opened Passes
  import opened PassText
  import opened Reader

  /** Library code, each value in Base64: the SHA-256 digest, the signature and the timestamp token.
      The number is the plan's, so that a randomised signer or authority may answer differently each time. */
  datatype Backend = Backend(digest: string -> string, sign: (nat, string) -> Option<string>,
                             stamp: (nat, string) -> Option<string>)

  /** Base64 has no `@`. */
  ghost predicate WritesBase64(b: Backend) {
    && (forall octets :: NoAt(b.digest(octets)))
    && (forall i, octets :: b.sign(i, octets).Some? ==> NoAt(b.sign(i, octets).value))
    && (forall i, octets :: b.stamp(i, octets).Some? ==> NoAt(b.stamp(i, octets).value))
  }

  // ------------------------------------------------------------- what is read

  /** The octets every reference and every signature of a run is made over. */
  function Canonical(doc: Node, p: Path): string
    requires IsElement(doc, p)
  {
    Octets(doc, WithoutComments(Subtree(p)), Exclusive(false), [])
  }

  /** The octets a signature timestamp is made over. */
  function CanonicalForStamp(doc: Node, p: Path): string
    requires IsElement(doc, p)
  {
    Octets(doc, WithoutComments(Subtree(p)), Inclusive(false), [])
  }

  function FoundById(doc: Node, id: string): (r: Option<Path>)
    ensures r == ById(doc, id)
    ensures r.Some? ==> IsElement(doc, r.value)
  {
    ByIdExact(doc, id);
    ById(doc, id)
  }

  function SignatureChild(doc: Node, id: string, name: string): (r: Option<Path>)
    ensures r.Some? ==> IsElement(doc, r.value)
  {
    var s := FoundById(doc, id);
    if s.None? then None
    else
      var c := ChildNamed(doc, s.value, XMLDSIG, name);
      if c.Some? then ChildrenNamedExact(doc, s.value, XMLDSIG, name, c.value); c else None
  }

  function TrimHashes(uri: string): string {
    if uri != "" && uri[0] == '#' then TrimHashes(uri[1..]) else uri
  }

  function DigestsOf(doc: Node, refs: seq<PlannedReference>, b: Backend): (r: Result<seq<string>, SignError>)
    ensures r.Ok? ==> |r.value| == |refs|
  {
    if refs == [] then Ok([])
    else
      var target := FoundById(doc, TrimHashes(refs[0].uri));
      if target.None? then Err(SignFailed)
      else
        var rest := DigestsOf(doc, refs[1..], b);
        if rest.Err? then rest else Ok([b.digest(Canonical(doc, target.value))] + rest.value)
  }

  /** Pass one over every plan: the fillings with their digests. */
  function DigestEach(doc: Node, plans: seq<Plan>, fills: seq<Filling>, b: Backend): (r: Result<seq<Filling>, SignError>)
    requires |plans| == |fills|
    ensures r.Ok? ==> |r.value| == |plans|
  {
    if plans == [] then Ok([])
    else
      var first := DigestsOf(doc, plans[0].references, b);
      if first.Err? then Err(first.error)
      else if FoundById(doc, plans[0].id).None? then Err(SignFailed)
      else
        var rest := DigestEach(doc, plans[1..], fills[1..], b);
        if rest.Err? then rest else Ok([fills[0].(digests := first.value)] + rest.value)
  }

  /** Pass two, `i` being the first plan's number. */
  function SignEach(doc: Node, plans: seq<Plan>, fills: seq<Filling>, b: Backend, i: nat): (r: Result<seq<Filling>, SignError>)
    requires |plans| == |fills|
    ensures r.Ok? ==> |r.value| == |plans|
  {
    if plans == [] then Ok([])
    else
      var info := SignatureChild(doc, plans[0].id, "SignedInfo");
      if info.None? then Err(SignFailed)
      else
        var value := b.sign(i, Canonical(doc, info.value));
        if value.None? then Err(SignFailed)
        else
          var rest := SignEach(doc, plans[1..], fills[1..], b, i + 1);
          if rest.Err? then rest else Ok([fills[0].(value := value.value)] + rest.value)
  }

  /** Pass three. */
  function StampEach(doc: Node, plans: seq<Plan>, fills: seq<Filling>, b: Backend, i: nat): (r: Result<seq<Filling>, SignError>)
    requires |plans| == |fills|
    ensures r.Ok? ==> |r.value| == |plans|
  {
    if plans == [] then Ok([])
    else
      var value := SignatureChild(doc, plans[0].id, "SignatureValue");
      if value.None? then Err(SignFailed)
      else
        var token := b.stamp(i, CanonicalForStamp(doc, value.value));
        if token.None? then Err(TsaFailed)
        else
          var rest := StampEach(doc, plans[1..], fills[1..], b, i + 1);
          if rest.Err? then rest else Ok([fills[0].(token := token.value)] + rest.value)
  }

  /** Every signature has this child; it is looked for in all of them before anything is asked of anyone. */
  predicate AllHave(doc: Node, plans: seq<Plan>, name: string) {
    forall p :: p in plans ==> SignatureChild(doc, p.id, name).Some?
  }

  function SignAll(doc: Node, plans: seq<Plan>, fills: seq<Filling>, b: Backend): (r: Result<seq<Filling>, SignError>)
    requires |plans| == |fills|
    ensures r.Ok? ==> |r.value| == |plans|
  {
    if !AllHave(doc, plans, "SignedInfo") then Err(SignFailed) else SignEach(doc, plans, fills, b, 0)
  }

  function StampAll(doc: Node, plans: seq<Plan>, fills: seq<Filling>, b: Backend): (r: Result<seq<Filling>, SignError>)
    requires |plans| == |fills|
    ensures r.Ok? ==> |r.value| == |plans|
  {
    if !AllHave(doc, plans, "SignatureValue") then Err(SignFailed) else StampEach(doc, plans, fills, b, 0)
  }

  function Skeletons(plans: seq<Plan>): (r: seq<Filling>)
    ensures Matching(plans, r)
    ensures forall i :: 0 <= i < |plans| ==> r[i] == Unfilled(plans[i].id, plans[i].references)
  {
    seq(|plans|, i requires 0 <= i < |plans| => Unfilled(plans[i].id, plans[i].references))
  }

  lemma {:induction false} DigestEachAt(doc: Node, plans: seq<Plan>, fills: seq<Filling>, b: Backend)
    requires |plans| == |fills| && DigestEach(doc, plans, fills, b).Ok?
    ensures var r := DigestEach(doc, plans, fills, b).value;
            forall i :: 0 <= i < |plans| ==>
              && DigestsOf(doc, plans[i].references, b).Ok?
              && r[i] == fills[i].(digests := DigestsOf(doc, plans[i].references, b).value)
  {
    hide DigestsOf;
    if plans != [] {
      DigestEachAt(doc, plans[1..], fills[1..], b);
    }
  }

  lemma {:induction false} SignEachAt(doc: Node, plans: seq<Plan>, fills: seq<Filling>, b: Backend, k: nat)
    requires |plans| == |fills| && SignEach(doc, plans, fills, b, k).Ok?
    ensures var r := SignEach(doc, plans, fills, b, k).value;
            forall i :: 0 <= i < |plans| ==>
              var info := SignatureChild(doc, plans[i].id, "SignedInfo");
              && info.Some? && b.sign(k + i, Canonical(doc, info.value)).Some?
              && r[i] == fills[i].(value := b.sign(k + i, Canonical(doc, info.value)).value)
  {
    hide SignatureChild, Canonical;
    if plans != [] {
      SignEachAt(doc, plans[1..], fills[1..], b, k + 1);
      var r := SignEach(doc, plans, fills, b, k).value;
      forall i | 0 <= i < |plans|
        ensures var info := SignatureChild(doc, plans[i].id, "SignedInfo");
                && info.Some? && b.sign(k + i, Canonical(doc, info.value)).Some?
                && r[i] == fills[i].(value := b.sign(k + i, Canonical(doc, info.value)).value)
      {
        if i > 0 { assert plans[i] == plans[1..][i - 1] && fills[i] == fills[1..][i - 1] && k + i == (k + 1) + (i - 1); }
      }
    }
  }

  lemma {:induction false} StampEachAt(doc: Node, plans: seq<Plan>, fills: seq<Filling>, b: Backend, k: nat)
    requires |plans| == |fills| && StampEach(doc, plans, fills, b, k).Ok?
    ensures var r := StampEach(doc, plans, fills, b, k).value;
            forall i :: 0 <= i < |plans| ==>
              var value := SignatureChild(doc, plans[i].id, "SignatureValue");
              && value.Some? && b.stamp(k + i, CanonicalForStamp(doc, value.value)).Some?
              && r[i] == fills[i].(token := b.stamp(k + i, CanonicalForStamp(doc, value.value)).value)
  {
    hide SignatureChild, CanonicalForStamp;
    if plans != [] {
      StampEachAt(doc, plans[1..], fills[1..], b, k + 1);
      var r := StampEach(doc, plans, fills, b, k).value;
      forall i | 0 <= i < |plans|
        ensures var value := SignatureChild(doc, plans[i].id, "SignatureValue");
                && value.Some? && b.stamp(k + i, CanonicalForStamp(doc, value.value)).Some?
                && r[i] == fills[i].(token := b.stamp(k + i, CanonicalForStamp(doc, value.value)).value)
      {
        if i > 0 { assert plans[i] == plans[1..][i - 1] && fills[i] == fills[1..][i - 1] && k + i == (k + 1) + (i - 1); }
      }
    }
  }

  lemma StillMatching(plans: seq<Plan>, fills: seq<Filling>, next: seq<Filling>)
    requires Matching(plans, fills) && |next| == |fills|
    requires forall i :: 0 <= i < |fills| ==> next[i].digests == fills[i].digests
    ensures Matching(plans, next)
  {}

  lemma SignAllMatches(doc: Node, plans: seq<Plan>, fills: seq<Filling>, b: Backend)
    requires Matching(plans, fills) && SignAll(doc, plans, fills, b).Ok?
    ensures Matching(plans, SignAll(doc, plans, fills, b).value)
  {
    hide SignatureChild, Canonical, AllHave;
    SignEachAt(doc, plans, fills, b, 0);
    StillMatching(plans, fills, SignAll(doc, plans, fills, b).value);
  }

  lemma StampAllMatches(doc: Node, plans: seq<Plan>, fills: seq<Filling>, b: Backend)
    requires Matching(plans, fills) && StampAll(doc, plans, fills, b).Ok?
    ensures Matching(plans, StampAll(doc, plans, fills, b).value)
  {
    hide SignatureChild, CanonicalForStamp, AllHave;
    StampEachAt(doc, plans, fills, b, 0);
    StillMatching(plans, fills, StampAll(doc, plans, fills, b).value);
  }

  // ------------------------------------------------------------------ the run

  /** The filling after each pass. */
  datatype Stages = Stages(digested: seq<Filling>, signed: seq<Filling>, final: seq<Filling>)

  predicate StagesMatch(plans: seq<Plan>, s: Stages) {
    Matching(plans, s.digested) && Matching(plans, s.signed) && Matching(plans, s.final)
  }

  function Digested(doc: Node, plans: seq<Plan>, signing: Signing, b: Backend): (r: Result<seq<Filling>, SignError>)
    requires AllInsertable(doc, plans)
    ensures r.Ok? ==> Matching(plans, r.value)
  {
    var r := DigestEach(WorkingDocument(doc, plans, signing, Skeletons(plans)), plans, Skeletons(plans), b);
    if r.Ok? then
      DigestEachAt(WorkingDocument(doc, plans, signing, Skeletons(plans)), plans, Skeletons(plans), b);
      r
    else r
  }

  function Signed(doc: Node, plans: seq<Plan>, signing: Signing, fills: seq<Filling>, b: Backend): (r: Result<seq<Filling>, SignError>)
    requires AllInsertable(doc, plans) && Matching(plans, fills)
    ensures r.Ok? ==> Matching(plans, r.value)
  {
    var r := SignAll(WorkingDocument(doc, plans, signing, fills), plans, fills, b);
    if r.Ok? then
      SignAllMatches(WorkingDocument(doc, plans, signing, fills), plans, fills, b);
      r
    else r
  }

  function Stamped(doc: Node, plans: seq<Plan>, signing: Signing, fills: seq<Filling>, b: Backend): (r: Result<seq<Filling>, SignError>)
    requires AllInsertable(doc, plans) && Matching(plans, fills)
    ensures r.Ok? ==> Matching(plans, r.value)
  {
    if !signing.timestamped then Ok(fills)
    else
      var r := StampAll(WorkingDocument(doc, plans, signing, fills), plans, fills, b);
      if r.Ok? then
        StampAllMatches(WorkingDocument(doc, plans, signing, fills), plans, fills, b);
        r
      else r
  }

  /** What the three passes compute. */
  function RunPasses(doc: Node, plans: seq<Plan>, signing: Signing, b: Backend): (r: Result<Stages, SignError>)
    requires AllInsertable(doc, plans)
    ensures r.Ok? ==> StagesMatch(plans, r.value)
  {
    var digested := Digested(doc, plans, signing, b);
    if digested.Err? then Err(digested.error)
    else
      var signed := Signed(doc, plans, signing, digested.value, b);
      if signed.Err? then Err(signed.error)
      else
        var final := Stamped(doc, plans, signing, signed.value, b);
        if final.Err? then Err(final.error) else Ok(Stages(digested.value, signed.value, final.value))
  }

  /** Every text a pass starts from is read. */
  predicate PassesRead(doc: Node, plans: seq<Plan>, signing: Signing, b: Backend)
    requires AllInsertable(doc, plans)
  {
    && Reads(WorkingDocument(doc, plans, signing, Skeletons(plans)), DEFAULT_LIMITS)
    && var digested := Digested(doc, plans, signing, b);
       digested.Ok? ==>
         && Reads(WorkingDocument(doc, plans, signing, digested.value), DEFAULT_LIMITS)
         && var signed := Signed(doc, plans, signing, digested.value, b);
            signed.Ok? && signing.timestamped ==> Reads(WorkingDocument(doc, plans, signing, signed.value), DEFAULT_LIMITS)
  }

  /** The run, when every pass first reads the text it starts from: reading stops it or changes nothing about it. */
  function ReadPasses(doc: Node, plans: seq<Plan>, signing: Signing, b: Backend): (r: Result<Stages, SignError>)
    requires AllInsertable(doc, plans)
    ensures r.Ok? ==> StagesMatch(plans, r.value)
  {
    if PassesRead(doc, plans, signing, b) then RunPasses(doc, plans, signing, b) else Err(SignFailed)
  }

  // -------------------------------------------------------------- on the text

  /** The substitutions of each pass. */
  function DigestSubstitutions(plans: seq<Plan>, fills: seq<Filling>): (r: seq<seq<Substitution>>)
    requires Matching(plans, fills)
    ensures |r| == |plans| && forall i :: 0 <= i < |plans| ==> r[i] == DigestValues(plans[i].references, fills[i].digests)
  {
    seq(|plans|, i requires 0 <= i < |plans| => DigestValues(plans[i].references, fills[i].digests))
  }

  function ValueSubstitutions(plans: seq<Plan>, fills: seq<Filling>): (r: seq<seq<Substitution>>)
    requires Matching(plans, fills)
    ensures |r| == |plans| && forall i :: 0 <= i < |plans| ==> r[i] == [Substitution(ValueHole(plans[i].id), fills[i].value)]
  {
    seq(|plans|, i requires 0 <= i < |plans| => [Substitution(ValueHole(plans[i].id), fills[i].value)])
  }

  function TokenSubstitutions(plans: seq<Plan>, fills: seq<Filling>): (r: seq<seq<Substitution>>)
    requires Matching(plans, fills)
    ensures |r| == |plans| && forall i :: 0 <= i < |plans| ==> r[i] == [Substitution(TokenHole(plans[i].id), fills[i].token)]
  {
    seq(|plans|, i requires 0 <= i < |plans| => [Substitution(TokenHole(plans[i].id), fills[i].token)])
  }

  predicate AllTidy(plans: seq<Plan>) {
    forall p :: p in plans ==> TidyPlan(p)
  }

  lemma {:induction false} DigestsHaveNoAt(doc: Node, refs: seq<PlannedReference>, b: Backend)
    requires WritesBase64(b) && DigestsOf(doc, refs, b).Ok?
    ensures NoAts(DigestsOf(doc, refs, b).value)
  {
    hide Canonical, FoundById, NoAt;
    if refs != [] { DigestsHaveNoAt(doc, refs[1..], b); }
  }

  lemma DigestedEach(doc: Node, plans: seq<Plan>, signing: Signing, b: Backend)
    requires AllInsertable(doc, plans) && WritesBase64(b) && Digested(doc, plans, signing, b).Ok?
    ensures var next := Digested(doc, plans, signing, b).value;
            forall i :: 0 <= i < |plans| ==>
              NoAts(next[i].digests) && next[i] == Unfilled(plans[i].id, plans[i].references).(digests := next[i].digests)
  {
    hide WorkingDocument, DigestsOf, Unfilled, NoAts;
    var w := WorkingDocument(doc, plans, signing, Skeletons(plans));
    DigestEachAt(w, plans, Skeletons(plans), b);
    forall i | 0 <= i < |plans|
      ensures NoAts(Digested(doc, plans, signing, b).value[i].digests)
    {
      DigestsHaveNoAt(w, plans[i].references, b);
    }
  }

  lemma SignedEach(doc: Node, plans: seq<Plan>, signing: Signing, fills: seq<Filling>, b: Backend)
    requires AllInsertable(doc, plans) && Matching(plans, fills) && WritesBase64(b) && Signed(doc, plans, signing, fills, b).Ok?
    ensures var next := Signed(doc, plans, signing, fills, b).value;
            forall i :: 0 <= i < |plans| ==> NoAt(next[i].value) && next[i] == fills[i].(value := next[i].value)
  {
    hide WorkingDocument, SignatureChild, Canonical, NoAt;
    SignEachAt(WorkingDocument(doc, plans, signing, fills), plans, fills, b, 0);
  }

  lemma StampedEach(doc: Node, plans: seq<Plan>, signing: Signing, fills: seq<Filling>, b: Backend)
    requires AllInsertable(doc, plans) && Matching(plans, fills) && WritesBase64(b) && Stamped(doc, plans, signing, fills, b).Ok?
    requires signing.timestamped
    ensures var next := Stamped(doc, plans, signing, fills, b).value;
            forall i :: 0 <= i < |plans| ==> NoAt(next[i].token) && next[i] == fills[i].(token := next[i].token)
  {
    hide WorkingDocument, SignatureChild, CanonicalForStamp, NoAt;
    StampEachAt(WorkingDocument(doc, plans, signing, fills), plans, fills, b, 0);
  }

  lemma DigestStage(doc: Node, plans: seq<Plan>, signing: Signing, b: Backend)
    requires AllInsertable(doc, plans) && AllTidy(plans) && WritesBase64(b) && Digested(doc, plans, signing, b).Ok?
    ensures var next := Digested(doc, plans, signing, b).value;
            PassAdvances(plans, DigestSubstitutions(plans, next), Skeletons(plans), next)
  {
    hide Digested, Advances, TidyPlan, Unfilled, NoAts, DigestValues;
    var next := Digested(doc, plans, signing, b).value;
    DigestedEach(doc, plans, signing, b);
    forall i | 0 <= i < |plans|
      ensures Advances(plans[i], DigestSubstitutions(plans, next)[i], Skeletons(plans)[i], next[i])
    {
      assert plans[i] in plans;
      DigestPass(plans[i], next[i].digests);
    }
  }

  lemma SignStage(doc: Node, plans: seq<Plan>, signing: Signing, b: Backend)
    requires AllInsertable(doc, plans) && AllTidy(plans) && WritesBase64(b) && Digested(doc, plans, signing, b).Ok?
    requires Signed(doc, plans, signing, Digested(doc, plans, signing, b).value, b).Ok?
    ensures var fills := Digested(doc, plans, signing, b).value;
            var next := Signed(doc, plans, signing, fills, b).value;
            PassAdvances(plans, ValueSubstitutions(plans, next), fills, next)
  {
    hide Digested, Signed, Advances, TidyPlan, Unfilled, NoAts, NoAt, ValueHole;
    var fills := Digested(doc, plans, signing, b).value;
    var next := Signed(doc, plans, signing, fills, b).value;
    DigestedEach(doc, plans, signing, b);
    SignedEach(doc, plans, signing, fills, b);
    forall i | 0 <= i < |plans|
      ensures Advances(plans[i], ValueSubstitutions(plans, next)[i], fills[i], next[i])
    {
      assert plans[i] in plans;
      ValuePass(plans[i], fills[i].digests, next[i].value);
    }
  }

  lemma StampStage(doc: Node, plans: seq<Plan>, signing: Signing, b: Backend)
    requires AllInsertable(doc, plans) && AllTidy(plans) && WritesBase64(b) && RunPasses(doc, plans, signing, b).Ok?
    requires signing.timestamped
    ensures var s := RunPasses(doc, plans, signing, b).value;
            PassAdvances(plans, TokenSubstitutions(plans, s.final), s.signed, s.final)
  {
    hide Digested, Signed, Stamped, Advances, TidyPlan, NoAts, NoAt, TokenHole, DigestHoles, ValueHole;
    var s := RunPasses(doc, plans, signing, b).value;
    DigestedEach(doc, plans, signing, b);
    SignedEach(doc, plans, signing, s.digested, b);
    StampedEach(doc, plans, signing, s.signed, b);
    forall i | 0 <= i < |plans|
      ensures Advances(plans[i], TokenSubstitutions(plans, s.final)[i], s.signed[i], s.final[i])
    {
      assert plans[i] in plans;
      assert s.signed[i] == Filling(s.digested[i].digests, s.signed[i].value, TokenHole(plans[i].id));
      TokenPass(plans[i], s.signed[i].digests, s.signed[i].value, s.final[i].token);
    }
  }

  lemma ContainersAreClosed(doc: Node, plans: seq<Plan>)
    requires ClosedContainers(doc, plans)
    ensures EndTagged(doc, Containers(plans))
  {
    forall q | q in Containers(plans)
      ensures Spot(doc, q) && At(doc, q).close != ""
    {
      var i :| 0 <= i < |Containers(plans)| && Containers(plans)[i] == q;
      assert plans[i] in plans && Insertable(doc, plans[i]);
    }
  }

  /** The skeletons go in. */
  method InsertSignatures(doc: Node, plans: seq<Plan>, signing: Signing) returns (text: string)
    requires AllInsertable(doc, plans) && ClosedContainers(doc, plans)
    ensures text == Source(WorkingDocument(doc, plans, signing, Skeletons(plans)))
  {
    hide Grown, Source, SignatureOf;
    ContainersAreSpots(doc, plans);
    ContainersAreClosed(doc, plans);
    text := WriteKids(doc, Containers(plans), Signatures(plans, signing, Skeletons(plans)));
  }

  /** One pass: from the text of one working document to the text of the next. */
  method FillPass(text: string, doc: Node, plans: seq<Plan>, signing: Signing, values: seq<seq<Substitution>>,
                  fills: seq<Filling>, next: seq<Filling>) returns (r: string)
    requires AllInsertable(doc, plans) && TidySigning(signing) && AllTidy(plans)
    requires PassAdvances(plans, values, fills, next) && Matching(plans, fills) && Matching(plans, next)
    requires text == Source(WorkingDocument(doc, plans, signing, fills))
    ensures r == Source(WorkingDocument(doc, plans, signing, next))
  {
    hide Grown, Source, SignatureOf, Advances, TidySigning, TidyPlan, LeadsTo;
    ContainersAreSpots(doc, plans);
    SignaturesLead(plans, signing, values, fills, next);
    r := FillKids(text, doc, Containers(plans), Signatures(plans, signing, fills), values, Signatures(plans, signing, next));
  }

  // ---------------------------------------------------------------- the loops

  method DigestReferences(doc: Node, refs: seq<PlannedReference>, b: Backend) returns (r: Result<seq<string>, SignError>)
    ensures r == DigestsOf(doc, refs, b)
  {
    hide FoundById, Canonical, TrimHashes;
    var values: seq<string> := [];
    var j := 0;
    assert refs[0..] == refs;
    CarryNone(DigestsOf(doc, refs, b));
    while j < |refs|
      invariant j <= |refs| && Carry(values, DigestsOf(doc, refs[j..], b)) == DigestsOf(doc, refs, b)
    {
      assert refs[j..][1..] == refs[j + 1..];
      var target := FoundById(doc, TrimHashes(refs[j].uri));
      if target.None? {
        return Err(SignFailed);
      }
      assert IsElement(doc, target.value);
      CarryOne(values, b.digest(Canonical(doc, target.value)), DigestsOf(doc, refs[j + 1..], b));
      values := values + [b.digest(Canonical(doc, target.value))];
      j := j + 1;
    }
    assert values + [] == values;
    return Ok(values);
  }

  /** Pass one's loop. */
  method DigestPlans(doc: Node, plans: seq<Plan>, fills: seq<Filling>, b: Backend) returns (r: Result<seq<Filling>, SignError>)
    requires |plans| == |fills|
    ensures r == DigestEach(doc, plans, fills, b)
  {
    hide FoundById, DigestsOf;
    var done: seq<Filling> := [];
    var i := 0;
    assert plans[0..] == plans && fills[0..] == fills;
    CarryNone(DigestEach(doc, plans, fills, b));
    while i < |plans|
      invariant i <= |plans| && Carry(done, DigestEach(doc, plans[i..], fills[i..], b)) == DigestEach(doc, plans, fills, b)
    {
      assert plans[i..][1..] == plans[i + 1..] && fills[i..][1..] == fills[i + 1..];
      var values := DigestReferences(doc, plans[i].references, b);
      if values.Err? {
        return Err(values.error);
      }
      if FoundById(doc, plans[i].id).None? {
        return Err(SignFailed);
      }
      CarryOne(done, fills[i].(digests := values.value), DigestEach(doc, plans[i + 1..], fills[i + 1..], b));
      done := done + [fills[i].(digests := values.value)];
      i := i + 1;
    }
    assert done + [] == done;
    return Ok(done);
  }

  /** The octets of a child of every signature, or the first that is missing. */
  method CollectOctets(doc: Node, plans: seq<Plan>, name: string, inclusive: bool) returns (r: Result<seq<string>, SignError>)
    ensures r.Ok? <==> AllHave(doc, plans, name)
    ensures r.Err? ==> r.error == SignFailed
    ensures r.Ok? ==> |r.value| == |plans|
    ensures r.Ok? ==> forall i :: 0 <= i < |plans| ==>
              var child := SignatureChild(doc, plans[i].id, name);
              && child.Some?
              && r.value[i] == if inclusive then CanonicalForStamp(doc, child.value) else Canonical(doc, child.value)
  {
    hide SignatureChild, Canonical, CanonicalForStamp;
    var octets: seq<string> := [];
    var i := 0;
    while i < |plans|
      invariant i <= |plans| && |octets| == i
      invariant forall k :: 0 <= k < i ==>
                  var child := SignatureChild(doc, plans[k].id, name);
                  && child.Some?
                  && octets[k] == if inclusive then CanonicalForStamp(doc, child.value) else Canonical(doc, child.value)
    {
      var child := SignatureChild(doc, plans[i].id, name);
      assert plans[i] in plans;
      if child.None? {
        return Err(SignFailed);
      }
      assert IsElement(doc, child.value);
      octets := octets + [if inclusive then CanonicalForStamp(doc, child.value) else Canonical(doc, child.value)];
      i := i + 1;
    }
    return Ok(octets);
  }

  /** Pass two's loop. */
  method SignPlans(doc: Node, plans: seq<Plan>, fills: seq<Filling>, b: Backend) returns (r: Result<seq<Filling>, SignError>)
    requires |plans| == |fills|
    ensures r == SignAll(doc, plans, fills, b)
  {
    hide SignatureChild, Canonical, AllHave;
    var octets := CollectOctets(doc, plans, "SignedInfo", false);
    if octets.Err? {
      return Err(octets.error);
    }
    var done: seq<Filling> := [];
    var i := 0;
    assert plans[0..] == plans && fills[0..] == fills;
    CarryNone(SignEach(doc, plans, fills, b, 0));
    while i < |plans|
      invariant i <= |plans| && Carry(done, SignEach(doc, plans[i..], fills[i..], b, i)) == SignEach(doc, plans, fills, b, 0)
    {
      assert plans[i..][1..] == plans[i + 1..] && fills[i..][1..] == fills[i + 1..];
      var value := b.sign(i, octets.value[i]);
      if value.None? {
        return Err(SignFailed);
      }
      CarryOne(done, fills[i].(value := value.value), SignEach(doc, plans[i + 1..], fills[i + 1..], b, i + 1));
      done := done + [fills[i].(value := value.value)];
      i := i + 1;
    }
    assert done + [] == done;
    return Ok(done);
  }

  /** Pass three's loop. */
  method StampPlans(doc: Node, plans: seq<Plan>, fills: seq<Filling>, b: Backend) returns (r: Result<seq<Filling>, SignError>)
    requires |plans| == |fills|
    ensures r == StampAll(doc, plans, fills, b)
  {
    hide SignatureChild, CanonicalForStamp, AllHave;
    var octets := CollectOctets(doc, plans, "SignatureValue", true);
    if octets.Err? {
      return Err(octets.error);
    }
    var done: seq<Filling> := [];
    var i := 0;
    assert plans[0..] == plans && fills[0..] == fills;
    CarryNone(StampEach(doc, plans, fills, b, 0));
    while i < |plans|
      invariant i <= |plans| && Carry(done, StampEach(doc, plans[i..], fills[i..], b, i)) == StampEach(doc, plans, fills, b, 0)
    {
      assert plans[i..][1..] == plans[i + 1..] && fills[i..][1..] == fills[i + 1..];
      var token := b.stamp(i, octets.value[i]);
      if token.None? {
        return Err(TsaFailed);
      }
      CarryOne(done, fills[i].(token := token.value), StampEach(doc, plans[i + 1..], fills[i + 1..], b, i + 1));
      done := done + [fills[i].(token := token.value)];
      i := i + 1;
    }
    assert done + [] == done;
    return Ok(done);
  }

  /** What a pass makes of the text of a working document: the text of the next, unless it cannot be read or the
      pass has no result. */
  function PassResult(doc: Node, plans: seq<Plan>, signing: Signing, fills: seq<Filling>, next: Result<seq<Filling>, SignError>)
    : Result<string, SignError>
    requires AllInsertable(doc, plans) && Matching(plans, fills) && (next.Ok? ==> Matching(plans, next.value))
  {
    if !Reads(WorkingDocument(doc, plans, signing, fills), DEFAULT_LIMITS) then Err(SignFailed)
    else
      match next
      case Err(e) => Err(e)
      case Ok(filled) => Ok(Source(WorkingDocument(doc, plans, signing, filled)))
  }

  /** Pass one on the text. */
  method FillDigests(text: string, doc: Node, plans: seq<Plan>, signing: Signing, b: Backend)
    returns (r: Result<string, SignError>, digested: seq<Filling>)
    requires AllInsertable(doc, plans) && AllTidy(plans) && TidySigning(signing) && WritesBase64(b)
    requires text == Source(WorkingDocument(doc, plans, signing, Skeletons(plans)))
    ensures r == PassResult(doc, plans, signing, Skeletons(plans), Digested(doc, plans, signing, b))
    ensures r.Ok? ==> Digested(doc, plans, signing, b) == Ok(digested)
  {
    hide WorkingDocument, Source, TidySigning, AllTidy, PassAdvances, AllInsertable, WritesBase64, Matching, DigestEach, Reads;
    digested := [];
    var read := Read(text, WorkingDocument(doc, plans, signing, Skeletons(plans)), DEFAULT_LIMITS);
    if !read {
      return Err(SignFailed), digested;
    }
    var digests := DigestPlans(WorkingDocument(doc, plans, signing, Skeletons(plans)), plans, Skeletons(plans), b);
    assert digests == Digested(doc, plans, signing, b);
    if digests.Err? {
      return Err(digests.error), digested;
    }
    digested := digests.value;
    DigestStage(doc, plans, signing, b);
    var filled := FillPass(text, doc, plans, signing, DigestSubstitutions(plans, digested), Skeletons(plans), digested);
    r := Ok(filled);
  }

  /** Pass two on the text. */
  method FillSignatureValues(text: string, doc: Node, plans: seq<Plan>, signing: Signing, digested: seq<Filling>, b: Backend)
    returns (r: Result<string, SignError>, signed: seq<Filling>)
    requires AllInsertable(doc, plans) && AllTidy(plans) && TidySigning(signing) && WritesBase64(b)
    requires Digested(doc, plans, signing, b) == Ok(digested) && text == Source(WorkingDocument(doc, plans, signing, digested))
    ensures r == PassResult(doc, plans, signing, digested, Signed(doc, plans, signing, digested, b))
    ensures r.Ok? ==> Signed(doc, plans, signing, digested, b) == Ok(signed)
  {
    hide WorkingDocument, Source, TidySigning, AllTidy, PassAdvances, AllInsertable, WritesBase64, SignAll, Reads, Digested;
    signed := [];
    var read := Read(text, WorkingDocument(doc, plans, signing, digested), DEFAULT_LIMITS);
    if !read {
      return Err(SignFailed), signed;
    }
    var values := SignPlans(WorkingDocument(doc, plans, signing, digested), plans, digested, b);
    assert values == Signed(doc, plans, signing, digested, b);
    if values.Err? {
      return Err(values.error), signed;
    }
    signed := values.value;
    SignStage(doc, plans, signing, b);
    var filled := FillPass(text, doc, plans, signing, ValueSubstitutions(plans, signed), digested, signed);
    r := Ok(filled);
  }

  /** Pass three on the text. */
  method FillTimestamps(text: string, doc: Node, plans: seq<Plan>, signing: Signing, digested: seq<Filling>, signed: seq<Filling>, b: Backend)
    returns (r: Result<string, SignError>)
    requires AllInsertable(doc, plans) && AllTidy(plans) && TidySigning(signing) && WritesBase64(b) && signing.timestamped
    requires Digested(doc, plans, signing, b) == Ok(digested) && Signed(doc, plans, signing, digested, b) == Ok(signed)
    requires text == Source(WorkingDocument(doc, plans, signing, signed))
    ensures r == PassResult(doc, plans, signing, signed, Stamped(doc, plans, signing, signed, b))
  {
    hide WorkingDocument, Source, TidySigning, AllTidy, PassAdvances, AllInsertable, WritesBase64, StampAll, Reads, Digested, Signed;
    var read := Read(text, WorkingDocument(doc, plans, signing, signed), DEFAULT_LIMITS);
    if !read {
      return Err(SignFailed);
    }
    var tokens := StampPlans(WorkingDocument(doc, plans, signing, signed), plans, signed, b);
    assert tokens == Stamped(doc, plans, signing, signed, b);
    if tokens.Err? {
      return Err(tokens.error);
    }
    StampStage(doc, plans, signing, b);
    var filled := FillPass(text, doc, plans, signing, TokenSubstitutions(plans, tokens.value), signed, tokens.value);
    return Ok(filled);
  }

  /** The run on the text. */
  method SignText(doc: Node, plans: seq<Plan>, signing: Signing, b: Backend) returns (r: Result<string, SignError>)
    requires AllInsertable(doc, plans) && ClosedContainers(doc, plans) && AllTidy(plans) && TidySigning(signing)
    requires WritesBase64(b)
    ensures var run := ReadPasses(doc, plans, signing, b);
            r == if run.Err? then Err(run.error) else Ok(Source(WorkingDocument(doc, plans, signing, run.value.final)))
  {
    hide WorkingDocument, Source, TidySigning, AllTidy, AllInsertable, ClosedContainers, WritesBase64, Matching, Digested, Signed, Reads;
    var text := InsertSignatures(doc, plans, signing);
    var digested, signed;
    r, digested := FillDigests(text, doc, plans, signing, b);
    if r.Err? {
      return;
    }
    r, signed := FillSignatureValues(r.value, doc, plans, signing, digested, b);
    if r.Err? || !signing.timestamped {
      return;
    }
    r := FillTimestamps(r.value, doc, plans, signing, digested, signed, b);
  }
}
