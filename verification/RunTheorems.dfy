/**
 Three-pass consistency: in the document a run returns, every digest is the
 digest of its target in that document, every signature value was made over that
 document's `ds:SignedInfo`, and every token over its `ds:SignatureValue`.
 */
module RunTheorems {
  import opened Wrappers
  import opened XmlTree
  import opened C14n
  import opened Ids
  import opened Dossier
  import opened Names
  import opened SignatureXml
  import opened SignatureParts
  import opened Planner
  import opened Working
  import opened WorkingIds
  import opened Run

  // ----------------------------------------------------------- what plans aim at

  /** `#` and one identifier. */
  predicate NamesOne(uri: string) {
    |uri| > 1 && uri[0] == '#' && uri[1] != '#'
  }

  /** A reference to an element of the original at or above which nothing is written. */
  predicate AimsOutside(doc: Node, plans: seq<Plan>, r: PlannedReference) {
    && NamesOne(r.uri) && ById(doc, r.uri[1..]).Some?
    && forall q :: q in plans ==> !(ById(doc, r.uri[1..]).value <= q.container)
  }

  /** A plan's references: some elements of the original, then the two objects of its own signature. */
  predicate AimedPlan(doc: Node, plans: seq<Plan>, plan: Plan) {
    var n := |plan.references| - 2;
    && n >= 0 && plan.references[n..] == OwnReferences(plan.id)
    && (forall j :: 0 <= j < n ==> AimsOutside(doc, plans, plan.references[j]))
  }

  /** Everything planning promises to the passes. */
  predicate Runnable(doc: Node, plans: seq<Plan>) {
    && AllInsertable(doc, plans) && IdMap(doc).Some? && Fresh(doc, plans)
    && forall p :: p in plans ==> AimedPlan(doc, plans, p)
  }

  /** The node reference `j` names, the same in every working document. */
  function TargetPath(doc: Node, plans: seq<Plan>, plan: Plan, j: nat): Path
    requires Insertable(doc, plan) && AimedPlan(doc, plans, plan) && j < |plan.references|
  {
    var n := |plan.references| - 2;
    if j < n then ById(doc, plan.references[j].uri[1..]).value
    else if j == n then Place(doc, plan) + PROFILE_OBJECT
    else Place(doc, plan) + SIGNED_PROPERTIES
  }

  lemma TrimOne(uri: string)
    requires NamesOne(uri)
    ensures TrimHashes(uri) == uri[1..]
  {}

  lemma OwnAim(plan: Plan, doc: Node, plans: seq<Plan>, j: nat)
    requires AimedPlan(doc, plans, plan) && |plan.references| - 2 <= j < |plan.references|
    ensures plan.references[j] == OwnReferences(plan.id)[j - (|plan.references| - 2)] && NamesOne(plan.references[j].uri)
    ensures plan.references[j].uri[1..] == if j == |plan.references| - 2 then ProfileObjectId(plan.id) else SignedPropertiesId(plan.id)
  {
    var n := |plan.references| - 2;
    assert plan.references[j] == plan.references[n..][j - n];
    var p, s := ProfileObjectId(plan.id), SignedPropertiesId(plan.id);
    assert p[0] == 'p' && s[0] == 's';
    assert ("#" + p)[1..] == p && ("#" + s)[1..] == s;
  }

  lemma PartCarries(plan: Plan, signing: Signing, f: Filling)
    requires |plan.references| == |f.digests|
    ensures CarriesId(SignatureOf(plan, signing, f), [], plan.id)
    ensures CarriesId(SignatureOf(plan, signing, f), PROFILE_OBJECT, ProfileObjectId(plan.id))
    ensures CarriesId(SignatureOf(plan, signing, f), SIGNED_PROPERTIES, SignedPropertiesId(plan.id))
  {
    hide SignatureKids, ProfileNode, Formats, SignatureProperties, OpenTag, ScopeAbove, XmlAbove;
    PropertiesInSignature(plan.id, signing, plan.references, f, []);
    KidView(plan.id, signing, plan.references, f, 3, []);
    FourthKid(plan.id, signing, plan.references, f);
  }

  lemma FourthKid(id: string, signing: Signing, refs: seq<PlannedReference>, f: Filling)
    requires |refs| == |f.digests|
    ensures SignatureKids(id, signing, refs, f)[3] == ProfileObjectNode(id, signing.namespace)
  {
    hide SignedInfoNode, SignatureValueNode, KeyInfoNode, ProfileObjectNode, QualifyingObjectNode;
  }

  /** In every working document the search finds the target in the same place. */
  lemma TargetFound(doc: Node, plans: seq<Plan>, signing: Signing, fills: seq<Filling>, i: nat, j: nat)
    requires Runnable(doc, plans) && Matching(plans, fills) && i < |plans| && plans[i] in plans && j < |plans[i].references|
    ensures NamesOne(plans[i].references[j].uri)
    ensures FoundById(WorkingDocument(doc, plans, signing, fills), TrimHashes(plans[i].references[j].uri))
         == Some(TargetPath(doc, plans, plans[i], j))
    ensures FoundById(WorkingDocument(doc, plans, signing, fills), plans[i].references[j].uri[1..])
         == Some(TargetPath(doc, plans, plans[i], j))
  {
    hide WorkingDocument, SignatureOf, IdMap, Fresh, Place, ProfileObjectId, SignedPropertiesId, OwnReferences;
    var plan := plans[i];
    var n := |plan.references| - 2;
    if j < n {
      assert AimsOutside(doc, plans, plan.references[j]);
      OldIdStays(doc, plans, signing, fills, plan.references[j].uri[1..]);
    } else {
      OwnAim(plan, doc, plans, j);
      PartCarries(plan, signing, fills[i]);
      if j == n {
        NewIdFound(doc, plans, signing, fills, i, PROFILE_OBJECT, ProfileObjectId(plan.id));
      } else {
        NewIdFound(doc, plans, signing, fills, i, SIGNED_PROPERTIES, SignedPropertiesId(plan.id));
      }
    }
    TrimOne(plan.references[j].uri);
  }

  /** A target has the same octets in any two working documents. */
  lemma TargetStable(doc: Node, plans: seq<Plan>, signing: Signing, fills: seq<Filling>, next: seq<Filling>, i: nat, j: nat)
    requires Runnable(doc, plans) && Matching(plans, fills) && Matching(plans, next)
    requires i < |plans| && plans[i] in plans && j < |plans[i].references|
    ensures var t := TargetPath(doc, plans, plans[i], j);
            var v, w := WorkingDocument(doc, plans, signing, fills), WorkingDocument(doc, plans, signing, next);
            IsElement(v, t) && IsElement(w, t) && Canonical(v, t) == Canonical(w, t)
  {
    hide WorkingDocument, SignatureOf, IdMap, Fresh, Place, OwnReferences, Octets;
    var plan := plans[i];
    var t := TargetPath(doc, plans, plan, j);
    var n := |plan.references| - 2;
    if j < n {
      assert AimsOutside(doc, plans, plan.references[j]);
      var found := FoundById(doc, plan.references[j].uri[1..]);
      OldOctets(doc, plans, signing, fills, WithoutComments(Subtree(t)), Exclusive(false), []);
      OldOctets(doc, plans, signing, next, WithoutComments(Subtree(t)), Exclusive(false), []);
    } else {
      PartOctets(doc, plans, signing, fills, next, i, if j == n then PROFILE_OBJECT else SIGNED_PROPERTIES, Exclusive(false));
    }
  }

  // ------------------------------------------------------------ the two children

  lemma FirstTwoKids(id: string, signing: Signing, refs: seq<PlannedReference>, f: Filling)
    requires |refs| == |f.digests|
    ensures var kids := SignatureKids(id, signing, refs, f);
            && IsNamed(kids[0], XMLDSIG, "SignedInfo") && IsNamed(kids[1], XMLDSIG, "SignatureValue")
            && !IsNamed(kids[0], XMLDSIG, "SignatureValue")
  {
    hide ReferenceNodes, KeyInfoNode, ProfileObjectNode, QualifyingObjectNode, OpenTag;
  }

  lemma FirstNamed(kids: seq<Node>, parent: Path, ns: string, local: string)
    requires |kids| > 1
    ensures var all := NamedFrom(kids, parent, 0, ns, local);
            && (IsNamed(kids[0], ns, local) ==> all != [] && all[0] == parent + [0])
            && (!IsNamed(kids[0], ns, local) && IsNamed(kids[1], ns, local) ==> all != [] && all[0] == parent + [1])
  {
    hide IsNamed;
    assert kids[1..][0] == kids[1];
    var rest := NamedFrom(kids[1..], parent, 1, ns, local);
    assert [] + rest == rest;
  }

  lemma ChildrenFound(doc: Node, plans: seq<Plan>, signing: Signing, fills: seq<Filling>, i: nat)
    requires Runnable(doc, plans) && Matching(plans, fills) && i < |plans| && plans[i] in plans
    ensures var w := WorkingDocument(doc, plans, signing, fills);
            && FoundById(w, plans[i].id) == Some(Place(doc, plans[i]))
            && SignatureChild(w, plans[i].id, "SignedInfo") == Some(Place(doc, plans[i]) + SIGNED_INFO)
            && SignatureChild(w, plans[i].id, "SignatureValue") == Some(Place(doc, plans[i]) + SIGNATURE_VALUE)
  {
    hide WorkingDocument, SignatureKids, IdMap, Fresh, Place, OpenTag, IsNamed, NamedFrom;
    var w, place := WorkingDocument(doc, plans, signing, fills), Place(doc, plans[i]);
    PartCarries(plans[i], signing, fills[i]);
    NewIdFound(doc, plans, signing, fills, i, [], plans[i].id);
    assert place + [] == place;
    SignaturesInPlace(doc, plans, signing, fills);
    FirstTwoKids(plans[i].id, signing, plans[i].references, fills[i]);
    var kids := SignatureKids(plans[i].id, signing, plans[i].references, fills[i]);
    assert Kids(At(w, place)) == kids;
    FirstNamed(kids, place, XMLDSIG, "SignedInfo");
    FirstNamed(kids, place, XMLDSIG, "SignatureValue");
  }

  // ------------------------------------------------------------- consistency

  lemma {:induction false} DigestsAt(doc: Node, refs: seq<PlannedReference>, b: Backend)
    requires DigestsOf(doc, refs, b).Ok?
    ensures forall j :: 0 <= j < |refs| ==>
              var t := FoundById(doc, TrimHashes(refs[j].uri));
              t.Some? && DigestsOf(doc, refs, b).value[j] == b.digest(Canonical(doc, t.value))
  {
    hide FoundById, Canonical, TrimHashes;
    if refs != [] {
      DigestsAt(doc, refs[1..], b);
      forall j | 0 <= j < |refs|
        ensures var t := FoundById(doc, TrimHashes(refs[j].uri));
                t.Some? && DigestsOf(doc, refs, b).value[j] == b.digest(Canonical(doc, t.value))
      {
        if j > 0 { assert refs[j] == refs[1..][j - 1]; }
      }
    }
  }

  /** A reference with this URI names `t`, and the digest is that of `t`. */
  predicate DigestFits(w: Node, uri: string, t: Path, digest: string, b: Backend) {
    FoundById(w, TrimHashes(uri)) == Some(t) && digest == b.digest(Canonical(w, t))
  }

  /** The signature value at `place` was made over the `ds:SignedInfo` there, the token over the value. */
  predicate ValueFits(w: Node, place: Path, f: Filling, b: Backend, i: nat, timestamped: bool) {
    && IsElement(w, place + SIGNED_INFO) && b.sign(i, Canonical(w, place + SIGNED_INFO)) == Some(f.value)
    && (timestamped ==> IsElement(w, place + SIGNATURE_VALUE)
                        && b.stamp(i, CanonicalForStamp(w, place + SIGNATURE_VALUE)) == Some(f.token))
  }

  /** The digests of pass one are digests in every later working document. */
  lemma DigestsStay(doc: Node, plans: seq<Plan>, signing: Signing, b: Backend, later: seq<Filling>, i: nat, j: nat)
    requires Runnable(doc, plans) && Matching(plans, later) && i < |plans| && plans[i] in plans && j < |plans[i].references|
    requires Digested(doc, plans, signing, b).Ok? && later[i].digests == Digested(doc, plans, signing, b).value[i].digests
    ensures DigestFits(WorkingDocument(doc, plans, signing, later), plans[i].references[j].uri,
                       TargetPath(doc, plans, plans[i], j), later[i].digests[j], b)
  {
    hide WorkingDocument, IdMap, Fresh, Place, Canonical, TargetPath, AimedPlan, TrimHashes;
    var w0 := WorkingDocument(doc, plans, signing, Skeletons(plans));
    DigestEachAt(w0, plans, Skeletons(plans), b);
    DigestsAt(w0, plans[i].references, b);
    TargetFound(doc, plans, signing, Skeletons(plans), i, j);
    TargetFound(doc, plans, signing, later, i, j);
    TargetStable(doc, plans, signing, Skeletons(plans), later, i, j);
  }

  /** Later stages keep what earlier ones wrote. */
  predicate Keeps(s: Stages, i: nat) {
    && i < |s.digested| && i < |s.signed| && i < |s.final|
    && s.digested[i].digests == s.signed[i].digests == s.final[i].digests
    && s.signed[i].value == s.final[i].value
  }

  lemma LaterStages(doc: Node, plans: seq<Plan>, signing: Signing, b: Backend, i: nat)
    requires AllInsertable(doc, plans) && RunPasses(doc, plans, signing, b).Ok? && i < |plans|
    ensures Keeps(RunPasses(doc, plans, signing, b).value, i)
  {
    hide WorkingDocument, SignatureChild, Canonical, CanonicalForStamp, Digested;
    var s := RunPasses(doc, plans, signing, b).value;
    SignEachAt(WorkingDocument(doc, plans, signing, s.digested), plans, s.digested, b, 0);
    if signing.timestamped {
      StampEachAt(WorkingDocument(doc, plans, signing, s.signed), plans, s.signed, b, 0);
    }
  }

  lemma ValueStays(doc: Node, plans: seq<Plan>, signing: Signing, b: Backend, i: nat)
    requires Runnable(doc, plans) && RunPasses(doc, plans, signing, b).Ok? && i < |plans| && plans[i] in plans
    ensures var final := RunPasses(doc, plans, signing, b).value.final;
            ValueFits(WorkingDocument(doc, plans, signing, final), Place(doc, plans[i]), final[i], b, i, false)
  {
    hide WorkingDocument, SignatureChild, Digested, Stamped, Octets, IdMap, Fresh, AimedPlan, Place;
    var s := RunPasses(doc, plans, signing, b).value;
    LaterStages(doc, plans, signing, b, i);
    SignEachAt(WorkingDocument(doc, plans, signing, s.digested), plans, s.digested, b, 0);
    ChildrenFound(doc, plans, signing, s.digested, i);
    PartOctets(doc, plans, signing, s.digested, s.final, i, SIGNED_INFO, Exclusive(false));
  }

  lemma TokenStays(doc: Node, plans: seq<Plan>, signing: Signing, b: Backend, i: nat)
    requires Runnable(doc, plans) && RunPasses(doc, plans, signing, b).Ok? && i < |plans| && plans[i] in plans
    ensures var final := RunPasses(doc, plans, signing, b).value.final;
            ValueFits(WorkingDocument(doc, plans, signing, final), Place(doc, plans[i]), final[i], b, i, signing.timestamped)
  {
    hide WorkingDocument, SignatureChild, Digested, Signed, Octets, IdMap, Fresh, AimedPlan, Place;
    ValueStays(doc, plans, signing, b, i);
    if signing.timestamped {
      var s := RunPasses(doc, plans, signing, b).value;
      LaterStages(doc, plans, signing, b, i);
      StampEachAt(WorkingDocument(doc, plans, signing, s.signed), plans, s.signed, b, 0);
      ChildrenFound(doc, plans, signing, s.signed, i);
      PartOctets(doc, plans, signing, s.signed, s.final, i, SIGNATURE_VALUE, Inclusive(false));
    }
  }

  /** Every signature of the document fits that document. */
  predicate Consistent(w: Node, doc: Node, plans: seq<Plan>, signing: Signing, fills: seq<Filling>, b: Backend)
    requires Runnable(doc, plans) && Matching(plans, fills)
  {
    forall i :: 0 <= i < |plans| ==>
      && plans[i] in plans
      && ValueFits(w, Place(doc, plans[i]), fills[i], b, i, signing.timestamped)
      && forall j :: 0 <= j < |plans[i].references| ==>
           DigestFits(w, plans[i].references[j].uri, TargetPath(doc, plans, plans[i], j), fills[i].digests[j], b)
  }

  /** Three-pass consistency. */
  lemma ThreePassConsistency(doc: Node, plans: seq<Plan>, signing: Signing, b: Backend)
    requires Runnable(doc, plans) && RunPasses(doc, plans, signing, b).Ok?
    ensures var final := RunPasses(doc, plans, signing, b).value.final;
            Consistent(WorkingDocument(doc, plans, signing, final), doc, plans, signing, final, b)
  {
    hide WorkingDocument, Digested, Signed, Stamped, IdMap, Fresh, AimedPlan, Place, DigestFits, ValueFits, TargetPath;
    var s := RunPasses(doc, plans, signing, b).value;
    var w := WorkingDocument(doc, plans, signing, s.final);
    forall i | 0 <= i < |plans|
      ensures plans[i] in plans && ValueFits(w, Place(doc, plans[i]), s.final[i], b, i, signing.timestamped)
      ensures forall j :: 0 <= j < |plans[i].references| ==>
                DigestFits(w, plans[i].references[j].uri, TargetPath(doc, plans, plans[i], j), s.final[i].digests[j], b)
    {
      assert plans[i] in plans;
      LaterStages(doc, plans, signing, b, i);
      TokenStays(doc, plans, signing, b, i);
      forall j | 0 <= j < |plans[i].references|
        ensures DigestFits(w, plans[i].references[j].uri, TargetPath(doc, plans, plans[i], j), s.final[i].digests[j], b)
      {
        DigestsStay(doc, plans, signing, b, s.final, i, j);
      }
    }
  }

  // ---------------------------------------------------------- when a run fails

  lemma {:induction false} DigestsFound(doc: Node, refs: seq<PlannedReference>, b: Backend)
    requires forall j :: 0 <= j < |refs| ==> FoundById(doc, TrimHashes(refs[j].uri)).Some?
    ensures DigestsOf(doc, refs, b).Ok?
  {
    hide Canonical, FoundById, TrimHashes;
    if refs != [] {
      forall j | 0 <= j < |refs[1..]|
        ensures FoundById(doc, TrimHashes(refs[1..][j].uri)).Some?
      {
        assert refs[1..][j] == refs[j + 1];
      }
      assert FoundById(doc, TrimHashes(refs[0].uri)).Some?;
      DigestsFound(doc, refs[1..], b);
    }
  }

  lemma {:induction false} EachDigested(doc: Node, plans: seq<Plan>, fills: seq<Filling>, b: Backend)
    requires |plans| == |fills|
    requires forall i :: 0 <= i < |plans| ==> DigestsOf(doc, plans[i].references, b).Ok? && FoundById(doc, plans[i].id).Some?
    ensures DigestEach(doc, plans, fills, b).Ok?
  {
    hide DigestsOf, FoundById;
    if plans != [] {
      forall i | 0 <= i < |plans[1..]|
        ensures DigestsOf(doc, plans[1..][i].references, b).Ok? && FoundById(doc, plans[1..][i].id).Some?
      {
        assert plans[1..][i] == plans[i + 1];
      }
      assert DigestsOf(doc, plans[0].references, b).Ok? && FoundById(doc, plans[0].id).Some?;
      EachDigested(doc, plans[1..], fills[1..], b);
    }
  }

  /** Pass one never fails: every reference a plan makes resolves once the signatures are in place. */
  lemma DigestingNeverFails(doc: Node, plans: seq<Plan>, signing: Signing, b: Backend)
    requires Runnable(doc, plans)
    ensures Digested(doc, plans, signing, b).Ok?
  {
    hide WorkingDocument, IdMap, Fresh, Place, Canonical, TargetPath, AimedPlan, DigestsOf, DigestEach;
    var fills := Skeletons(plans);
    var w := WorkingDocument(doc, plans, signing, fills);
    forall i | 0 <= i < |plans|
      ensures DigestsOf(w, plans[i].references, b).Ok? && FoundById(w, plans[i].id).Some?
    {
      assert plans[i] in plans;
      ChildrenFound(doc, plans, signing, fills, i);
      forall j | 0 <= j < |plans[i].references|
        ensures FoundById(w, TrimHashes(plans[i].references[j].uri)).Some?
      {
        TargetFound(doc, plans, signing, fills, i, j);
      }
      DigestsFound(w, plans[i].references, b);
    }
    EachDigested(w, plans, fills, b);
  }
}
