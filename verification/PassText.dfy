/** What a pass writes into the text of each signature is the text of its next stage. */
module PassText {
  import opened XmlTree
  import opened SourceText
  import opened Splicing
  import opened Placeholders
  import opened Growth
  import opened Names
  import opened SignatureXml
  import opened SignatureFilling
  import opened Planner
  import opened Working
  import opened Passes

  /** The containers' end tags are written out, as those of elements with content are. */
  predicate ClosedContainers(doc: Node, plans: seq<Plan>) {
    forall p :: p in plans ==> Insertable(doc, p) && At(doc, p.container).close != ""
  }

  /** The substitutions of one pass, one list per signature. */
  predicate PassAdvances(plans: seq<Plan>, values: seq<seq<Substitution>>, fills: seq<Filling>, next: seq<Filling>) {
    && |plans| == |values| == |fills| == |next|
    && forall i :: 0 <= i < |plans| ==> Advances(plans[i], values[i], fills[i], next[i])
  }

  /** What a pass does to one signature's text is the next stage of its tree. */
  lemma FragmentFollows(plan: Plan, signing: Signing, values: seq<Substitution>, f: Filling, next: Filling)
    requires TidyPlan(plan) && TidySigning(signing) && Advances(plan, values, f, next)
    ensures FillFragment(Source(SignatureOf(plan, signing, f)), values) == Source(SignatureOf(plan, signing, next))
  {
    hide Source, CleanFor, Fill, FillFragment, TidySigning, TidyReferences, IsPlain, Slots;
    PassSwaps(plan.id, signing, plan.references, f, values);
    SignatureIsElement(plan, signing, f);
    PassFillsTree(SignatureOf(plan, signing, f), values);
  }

  lemma SignatureIsElement(plan: Plan, signing: Signing, f: Filling)
    requires |plan.references| == |f.digests|
    ensures SignatureOf(plan, signing, f).Element?
  {
    hide SignatureKids;
  }

  lemma SignatureHasText(plan: Plan, signing: Signing, f: Filling)
    requires |plan.references| == |f.digests|
    ensures Source(SignatureOf(plan, signing, f)) != ""
  {
    hide SignatureKids, SourceAll;
  }

  /** One pass, signature by signature. */
  lemma SignaturesLead(plans: seq<Plan>, signing: Signing, values: seq<seq<Substitution>>, fills: seq<Filling>, next: seq<Filling>)
    requires TidySigning(signing) && forall p :: p in plans ==> TidyPlan(p)
    requires PassAdvances(plans, values, fills, next)
    ensures Matching(plans, fills) && Matching(plans, next)
    ensures AllLead(Signatures(plans, signing, fills), values, Signatures(plans, signing, next))
  {
    hide SignatureNode, Source, Advances, TidyPlan, TidySigning, LeadsTo;
    AdvanceMatches(plans, values, fills, next);
    forall i | 0 <= i < |plans|
      ensures LeadsTo(SignatureOf(plans[i], signing, fills[i]), values[i], SignatureOf(plans[i], signing, next[i]))
    {
      assert plans[i] in plans && Advances(plans[i], values[i], fills[i], next[i]);
      SignatureLeads(plans[i], signing, values[i], fills[i], next[i]);
    }
  }

  lemma SignatureLeads(plan: Plan, signing: Signing, values: seq<Substitution>, f: Filling, next: Filling)
    requires TidyPlan(plan) && TidySigning(signing) && Advances(plan, values, f, next)
    ensures |plan.references| == |f.digests| == |next.digests|
    ensures LeadsTo(SignatureOf(plan, signing, f), values, SignatureOf(plan, signing, next))
  {
    hide SignatureNode, Source, TidyPlan, TidySigning, Slots, OurHole, FillFragment;
    SignatureHasText(plan, signing, f);
    FragmentFollows(plan, signing, values, f, next);
  }

  lemma AdvanceMatches(plans: seq<Plan>, values: seq<seq<Substitution>>, fills: seq<Filling>, next: seq<Filling>)
    requires PassAdvances(plans, values, fills, next)
    ensures Matching(plans, fills) && Matching(plans, next)
  {}
}
