/**
 The working documents of a run: the original with one signature appended to
 each plan's container, every signature with some filling.

 A node that is not a container or above one is, in every working document,
 what it was. A node of a signature is decided by that signature's filling and
 by the container's place in the original. Hence an identifier names the same
 node in every working document, and a pass that replaces the signatures of one
 working document yields the next one.
 */
module Working {
  import opened XmlTree
  import opened Growth
  import opened SignatureXml
  import opened Planner

  /** A plan whose container is an element with something in it. */
  predicate Insertable(doc: Node, plan: Plan) {
    Spot(doc, plan.container)
  }

  predicate AllInsertable(doc: Node, plans: seq<Plan>) {
    && (forall p :: p in plans ==> Insertable(doc, p))
    && (forall i, j :: 0 <= i < j < |plans| ==> Disjoint(plans[i].container, plans[j].container))
  }

  /** One filling per plan, with one digest per reference. */
  predicate Matching(plans: seq<Plan>, fills: seq<Filling>) {
    |plans| == |fills| && forall i :: 0 <= i < |plans| ==> |plans[i].references| == |fills[i].digests|
  }

  /** The path of a plan's signature. */
  function Place(doc: Node, plan: Plan): Path
    requires Insertable(doc, plan)
  {
    NextKid(doc, plan.container)
  }

  function SignatureOf(plan: Plan, signing: Signing, f: Filling): Node
    requires |plan.references| == |f.digests|
  {
    SignatureNode(plan.id, signing, plan.references, f)
  }

  function Containers(plans: seq<Plan>): (r: seq<Path>)
    ensures |r| == |plans| && forall i :: 0 <= i < |plans| ==> r[i] == plans[i].container
  {
    seq(|plans|, i requires 0 <= i < |plans| => plans[i].container)
  }

  /** The signatures of a stage, plan by plan. */
  predicate AreSignatures(kids: seq<Node>, plans: seq<Plan>, signing: Signing, fills: seq<Filling>)
    requires Matching(plans, fills)
  {
    |kids| == |plans| && forall i :: 0 <= i < |plans| ==> kids[i] == SignatureOf(plans[i], signing, fills[i])
  }

  function Signatures(plans: seq<Plan>, signing: Signing, fills: seq<Filling>): (r: seq<Node>)
    requires Matching(plans, fills)
    ensures AreSignatures(r, plans, signing, fills)
  {
    seq(|plans|, i requires 0 <= i < |plans| => SignatureOf(plans[i], signing, fills[i]))
  }

  lemma ContainersAreSpots(doc: Node, plans: seq<Plan>)
    requires AllInsertable(doc, plans)
    ensures Spots(doc, Containers(plans))
  {
    forall q | q in Containers(plans)
      ensures Spot(doc, q) && exists p :: p in plans && p.container == q
    {
      var i :| 0 <= i < |Containers(plans)| && Containers(plans)[i] == q;
      assert plans[i] in plans && Insertable(doc, plans[i]);
    }
  }

  /** The document with every signature in place. */
  function WorkingDocument(doc: Node, plans: seq<Plan>, signing: Signing, fills: seq<Filling>): Node
    requires AllInsertable(doc, plans) && Matching(plans, fills)
  {
    ContainersAreSpots(doc, plans);
    Grown(doc, Containers(plans), Signatures(plans, signing, fills))
  }

  /** A node at or above no container sees in every working document what it saw in the original. */
  lemma OldNodeView(doc: Node, plans: seq<Plan>, signing: Signing, fills: seq<Filling>, t: Path)
    requires AllInsertable(doc, plans) && Matching(plans, fills)
    requires Valid(doc, t) && forall p :: p in plans ==> !(t <= p.container)
    ensures Valid(WorkingDocument(doc, plans, signing, fills), t)
    ensures ViewAt(WorkingDocument(doc, plans, signing, fills), t, BASE_SCOPE) == ViewAt(doc, t, BASE_SCOPE)
  {
    hide SignatureNode, Grown, ViewAt;
    ContainersAreSpots(doc, plans);
    forall q | q in Containers(plans)
      ensures !(t <= q)
    {
      var i :| 0 <= i < |Containers(plans)| && Containers(plans)[i] == q;
      assert plans[i] in plans;
    }
    OldView(doc, Containers(plans), Signatures(plans, signing, fills), t);
  }

  lemma NewNodeView(doc: Node, plans: seq<Plan>, signing: Signing, fills: seq<Filling>, i: nat, r: Path)
    requires AllInsertable(doc, plans) && Matching(plans, fills) && i < |plans|
    requires plans[i] in plans && Valid(SignatureOf(plans[i], signing, fills[i]), r)
    ensures var w := WorkingDocument(doc, plans, signing, fills); var t := Place(doc, plans[i]) + r;
            && Valid(w, t)
            && ViewAt(w, t, BASE_SCOPE) == NewView(doc, plans[i].container, SignatureOf(plans[i], signing, fills[i]), r)
  {
    hide SignatureNode, Grown, ViewAt, NewView, NextKid;
    ContainersAreSpots(doc, plans);
    assert Containers(plans)[i] in Containers(plans);
    AddedView(doc, Containers(plans), Signatures(plans, signing, fills), i, r);
  }

  lemma SignaturesInPlace(doc: Node, plans: seq<Plan>, signing: Signing, fills: seq<Filling>)
    requires AllInsertable(doc, plans) && Matching(plans, fills)
    ensures forall i :: 0 <= i < |plans| ==>
              && plans[i] in plans
              && Valid(WorkingDocument(doc, plans, signing, fills), Place(doc, plans[i]))
              && At(WorkingDocument(doc, plans, signing, fills), Place(doc, plans[i])) == SignatureOf(plans[i], signing, fills[i])
  {
    hide SignatureNode, Grown, NextKid;
    ContainersAreSpots(doc, plans);
    var qs := Containers(plans);
    KidsInPlace(doc, qs, Signatures(plans, signing, fills));
    forall i | 0 <= i < |plans|
      ensures plans[i] in plans && qs[i] in qs
    {}
  }
}
