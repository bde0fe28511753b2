/**
 What a reference digests is what it covers.

 `Emitted` lists the elements the renderer writes, in the order it writes them.
 For every chain without a Base64 step those are exactly the elements the
 effective node set covers (section 4.4.3.3 of XMLDSig 1.1 and its section 6.6.4
 for the enveloped-signature transform), and for every chain at all a node
 outside the apex, or inside the removed signature, has no say in the octets.
 */
module ReferenceTheorems {
  import opened Wrappers
  import opened XmlTree
  import opened Ids
  import opened C14n
  import opened C14nReader
  import opened C14nMeaning
  import opened C14nTheorems
  import opened References

  // --------------------------------------------------- what the renderer writes

  function Emitted(excluded: seq<Path>, path: Path, node: Node): seq<Path>
    requires node.Element?
    decreases node, 1
  {
    [path] + EmittedKids(excluded, path, node.children, 0)
  }

  function EmittedKids(excluded: seq<Path>, parent: Path, kids: seq<Node>, k: nat): seq<Path>
    decreases kids, 0
  {
    if kids == [] then []
    else (if parent + [k] in excluded || !kids[0].Element? then [] else Emitted(excluded, parent + [k], kids[0]))
         + EmittedKids(excluded, parent, kids[1..], k + 1)
  }

  /** The elements a node set renders, in output order. */
  function EmittedBy(doc: Node, nodes: NodeSet): seq<Path>
    requires Target(doc, nodes.apex)
  {
    var apex := At(doc, nodes.apex);
    if apex.Element? then Emitted(nodes.excluded, nodes.apex, apex)
    else EmittedKids(nodes.excluded, nodes.apex, apex.children, 0)
  }

  /** The start tags of a canonical forest, in output order. */
  function Tags(c: Canon): seq<string>
    decreases c, 1
  {
    if c.CElement? then [c.qname] + TagsOf(c.children) else []
  }

  function TagsOf(cs: seq<Canon>): seq<string>
    decreases cs, 0
  {
    if cs == [] then [] else Tags(cs[0]) + TagsOf(cs[1..])
  }

  function TagsAlong(doc: Node, paths: seq<Path>): seq<string>
    requires forall p :: p in paths ==> IsElement(doc, p)
  {
    if paths == [] then []
    else
      assert IsElement(doc, paths[0]);
      [At(doc, paths[0]).qname] + TagsAlong(doc, paths[1..])
  }

  lemma {:induction false} TagsAlongConcat(doc: Node, a: seq<Path>, b: seq<Path>)
    requires forall p :: p in a + b ==> IsElement(doc, p)
    ensures forall p :: p in a ==> IsElement(doc, p)
    ensures forall p :: p in b ==> IsElement(doc, p)
    ensures TagsAlong(doc, a + b) == TagsAlong(doc, a) + TagsAlong(doc, b)
  {
    assert forall p :: p in a || p in b ==> p in a + b;
    if a == [] {
      assert a + b == b;
    } else {
      assert a + b == [a[0]] + (a[1..] + b);
      TagsAlongConcat(doc, a[1..], b);
    }
  }

  lemma {:induction false} TagsConcat(a: seq<Canon>, b: seq<Canon>)
    ensures TagsOf(a + b) == TagsOf(a) + TagsOf(b)
  {
    if a == [] {
      assert a + b == b;
    } else {
      assert (a + b)[1..] == a[1..] + b;
      TagsConcat(a[1..], b);
    }
  }

  /** `Emitted` is what canonicalization writes: the same tags in the same order. */
  lemma {:induction false} EmittedIsWritten(doc: Node, env: Env, path: Path, node: Node, outer: Scope, state: NsStack)
    requires Valid(doc, path) && At(doc, path) == node && node.Element?
    ensures forall p :: p in Emitted(env.nodes.excluded, path, node) ==> IsElement(doc, p)
    ensures Tags(CanonElement(env, path, node, outer, state)) == TagsAlong(doc, Emitted(env.nodes.excluded, path, node))
    decreases node, 1
  {
    var scope := Extend(node.decls, outer);
    var kids := EmittedKids(env.nodes.excluded, path, node.children, 0);
    KidsEmittedIsWritten(doc, env, path, node, node.children, 0, scope, state + NamespaceAxis(env, node, scope, state));
    assert ([path] + kids)[1..] == kids;
  }

  lemma {:induction false} KidsEmittedIsWritten(doc: Node, env: Env, path: Path, node: Node, kids: seq<Node>, k: nat,
                                                outer: Scope, state: NsStack)
    requires Valid(doc, path) && At(doc, path) == node && k <= |Kids(node)| && kids == Kids(node)[k..]
    ensures forall p :: p in EmittedKids(env.nodes.excluded, path, kids, k) ==> IsElement(doc, p)
    ensures TagsOf(CanonKids(env, path, kids, k, outer, state))
         == TagsAlong(doc, EmittedKids(env.nodes.excluded, path, kids, k))
    decreases kids, 0
  {
    if kids != [] {
      assert kids[1..] == Kids(node)[k + 1..];
      KidsEmittedIsWritten(doc, env, path, node, kids[1..], k + 1, outer, state);
      AtConcat(doc, path, [k]);
      assert [k][1..] == [];
      var first := CanonNode(env, path + [k], kids[0], outer, state);
      TagsConcat(first, CanonKids(env, path, kids[1..], k + 1, outer, state));
      if path + [k] !in env.nodes.excluded && kids[0].Element? {
        EmittedIsWritten(doc, env, path + [k], kids[0], outer, state);
        assert first == [CanonElement(env, path + [k], kids[0], outer, state)];
        assert TagsOf(first) == Tags(first[0]) + TagsOf(first[1..]);
        TagsAlongConcat(doc, Emitted(env.nodes.excluded, path + [k], kids[0]),
                        EmittedKids(env.nodes.excluded, path, kids[1..], k + 1));
      } else {
        assert TagsOf(first) == [];
        assert [] + EmittedKids(env.nodes.excluded, path, kids[1..], k + 1)
            == EmittedKids(env.nodes.excluded, path, kids[1..], k + 1);
      }
    }
  }

  /** At the top level of the document. */
  lemma {:induction false} TopEmittedIsWritten(doc: Node, env: Env, kids: seq<Node>, k: nat, seen: bool)
    requires doc.Root? && k <= |doc.children| && kids == doc.children[k..]
    ensures forall p :: p in EmittedKids(env.nodes.excluded, [], kids, k) ==> IsElement(doc, p)
    ensures TagsOf(TopForest(env, kids, k, seen)) == TagsAlong(doc, EmittedKids(env.nodes.excluded, [], kids, k))
    decreases kids
  {
    hide CanonElement, Emitted, ShowsComments;
    if kids != [] {
      assert kids[1..] == doc.children[k + 1..] && [] + [k] == [k] && [k][1..] == [];
      TopEmittedIsWritten(doc, env, kids[1..], k + 1, seen);
      TopEmittedIsWritten(doc, env, kids[1..], k + 1, true);
      var below := EmittedKids(env.nodes.excluded, [], kids[1..], k + 1);
      if [k] in env.nodes.excluded || !kids[0].Element? {
        assert [] + below == below;
        if [k] !in env.nodes.excluded && (kids[0].PI? || (kids[0].Comment? && ShowsComments(env))) {
          LayoutHasNoTags(CanonNode(env, [k], kids[0], BASE_SCOPE, [])[0], TopForest(env, kids[1..], k + 1, seen));
        }
      } else {
        EmittedIsWritten(doc, env, [k], kids[0], BASE_SCOPE, []);
        var c, rest := CanonElement(env, [k], kids[0], BASE_SCOPE, []), TopForest(env, kids[1..], k + 1, true);
        assert ([c] + rest)[1..] == rest;
        TagsAlongConcat(doc, Emitted(env.nodes.excluded, [k], kids[0]), below);
      }
    }
  }

  lemma LayoutHasNoTags(misc: Canon, rest: seq<Canon>)
    requires !misc.CElement?
    ensures TagsOf([misc, CText("\n")] + rest) == TagsOf(rest) && TagsOf([CText("\n"), misc] + rest) == TagsOf(rest)
  {
    var newline := CText("\n");
    NoTag(newline, rest);
    NoTag(misc, rest);
    NoTag(misc, [newline] + rest);
    NoTag(newline, [misc] + rest);
    assert [misc, newline] + rest == [misc] + ([newline] + rest) && [newline, misc] + rest == [newline] + ([misc] + rest);
  }

  lemma NoTag(c: Canon, rest: seq<Canon>)
    requires !c.CElement?
    ensures TagsOf([c] + rest) == TagsOf(rest)
  {
    assert ([c] + rest)[1..] == rest && [] + TagsOf(rest) == TagsOf(rest);
  }

  lemma PrependTags(c: Canon, rest: seq<Canon>)
    ensures TagsOf(Prepend(c, rest)) == Tags(c) + TagsOf(rest)
  {
    if !c.CText? || (c.text != "" && !(rest != [] && rest[0].CText?)) {
      assert ([c] + rest)[1..] == rest;
    } else if c.text != "" {
      var joined := CText(c.text + rest[0].text);
      assert ([joined] + rest[1..])[1..] == rest[1..];
    }
  }

  /** Merging text touches no tag. */
  lemma {:induction false} MergeTags(c: Canon)
    ensures Tags(Merge(c)) == Tags(c)
    decreases c, 1
  {
    if c.CElement? { MergeAllTags(c.children); }
  }

  lemma {:induction false} MergeAllTags(cs: seq<Canon>)
    ensures TagsOf(MergeAll(cs)) == TagsOf(cs)
    decreases cs, 0
  {
    if cs != [] {
      MergeTags(cs[0]);
      MergeAllTags(cs[1..]);
      PrependTags(Merge(cs[0]), MergeAll(cs[1..]));
    }
  }

  /** The tags a reader finds in the octets of a forest. */
  lemma TagsRead(cs: seq<Canon>)
    requires NamesLegalAll(cs)
    ensures TagsOf(ReadNodes(PrintAll(cs)).0) == TagsOf(cs)
  {
    hide ReadNodes;
    MergeAllPrints(cs);
    MergeAllIsLegal(cs);
    MergeAllTags(cs);
    assert PrintAll(MergeAll(cs)) + "" == PrintAll(cs);
    ReadsBack(MergeAll(cs), "");
  }

  /** The start tags in the octets of a node set are those of the elements it emits, in order. */
  lemma TagsInOctets(doc: Node, nodes: NodeSet, algorithm: Algorithm, prefixes: seq<string>)
    requires WellFormed(doc) && Target(doc, nodes.apex)
    ensures forall p :: p in EmittedBy(doc, nodes) ==> IsElement(doc, p)
    ensures TagsOf(ReadNodes(Octets(doc, nodes, algorithm, prefixes)).0) == TagsAlong(doc, EmittedBy(doc, nodes))
  {
    hide ReadNodes, WellNamed, CanonKids, NamespaceAxis, AttributeAxis, NamesLegal, TagsOf;
    var env, apex := EnvOf(doc, nodes, algorithm, prefixes), At(doc, nodes.apex);
    if apex.Root? {
      RootAlone(doc, nodes.apex);
      assert doc.children[0..] == doc.children;
      TopPrints(env, doc.children, 0, false);
      TopUnderstood(env, doc.children, 0, false);
      TagsRead(TopForest(env, doc.children, 0, false));
      TopEmittedIsWritten(doc, env, doc.children, 0, false);
    } else {
      var scope := ScopeAbove(doc, nodes.apex, BASE_SCOPE);
      ContextAt(doc, nodes.apex);
      ElementLegal(env, nodes.apex, apex, scope, []);
      EmittedIsWritten(doc, env, nodes.apex, apex, scope, []);
      OneTagsRead(CanonElement(env, nodes.apex, apex, scope, []));
    }
  }

  lemma OneTagsRead(c: Canon)
    requires NamesLegal(c)
    ensures TagsOf(ReadNodes(Print(c)).0) == Tags(c)
  {
    hide Print, ReadNodes, NamesLegal, Tags;
    OnePrint(c, []);
    assert [c] + [] == [c] && [c][1..] == [] && PrintAll([]) == [] && Print(c) + [] == Print(c) && Tags(c) + [] == Tags(c);
    TagsRead([c]);
  }

  /** Every element below the document node hangs from elements only. */
  predicate RootFree(node: Node)
    decreases node, 0
  {
    !node.Root? && (node.Element? ==> RootFreeAll(node.children))
  }

  predicate RootFreeAll(kids: seq<Node>)
    decreases kids, 1
  {
    kids == [] || (RootFree(kids[0]) && RootFreeAll(kids[1..]))
  }

  lemma {:induction false} NamedIsRootFree(node: Node, outer: Scope)
    requires WellNamed(node, outer)
    ensures RootFree(node)
    decreases node, 0
  {
    if node.Element? { NamedAreRootFree(node.children, Extend(node.decls, outer)); }
  }

  lemma {:induction false} NamedAreRootFree(kids: seq<Node>, outer: Scope)
    requires WellNamedAll(kids, outer)
    ensures RootFreeAll(kids)
    decreases kids, 1
  {
    if kids != [] {
      NamedIsRootFree(kids[0], outer);
      NamedAreRootFree(kids[1..], outer);
    }
  }

  /** Some removed node lies strictly below `top` on the way to `p`, or is `p`. */
  predicate CutBelow(excluded: seq<Path>, top: Path, p: Path) {
    exists e :: e in excluded && top < e <= p
  }

  lemma {:induction false} EmittedExact(excluded: seq<Path>, path: Path, node: Node, p: Path)
    requires node.Element? && RootFree(node)
    ensures p in Emitted(excluded, path, node)
       <==> path <= p && IsElement(node, p[|path|..]) && !CutBelow(excluded, path, p)
    decreases node, 1
  {
    EmittedKidsExact(excluded, path, node.children, 0, p);
    if path <= p && p != path {
      var r := p[|path|..];
      assert p[|path|] == r[0] && p[|path| + 1..] == r[1..];
    }
  }

  lemma {:induction false} EmittedKidsExact(excluded: seq<Path>, parent: Path, kids: seq<Node>, k: nat, p: Path)
    requires RootFreeAll(kids)
    ensures p in EmittedKids(excluded, parent, kids, k)
       <==> parent < p && k <= p[|parent|] < k + |kids| && IsElement(kids[p[|parent|] - k], p[|parent| + 1..])
            && !CutBelow(excluded, parent, p)
    decreases kids, 0
  {
    if kids != [] {
      EmittedKidsExact(excluded, parent, kids[1..], k + 1, p);
      BelowKid(parent, k, p);
      if parent + [k] <= p {
        CutStep(excluded, parent, k, p);
      }
      if kids[0].Element? {
        EmittedExact(excluded, parent + [k], kids[0], p);
      } else if parent + [k] <= p {
        assert Kids(kids[0]) == [];
      }
    }
  }

  lemma CutStep(excluded: seq<Path>, parent: Path, k: nat, p: Path)
    requires parent + [k] <= p
    ensures CutBelow(excluded, parent, p) <==> parent + [k] in excluded || CutBelow(excluded, parent + [k], p)
  {
    var kid := parent + [k];
    if CutBelow(excluded, parent, p) && kid !in excluded {
      var e :| e in excluded && parent < e <= p;
      assert kid <= e && e != kid;
    }
    if kid in excluded {
      assert parent < kid;
    }
    if CutBelow(excluded, kid, p) {
      var e :| e in excluded && kid < e <= p;
      assert parent < e;
    }
  }

  lemma EmittedByExact(doc: Node, nodes: NodeSet, p: Path)
    requires WellFormed(doc) && Target(doc, nodes.apex)
    ensures p in EmittedBy(doc, nodes)
       <==> nodes.apex <= p && IsElement(doc, p) && !CutBelow(nodes.excluded, nodes.apex, p)
  {
    var apex := At(doc, nodes.apex);
    NamedAreRootFree(doc.children, BASE_SCOPE);
    if nodes.apex <= p {
      var r := p[|nodes.apex|..];
      assert p == nodes.apex + r;
      AtConcat(doc, nodes.apex, r);
    }
    if nodes.apex != [] {
      ContextFree(doc, nodes.apex);
      EmittedExact(nodes.excluded, nodes.apex, apex, p);
    } else {
      EmittedKidsExact(nodes.excluded, [], doc.children, 0, p);
    }
  }

  lemma ContextFree(doc: Node, p: Path)
    requires WellFormed(doc) && Valid(doc, p) && p != []
    ensures RootFree(At(doc, p))
  {
    PickNamed(doc.children, p[0], BASE_SCOPE);
    NamedIsRootFree(doc.children[p[0]], BASE_SCOPE);
    RootFreeBelow(doc.children[p[0]], p[1..]);
  }

  lemma {:induction false} RootFreeBelow(node: Node, p: Path)
    requires RootFree(node) && Valid(node, p)
    ensures RootFree(At(node, p))
  {
    if p != [] {
      PickRootFree(node.children, p[0]);
      RootFreeBelow(node.children[p[0]], p[1..]);
    }
  }

  lemma {:induction false} PickRootFree(kids: seq<Node>, k: nat)
    requires RootFreeAll(kids) && k < |kids|
    ensures RootFree(kids[k])
  {
    if k > 0 { PickRootFree(kids[1..], k - 1); }
  }

  // ------------------------------------------------- digest and coverage agree

  predicate UsesBase64(steps: seq<TransformStep>) {
    exists s :: s in steps && TransformOf(s.uri) == Some(Base64)
  }

  predicate UsesEnveloped(steps: seq<TransformStep>) {
    exists s :: s in steps && TransformOf(s.uri) == Some(EnvelopedSignature)
  }

  /** What one chain renders: a node set, an algorithm and a prefix list. */
  datatype Rendering = Rendering(nodes: NodeSet, algorithm: Algorithm, prefixes: seq<string>)

  /** A processed chain without Base64 is some number of enveloped-signature steps and then at most
      one canonicalization; it renders one node set, and the scope tracks its exclusions. */
  lemma {:induction false} ChainRenders(doc: Node, library: Library, signature: Path, steps: seq<TransformStep>,
                                        nodes: NodeSet, scope: ReferenceScope) returns (r: Rendering)
    requires Target(doc, nodes.apex) && !UsesBase64(steps)
    requires ApplyAll(doc, library, signature, steps, Nodes(nodes)).Some?
    requires scope == ReferenceScope(Some(nodes.apex), nodes.excluded, false)
    requires forall e :: e in nodes.excluded ==> !(e <= nodes.apex)
    ensures r.nodes.apex == nodes.apex && r.nodes.commentsExcluded == nodes.commentsExcluded
    ensures forall e :: e in r.nodes.excluded ==> !(e <= nodes.apex)
    ensures Narrow(scope, signature, steps) == ReferenceScope(Some(nodes.apex), r.nodes.excluded, false)
    ensures FinalOctets(doc, ApplyAll(doc, library, signature, steps, Nodes(nodes)).value)
         == Octets(doc, r.nodes, r.algorithm, r.prefixes)
    decreases |steps|
  {
    if steps == [] {
      r := Rendering(nodes, Inclusive(false), []);
    } else {
      assert steps[0] in steps;
      assert forall s :: s in steps[1..] ==> s in steps;
      match TransformOf(steps[0].uri) {
        case Some(EnvelopedSignature) =>
          var less := nodes.(excluded := nodes.excluded + [signature]);
          r := ChainRenders(doc, library, signature, steps[1..], less, scope.(excluded := less.excluded));
        case Some(Canonicalization(algorithm)) =>
          r := Rendering(nodes, algorithm, steps[0].prefixes);
          NoStepAfterOctets(doc, library, signature, steps[1..], Octets(doc, nodes, algorithm, steps[0].prefixes));
        case _ => assert false;
      }
    }
  }

  lemma NoStepAfterOctets(doc: Node, library: Library, signature: Path, steps: seq<TransformStep>, octets: string)
    requires !UsesBase64(steps)
    ensures steps != [] ==> ApplyAll(doc, library, signature, steps, Bytes(octets)).None?
  {
    assert steps != [] ==> steps[0] in steps;
  }

  /** Digest and coverage agree: a chain without Base64 that can be processed digests the rendering of one node set;
      the start tags in its octets are, in order, those of the elements that node set emits, and these are exactly
      the elements the scope covers. */
  lemma DigestReadsWhatIsCovered(doc: Node, library: Library, signature: Path, steps: seq<TransformStep>, node: Path)
    returns (r: Rendering)
    requires WellFormed(doc) && Target(doc, node) && !UsesBase64(steps)
    requires DigestOctets(doc, library, signature, steps, node).Some?
    ensures Target(doc, r.nodes.apex) && r.nodes.apex == node && r.nodes.commentsExcluded
    ensures DigestOctets(doc, library, signature, steps, node) == Some(Octets(doc, r.nodes, r.algorithm, r.prefixes))
    ensures forall p :: p in EmittedBy(doc, r.nodes)
                   <==> IsElement(doc, p) && Covers(EffectiveNodeSet(signature, steps, node), p)
    ensures TagsOf(ReadNodes(DigestOctets(doc, library, signature, steps, node).value).0) == TagsAlong(doc, EmittedBy(doc, r.nodes))
  {
    hide ReadNodes, Tags, TagsAlong;
    r := ChainRenders(doc, library, signature, steps, WithoutComments(Subtree(node)), ReferenceScope(Some(node), [], false));
    forall p
      ensures p in EmittedBy(doc, r.nodes)
         <==> IsElement(doc, p) && Covers(EffectiveNodeSet(signature, steps, node), p)
    {
      EmittedByExact(doc, r.nodes, p);
      if node <= p {
        AboveIsCut(r.nodes.excluded, node, p);
      }
    }
    TagsInOctets(doc, r.nodes, r.algorithm, r.prefixes);
  }

  lemma AboveIsCut(excluded: seq<Path>, apex: Path, p: Path)
    requires apex <= p && forall e :: e in excluded ==> !(e <= apex)
    ensures AnyAbove(excluded, p) <==> CutBelow(excluded, apex, p)
  {
    if AnyAbove(excluded, p) {
      var e :| e in excluded && e <= p;
      assert apex < e;
    }
  }

  // -------------------------------------------------- the rest is never read

  /** `p` is outside the apex, or inside a removed subtree below it. */
  predicate Unread(nodes: NodeSet, p: Path) {
    Disjoint(p, nodes.apex) || CutBelow(nodes.excluded, nodes.apex, p)
  }

  lemma ApexSurvives(doc: Node, apex: Path, p: Path, m: Node)
    requires Target(doc, apex) && Valid(doc, p) && (Disjoint(p, apex) || apex < p)
    ensures Target(ReplaceAt(doc, p, m), apex)
  {
    if apex < p {
      ReplaceAbove(doc, p, m, apex);
      var a, b := At(ReplaceAt(doc, p, m), apex), At(doc, apex);
      assert WithKids(a, []).Root? || WithKids(a, []).Element? by { assert WithKids(a, []) == WithKids(b, []); }
    } else {
      ReplaceApart(doc, p, m, apex);
    }
  }

  /** The view of the apex when a node strictly below it is replaced. */
  lemma {:induction false} ReplaceBelowApex(doc: Node, apex: Path, p: Path, m: Node, outer: Scope)
    requires Valid(doc, p) && apex < p
    ensures Valid(doc, apex) && Valid(ReplaceAt(doc, p, m), apex) && Valid(At(doc, apex), p[|apex|..])
    ensures At(ReplaceAt(doc, p, m), apex) == ReplaceAt(At(doc, apex), p[|apex|..], m)
    ensures ScopeAbove(ReplaceAt(doc, p, m), apex, outer) == ScopeAbove(doc, apex, outer)
    ensures XmlAbove(ReplaceAt(doc, p, m), apex) == XmlAbove(doc, apex)
  {
    if apex != [] {
      assert p[|apex|..] == p[1..][|apex[1..]|..];
      ReplaceBelowApex(Kids(doc)[p[0]], apex[1..], p[1..], m, Extend(DeclsOf(doc), outer));
    } else {
      assert p[0..] == p;
    }
  }

  lemma TailsAgree(env: Env, a: seq<Node>, b: seq<Node>, k: nat, seen: bool)
    requires a != [] && b != [] && a[0] == b[0]
    requires PrintTopLevel(env, a[1..], k + 1, false) == PrintTopLevel(env, b[1..], k + 1, false)
    requires PrintTopLevel(env, a[1..], k + 1, true) == PrintTopLevel(env, b[1..], k + 1, true)
    ensures PrintTopLevel(env, a, k, seen) == PrintTopLevel(env, b, k, seen)
  {
    hide CanonElement, CanonNode, Print, PrintMisc;
  }

  lemma HeadsAgree(env: Env, a: seq<Node>, b: seq<Node>, k: nat, seen: bool)
    requires a != [] && b != [] && a[1..] == b[1..]
    requires [k] in env.nodes.excluded
          || (a[0].Element? && b[0].Element?
              && CanonElement(env, [k], a[0], BASE_SCOPE, []) == CanonElement(env, [k], b[0], BASE_SCOPE, []))
    ensures PrintTopLevel(env, a, k, seen) == PrintTopLevel(env, b, k, seen)
  {
    hide CanonElement, CanonNode, Print, PrintMisc;
  }

  lemma HeadUnread(env: Env, kid: Node, k: nat, r: Path, cut: Path, m: Node)
    requires cut != [] && cut <= r && cut in env.nodes.excluded && r[0] == k && Valid(kid, r[1..]) && RootFree(kid)
    ensures var now := ReplaceAt(kid, r[1..], m);
            || [k] in env.nodes.excluded
            || (kid.Element? && now.Element? && CanonElement(env, [k], now, BASE_SCOPE, []) == CanonElement(env, [k], kid, BASE_SCOPE, []))
  {
    hide CanonElement;
    if cut != [k] {
      assert cut == [k] + cut[1..];
      ExcludedUnread(env, [k], kid, r[1..], cut[1..], m, BASE_SCOPE, []);
    }
  }

  lemma {:induction false} TopLevelUnread(env: Env, kids: seq<Node>, k: nat, seen: bool, r: Path, cut: Path, m: Node)
    requires cut != [] && cut <= r && cut in env.nodes.excluded
    requires k <= r[0] < k + |kids| && Valid(kids[r[0] - k], r[1..])
    requires RootFreeAll(kids)
    ensures PrintTopLevel(env, kids[r[0] - k := ReplaceAt(kids[r[0] - k], r[1..], m)], k, seen)
         == PrintTopLevel(env, kids, k, seen)
    decreases kids
  {
    hide PrintTopLevel, ReplaceAt, Valid, CanonElement, RootFree;
    var i := r[0] - k;
    var now := kids[i := ReplaceAt(kids[i], r[1..], m)];
    if i > 0 {
      assert now[1..] == kids[1..][i - 1 := ReplaceAt(kids[i], r[1..], m)];
      TopLevelUnread(env, kids[1..], k + 1, false, r, cut, m);
      TopLevelUnread(env, kids[1..], k + 1, true, r, cut, m);
      TailsAgree(env, now, kids, k, seen);
    } else {
      HeadUnread(env, kids[0], k, r, cut, m);
      assert now[1..] == kids[1..];
      HeadsAgree(env, now, kids, k, seen);
    }
  }

  lemma OctetsApart(doc: Node, nodes: NodeSet, algorithm: Algorithm, prefixes: seq<string>, p: Path, m: Node)
    requires Target(doc, nodes.apex) && Valid(doc, p) && Disjoint(p, nodes.apex)
    ensures Target(ReplaceAt(doc, p, m), nodes.apex)
    ensures Octets(ReplaceAt(doc, p, m), nodes, algorithm, prefixes) == Octets(doc, nodes, algorithm, prefixes)
  {
    ApexSurvives(doc, nodes.apex, p, m);
    ReplaceKeepsView(doc, p, m, nodes.apex, BASE_SCOPE);
    SameViewSameOctets(doc, ReplaceAt(doc, p, m), nodes, algorithm, prefixes);
  }

  /** Octets depend on the document only through the apex's view of it. */
  lemma SameViewSameOctets(doc: Node, doc': Node, nodes: NodeSet, algorithm: Algorithm, prefixes: seq<string>)
    requires Target(doc, nodes.apex) && Target(doc', nodes.apex)
    requires ViewAt(doc, nodes.apex, BASE_SCOPE) == ViewAt(doc', nodes.apex, BASE_SCOPE)
    ensures Octets(doc, nodes, algorithm, prefixes) == Octets(doc', nodes, algorithm, prefixes)
  {
    var v, v' := ViewAt(doc, nodes.apex, BASE_SCOPE), ViewAt(doc', nodes.apex, BASE_SCOPE);
    assert v.node == v'.node && v.scope == v'.scope && v.inherited == v'.inherited;
  }

  lemma OctetsCut(doc: Node, nodes: NodeSet, algorithm: Algorithm, prefixes: seq<string>, p: Path, m: Node, cut: Path)
    requires WellFormed(doc) && Target(doc, nodes.apex) && Valid(doc, p)
    requires cut in nodes.excluded && nodes.apex < cut <= p
    ensures Target(ReplaceAt(doc, p, m), nodes.apex)
    ensures Octets(ReplaceAt(doc, p, m), nodes, algorithm, prefixes) == Octets(doc, nodes, algorithm, prefixes)
  {
    ApexSurvives(doc, nodes.apex, p, m);
    ReplaceBelowApex(doc, nodes.apex, p, m, BASE_SCOPE);
    var env := EnvOf(doc, nodes, algorithm, prefixes);
    var r, c := p[|nodes.apex|..], cut[|nodes.apex|..];
    assert nodes.apex + c == cut && c <= r;
    if nodes.apex == [] {
      assert c == cut && r == p;
      NamedAreRootFree(doc.children, BASE_SCOPE);
      TopLevelUnread(env, doc.children, 0, false, r, c, m);
    } else {
      ContextFree(doc, nodes.apex);
      ExcludedUnread(env, nodes.apex, At(doc, nodes.apex), r, c, m, ScopeAbove(doc, nodes.apex, BASE_SCOPE), []);
    }
  }

  /** Canonical octets do not change when a node they do not read is replaced. */
  lemma OctetsUnread(doc: Node, nodes: NodeSet, algorithm: Algorithm, prefixes: seq<string>, p: Path, m: Node)
    requires WellFormed(doc) && Target(doc, nodes.apex) && Valid(doc, p) && Unread(nodes, p)
    ensures Target(ReplaceAt(doc, p, m), nodes.apex)
    ensures Octets(ReplaceAt(doc, p, m), nodes, algorithm, prefixes) == Octets(doc, nodes, algorithm, prefixes)
  {
    if Disjoint(p, nodes.apex) {
      OctetsApart(doc, nodes, algorithm, prefixes, p, m);
    } else {
      var cut :| cut in nodes.excluded && nodes.apex < cut <= p;
      OctetsCut(doc, nodes, algorithm, prefixes, p, m, cut);
    }
  }

  lemma {:induction false} CollectUnread(excluded: seq<Path>, path: Path, node: Node, r: Path, cut: Path, m: Node)
    requires Valid(node, r) && cut != [] && cut <= r && path + cut in excluded
    ensures CollectText(excluded, path, ReplaceAt(node, r, m)) == CollectText(excluded, path, node)
    decreases node, 1
  {
    assert node.Root? || node.Element?;
    CollectsUnread(excluded, path, node.children, 0, r, cut, m);
  }

  lemma {:induction false} CollectsUnread(excluded: seq<Path>, parent: Path, kids: seq<Node>, k: nat, r: Path, cut: Path, m: Node)
    requires cut != [] && cut <= r && parent + cut in excluded
    requires k <= r[0] < k + |kids| && Valid(kids[r[0] - k], r[1..])
    ensures CollectTexts(excluded, parent, kids[r[0] - k := ReplaceAt(kids[r[0] - k], r[1..], m)], k)
         == CollectTexts(excluded, parent, kids, k)
    decreases kids, 0
  {
    var i := r[0] - k;
    var now := kids[i := ReplaceAt(kids[i], r[1..], m)];
    if i > 0 {
      assert now[1..] == kids[1..][i - 1 := ReplaceAt(kids[i], r[1..], m)];
      CollectsUnread(excluded, parent, kids[1..], k + 1, r, cut, m);
    } else {
      assert now[1..] == kids[1..];
      if cut != [r[0]] {
        assert parent + cut == parent + [k] + cut[1..];
        CollectUnread(excluded, parent + [k], kids[0], r[1..], cut[1..], m);
      } else {
        assert parent + cut == parent + [k];
      }
    }
  }

  lemma StringValueUnread(doc: Node, nodes: NodeSet, p: Path, m: Node)
    requires Target(doc, nodes.apex) && Valid(doc, p) && Unread(nodes, p)
    ensures Target(ReplaceAt(doc, p, m), nodes.apex)
    ensures StringValue(ReplaceAt(doc, p, m), nodes) == StringValue(doc, nodes)
  {
    ApexSurvives(doc, nodes.apex, p, m);
    if Disjoint(p, nodes.apex) {
      ReplaceApart(doc, p, m, nodes.apex);
    } else {
      var cut :| cut in nodes.excluded && nodes.apex < cut <= p;
      ReplaceBelowApex(doc, nodes.apex, p, m, BASE_SCOPE);
      var r, c := p[|nodes.apex|..], cut[|nodes.apex|..];
      assert nodes.apex + c == cut;
      CollectUnread(nodes.excluded, nodes.apex, At(doc, nodes.apex), r, c, m);
    }
  }

  /** Once octets are reached only Base64 may follow. */
  lemma {:induction false} OctetsThenEnveloped(doc: Node, library: Library, signature: Path, steps: seq<TransformStep>,
                                               octets: string)
    requires UsesEnveloped(steps)
    ensures ApplyAll(doc, library, signature, steps, Bytes(octets)).None?
    decreases |steps|
  {
    var next := Apply(doc, library, signature, steps[0], Bytes(octets));
    if next.Some? {
      var s :| s in steps && TransformOf(s.uri) == Some(EnvelopedSignature);
      assert steps == [steps[0]] + steps[1..];
      assert s in steps[1..];
      OctetsThenEnveloped(doc, library, signature, steps[1..], next.value.octets);
    }
  }

  lemma {:induction false} BytesIgnoreDocument(doc: Node, doc': Node, library: Library, signature: Path,
                                               steps: seq<TransformStep>, octets: string)
    ensures ApplyAll(doc, library, signature, steps, Bytes(octets))
         == ApplyAll(doc', library, signature, steps, Bytes(octets))
    ensures var r := ApplyAll(doc, library, signature, steps, Bytes(octets)); r.Some? ==> r.value.Bytes?
    decreases |steps|
  {
    if steps != [] {
      var next := Apply(doc, library, signature, steps[0], Bytes(octets));
      if next.Some? { BytesIgnoreDocument(doc, doc', library, signature, steps[1..], next.value.octets); }
    }
  }

  /** One step over a node set that does not read `p`. */
  lemma StepUnread(doc: Node, library: Library, signature: Path, step: TransformStep, nodes: NodeSet, p: Path, m: Node)
    requires WellFormed(doc) && Target(doc, nodes.apex) && Valid(doc, p) && Unread(nodes, p)
    ensures Target(ReplaceAt(doc, p, m), nodes.apex)
    ensures var r := Apply(doc, library, signature, step, Nodes(nodes));
            && r == Apply(ReplaceAt(doc, p, m), library, signature, step, Nodes(nodes))
            && (r.Some? && r.value.Nodes? ==> r.value.nodes.apex == nodes.apex && Unread(r.value.nodes, p))
  {
    StringValueUnread(doc, nodes, p, m);
    match TransformOf(step.uri) {
      case Some(Canonicalization(algorithm)) => OctetsUnread(doc, nodes, algorithm, step.prefixes, p, m);
      case Some(EnvelopedSignature) =>
        var more := nodes.excluded + [signature];
        if CutBelow(nodes.excluded, nodes.apex, p) {
          var e :| e in nodes.excluded && nodes.apex < e <= p;
          assert e in more;
        }
      case _ =>
    }
  }

  lemma {:induction false} ChainUnread(doc: Node, library: Library, signature: Path, steps: seq<TransformStep>,
                                       nodes: NodeSet, p: Path, m: Node)
    requires WellFormed(doc) && Target(doc, nodes.apex) && Valid(doc, p) && Unread(nodes, p)
    ensures Target(ReplaceAt(doc, p, m), nodes.apex)
    ensures var r := ApplyAll(doc, library, signature, steps, Nodes(nodes));
            && r == ApplyAll(ReplaceAt(doc, p, m), library, signature, steps, Nodes(nodes))
            && (r.Some? && r.value.Nodes? ==> r.value.nodes.apex == nodes.apex && Unread(r.value.nodes, p))
    decreases |steps|
  {
    var doc' := ReplaceAt(doc, p, m);
    ApexSurvives(doc, nodes.apex, p, m);
    if steps != [] {
      hide Octets, StringValue, ReplaceAt, Valid, At, Unread, WellFormed, TransformOf;
      StepUnread(doc, library, signature, steps[0], nodes, p, m);
      var next := Apply(doc, library, signature, steps[0], Nodes(nodes));
      if next.Some? {
        match next.value {
          case Nodes(less) => ChainUnread(doc, library, signature, steps[1..], less, p, m);
          case Bytes(octets) => BytesIgnoreDocument(doc, doc', library, signature, steps[1..], octets);
        }
      }
    }
  }

  lemma NowUnread(nodes: NodeSet, signature: Path, p: Path)
    requires signature in nodes.excluded && nodes.apex < signature <= p
    ensures Unread(nodes, p)
  {}

  /** A chain that still has its enveloped-signature step ahead either removes the signature before it
      reaches octets, or fails. */
  lemma {:induction false} EnvelopedUnread(doc: Node, library: Library, signature: Path, steps: seq<TransformStep>,
                                           nodes: NodeSet, p: Path, m: Node)
    requires WellFormed(doc) && Target(doc, nodes.apex) && Valid(doc, p)
    requires nodes.apex < p && signature <= p && UsesEnveloped(steps)
    ensures Target(ReplaceAt(doc, p, m), nodes.apex)
    ensures var r := ApplyAll(doc, library, signature, steps, Nodes(nodes));
            && r == ApplyAll(ReplaceAt(doc, p, m), library, signature, steps, Nodes(nodes))
            && (r.Some? && r.value.Nodes? ==> r.value.nodes.apex == nodes.apex && Unread(r.value.nodes, p))
  {
    hide Octets, StringValue, ReplaceAt, Valid, At, Unread, WellFormed, TransformOf;
    var doc' := ReplaceAt(doc, p, m);
    ApexSurvives(doc, nodes.apex, p, m);
    var next := Apply(doc, library, signature, steps[0], Nodes(nodes));
    var next' := Apply(doc', library, signature, steps[0], Nodes(nodes));
    if TransformOf(steps[0].uri) == Some(EnvelopedSignature) {
      if next.Some? {
        NowUnread(next.value.nodes, signature, p);
        ChainUnread(doc, library, signature, steps[1..], next.value.nodes, p, m);
      }
    } else {
      var s :| s in steps && TransformOf(s.uri) == Some(EnvelopedSignature);
      assert steps == [steps[0]] + steps[1..];
      assert s in steps[1..];
      if next.Some? { OctetsThenEnveloped(doc, library, signature, steps[1..], next.value.octets); }
      if next'.Some? { OctetsThenEnveloped(doc', library, signature, steps[1..], next'.value.octets); }
    }
  }

  /** Replacing a subtree outside the apex, or inside the signature an enveloped-signature transform
      removes, changes no octet any chain digests and makes no chain succeed or fail. */
  lemma UnreadIsIrrelevant(doc: Node, library: Library, signature: Path, steps: seq<TransformStep>, node: Path,
                           p: Path, m: Node)
    requires WellFormed(doc) && Target(doc, node) && Valid(doc, p)
    requires Disjoint(p, node) || (node < p && signature <= p && UsesEnveloped(steps))
    ensures Target(ReplaceAt(doc, p, m), node)
    ensures DigestOctets(ReplaceAt(doc, p, m), library, signature, steps, node)
         == DigestOctets(doc, library, signature, steps, node)
  {
    var nodes := WithoutComments(Subtree(node));
    if Disjoint(p, node) {
      ChainUnread(doc, library, signature, steps, nodes, p, m);
    } else {
      EnvelopedUnread(doc, library, signature, steps, nodes, p, m);
    }
    var r := ApplyAll(doc, library, signature, steps, Nodes(nodes));
    if r.Some? && r.value.Nodes? {
      OctetsUnread(doc, r.value.nodes, Inclusive(false), [], p, m);
    }
  }
}
