/**
 The inventory's walk over a signature's own elements: an explicit stack that
 never descends into a nested signature.
 */
module Inventory {
  import opened XmlTree
  import opened Ids
  import opened Scope
  import opened ReferenceTheorems

  // ------------------------------------------------------------- the recursive walk

  /** The elements of some siblings and below them, leaving out every signature with all it holds. */
  function OwnOf(kids: seq<Node>, parent: Path, k: nat): seq<Path>
    decreases kids, 0
  {
    if kids == [] then [] else Own(kids[0], parent + [k]) + OwnOf(kids[1..], parent, k + 1)
  }

  function Own(node: Node, path: Path): seq<Path>
    decreases node, 1
  {
    if !node.Element? || IsDsSignature(node) then [] else [path] + OwnOf(node.children, path, 0)
  }

  /** What the walk of the element at `root` visits. */
  function OwnBelow(doc: Node, root: Path): seq<Path>
    requires Valid(doc, root)
  {
    OwnOf(Kids(At(doc, root)), root, 0)
  }

  // ---------------------------------------------------------------- what it visits

  /** No signature at or above `p` strictly below `top`. */
  ghost predicate Free(doc: Node, top: Path, p: Path) {
    forall q :: top < q <= p && Valid(doc, q) ==> !IsDsSignature(At(doc, q))
  }

  function Kept(doc: Node, top: Path, paths: seq<Path>): seq<Path> {
    if paths == [] then []
    else (if NoneAbove(doc, top, paths[0]) then [paths[0]] else []) + Kept(doc, top, paths[1..])
  }

  /** `Free`, by its finitely many ancestors. */
  predicate NoneAbove(doc: Node, top: Path, p: Path) {
    forall n :: |top| < n <= |p| && Valid(doc, p[..n]) ==> !IsDsSignature(At(doc, p[..n]))
  }

  lemma NoneAboveIsFree(doc: Node, top: Path, p: Path)
    requires top <= p
    ensures NoneAbove(doc, top, p) <==> Free(doc, top, p)
  {
    if NoneAbove(doc, top, p) {
      forall q | top < q <= p && Valid(doc, q)
        ensures !IsDsSignature(At(doc, q))
      {
        assert q == p[..|q|];
      }
    }
    if Free(doc, top, p) {
      forall n | |top| < n <= |p| && Valid(doc, p[..n])
        ensures !IsDsSignature(At(doc, p[..n]))
      {
        assert top < p[..n] <= p;
      }
    }
  }

  lemma {:induction false} KeptConcat(doc: Node, top: Path, a: seq<Path>, b: seq<Path>)
    ensures Kept(doc, top, a + b) == Kept(doc, top, a) + Kept(doc, top, b)
  {
    hide NoneAbove;
    if a == [] {
      assert a + b == b;
    } else {
      assert (a + b)[1..] == a[1..] + b;
      KeptConcat(doc, top, a[1..], b);
    }
  }

  lemma {:induction false} NoneKept(doc: Node, top: Path, paths: seq<Path>)
    requires forall p :: p in paths ==> !NoneAbove(doc, top, p)
    ensures Kept(doc, top, paths) == []
  {
    hide NoneAbove;
    if paths != [] { NoneKept(doc, top, paths[1..]); }
  }

  lemma OneMore(doc: Node, top: Path, path: Path, k: nat)
    requires NoneAbove(doc, top, path) && top <= path && Valid(doc, path + [k])
    ensures NoneAbove(doc, top, path + [k]) <==> !IsDsSignature(At(doc, path + [k]))
  {
    hide IsDsSignature, Valid, At;
    var p := path + [k];
    assert p[..|p|] == p;
    forall n | |top| < n <= |path|
      ensures p[..n] == path[..n]
    {}
  }

  lemma BelowASignature(doc: Node, top: Path, path: Path, p: Path)
    requires top < path <= p && Valid(doc, path) && IsDsSignature(At(doc, path))
    ensures !NoneAbove(doc, top, p)
  {
    assert p[..|path|] == path;
  }

  lemma {:induction false} OwnIsKept(doc: Node, top: Path, node: Node, parent: Path, k: nat)
    requires top <= parent && NoneAbove(doc, top, parent) && IsAt(doc, parent + [k], node) && RootFree(node)
    ensures Own(node, parent + [k]) == Kept(doc, top, Elements(node, parent + [k]))
    decreases node, 1
  {
    var path := parent + [k];
    if node.Element? {
      if IsDsSignature(node) {
        forall p | p in Elements(node, path)
          ensures !NoneAbove(doc, top, p)
        {
          ElementsExact(node, path, p);
          BelowASignature(doc, top, path, p);
        }
        NoneKept(doc, top, Elements(node, path));
      } else {
        hide Valid, At, IsDsSignature, NoneAbove;
        OneMore(doc, top, parent, k);
        OwnOfIsKept(doc, top, node, path, node.children, 0);
        KeptConcat(doc, top, [path], ElementsOf(node.children, path, 0));
        JustOne(doc, top, path);
      }
    } else {
      NotElements(node, path);
    }
  }

  lemma JustOne(doc: Node, top: Path, path: Path)
    requires NoneAbove(doc, top, path)
    ensures Kept(doc, top, [path]) == [path]
  {
    hide NoneAbove;
    var one: seq<Path> := [path];
    assert one[1..] == [];
  }

  lemma NotElements(node: Node, path: Path)
    requires !node.Element? && !node.Root?
    ensures Elements(node, path) == []
  {}

  lemma {:induction false} OwnOfIsKept(doc: Node, top: Path, node: Node, path: Path, kids: seq<Node>, k: nat)
    requires top <= path && NoneAbove(doc, top, path) && IsAt(doc, path, node)
    requires k <= |Kids(node)| && kids == Kids(node)[k..] && RootFreeAll(kids)
    ensures OwnOf(kids, path, k) == Kept(doc, top, ElementsOf(kids, path, k))
    decreases kids, 0
  {
    hide NoneAbove;
    if kids != [] {
      AtConcat(doc, path, [k]);
      assert [k][1..] == [];
      assert kids[1..] == Kids(node)[k + 1..];
      OwnIsKept(doc, top, kids[0], path, k);
      OwnOfIsKept(doc, top, node, path, kids[1..], k + 1);
      KeptConcat(doc, top, Elements(kids[0], path + [k]), ElementsOf(kids[1..], path, k + 1));
    }
  }

  lemma TopIsFree(doc: Node, top: Path)
    ensures NoneAbove(doc, top, top)
  {}

  /** The walk visits, once each and in document order, exactly the descendant elements with no signature
      at or above them below the root. */
  lemma WalkExact(doc: Node, root: Path)
    requires IsElement(doc, root) && RootFree(At(doc, root))
    ensures OwnBelow(doc, root) == Kept(doc, root, ElementsOf(Kids(At(doc, root)), root, 0))
    ensures forall p :: p in OwnBelow(doc, root) <==> root < p && IsElement(doc, p) && Free(doc, root, p)
  {
    var node := At(doc, root);
    assert Kids(node)[0..] == Kids(node);
    TopIsFree(doc, root);
    OwnOfIsKept(doc, root, node, root, Kids(node), 0);
    forall p
      ensures p in OwnBelow(doc, root) <==> root < p && IsElement(doc, p) && Free(doc, root, p)
    {
      KeptMembers(doc, root, ElementsOf(Kids(node), root, 0), p);
      BelowIsListed(doc, root, p);
      if root <= p { NoneAboveIsFree(doc, root, p); }
    }
  }

  lemma BelowIsListed(doc: Node, root: Path, p: Path)
    requires IsElement(doc, root)
    ensures p in ElementsOf(Kids(At(doc, root)), root, 0) <==> root < p && IsElement(doc, p)
  {
    var kids := Kids(At(doc, root));
    ElementsOfExact(kids, root, 0, p);
    if root < p {
      var r := p[|root|..];
      assert p == root + r && r[0] == p[|root|] && r[1..] == p[|root| + 1..];
      AtConcat(doc, root, r);
    }
  }

  lemma {:induction false} KeptMembers(doc: Node, top: Path, paths: seq<Path>, p: Path)
    ensures p in Kept(doc, top, paths) <==> p in paths && NoneAbove(doc, top, p)
  {
    hide NoneAbove;
    if paths != [] {
      assert paths == [paths[0]] + paths[1..];
      KeptMembers(doc, top, paths[1..], p);
    }
  }

  // -------------------------------------------------------------- the stack walk

  /** The element children, in order. */
  function ElementKids(kids: seq<Node>, parent: Path, k: nat): seq<Path> {
    if kids == [] then []
    else (if kids[0].Element? then [parent + [k]] else []) + ElementKids(kids[1..], parent, k + 1)
  }

  function Reverse(paths: seq<Path>): seq<Path> {
    if paths == [] then [] else Reverse(paths[1..]) + [paths[0]]
  }

  /** What is still to be visited: the top of the stack first. */
  function StackWalk(doc: Node, stack: seq<Path>): seq<Path>
    requires AllValidPaths(doc, stack)
    decreases |stack|
  {
    if stack == [] then []
    else
      var top := stack[|stack| - 1];
      assert top in stack;
      assert forall p :: p in stack[..|stack| - 1] ==> p in stack;
      Own(At(doc, top), top) + StackWalk(doc, stack[..|stack| - 1])
  }

  function Size(node: Node): nat
    decreases node, 1
  {
    1 + if node.Root? || node.Element? then SizeAll(node.children) else 0
  }

  function SizeAll(kids: seq<Node>): nat
    decreases kids, 0
  {
    if kids == [] then 0 else Size(kids[0]) + SizeAll(kids[1..])
  }

  function Weight(doc: Node, stack: seq<Path>): nat
    requires AllValidPaths(doc, stack)
    decreases |stack|
  {
    if stack == [] then 0
    else
      var top := stack[|stack| - 1];
      assert top in stack;
      assert forall p :: p in stack[..|stack| - 1] ==> p in stack;
      Size(At(doc, top)) + Weight(doc, stack[..|stack| - 1])
  }

  lemma PopOne(doc: Node, rest: seq<Path>, top: Path)
    requires AllValidPaths(doc, rest) && Valid(doc, top)
    ensures AllValidPaths(doc, rest + [top])
    ensures StackWalk(doc, rest + [top]) == Own(At(doc, top), top) + StackWalk(doc, rest)
    ensures Weight(doc, rest + [top]) == Size(At(doc, top)) + Weight(doc, rest)
  {
    hide Valid, At, Own, Size;
    assert (rest + [top])[..|rest|] == rest;
  }

  /** Pushing the children in reverse puts their walk in front. */
  lemma {:induction false} Pushed(doc: Node, rest: seq<Path>, node: Node, path: Path, kids: seq<Node>, k: nat)
    requires AllValidPaths(doc, rest) && IsAt(doc, path, node) && k <= |Kids(node)| && kids == Kids(node)[k..]
    ensures var stack := rest + Reverse(ElementKids(kids, path, k));
            && AllValidPaths(doc, stack)
            && StackWalk(doc, stack) == OwnOf(kids, path, k) + StackWalk(doc, rest)
            && Weight(doc, stack) <= SizeAll(kids) + Weight(doc, rest)
    decreases kids
  {
    hide Own, Size, Valid, StackWalk, Weight;
    if kids == [] {
      assert rest + [] == rest && [] + StackWalk(doc, rest) == StackWalk(doc, rest);
    } else {
      assert kids[1..] == Kids(node)[k + 1..];
      Pushed(doc, rest, node, path, kids[1..], k + 1);
      var more := ElementKids(kids[1..], path, k + 1);
      var below := rest + Reverse(more);
      if kids[0].Element? {
        KidIsAt(doc, path, node, k);
        assert ([path + [k]] + more)[1..] == more;
        assert rest + (Reverse(more) + [path + [k]]) == below + [path + [k]];
        PopOne(doc, below, path + [k]);
        PathsRegroup(Own(kids[0], path + [k]), OwnOf(kids[1..], path, k + 1), StackWalk(doc, rest));
      } else {
        assert [] + more == more;
        assert Own(kids[0], path + [k]) == [] by { NotOwn(kids[0], path + [k]); }
        assert [] + OwnOf(kids[1..], path, k + 1) == OwnOf(kids[1..], path, k + 1);
      }
    }
  }

  lemma NotOwn(node: Node, path: Path)
    requires !node.Element?
    ensures Own(node, path) == []
  {}

  lemma KidIsAt(doc: Node, path: Path, node: Node, k: nat)
    requires IsAt(doc, path, node) && k < |Kids(node)|
    ensures IsAt(doc, path + [k], Kids(node)[k])
  {
    AtConcat(doc, path, [k]);
    assert [k][1..] == [];
  }

  lemma PathsRegroup(a: seq<Path>, b: seq<Path>, c: seq<Path>)
    ensures a + (b + c) == a + b + c
  {}

  /** What one turn of the loop keeps. */
  predicate Walking(doc: Node, root: Path, stack: seq<Path>, visited: seq<Path>) {
    && Valid(doc, root) && AllValidPaths(doc, stack)
    && (forall p :: p in stack ==> Valid(doc, p) && At(doc, p).Element?)
    && visited + StackWalk(doc, stack) == OwnBelow(doc, root)
  }

  lemma {:induction false} KidsAreElements(doc: Node, path: Path, node: Node, kids: seq<Node>, k: nat)
    requires IsAt(doc, path, node) && k <= |Kids(node)| && kids == Kids(node)[k..]
    ensures forall p :: p in Reverse(ElementKids(kids, path, k)) ==> Valid(doc, p) && At(doc, p).Element?
  {
    if kids != [] {
      assert kids[1..] == Kids(node)[k + 1..];
      KidsAreElements(doc, path, node, kids[1..], k + 1);
      KidIsAt(doc, path, node, k);
      var more := ElementKids(kids[1..], path, k + 1);
      assert ([path + [k]] + more)[1..] == more;
      assert [] + more == more;
    }
  }

  lemma WalkStarts(doc: Node, root: Path)
    requires Valid(doc, root)
    ensures Walking(doc, root, Reverse(ElementKids(Kids(At(doc, root)), root, 0)), [])
  {
    hide StackWalk, Valid, At, OwnOf, ElementKids, Weight;
    var node := At(doc, root);
    assert Kids(node)[0..] == Kids(node);
    Pushed(doc, [], node, root, Kids(node), 0);
    KidsAreElements(doc, root, node, Kids(node), 0);
    var stack := Reverse(ElementKids(Kids(node), root, 0));
    assert [] + stack == stack;
    NothingStacked(doc);
    assert OwnBelow(doc, root) + [] == OwnBelow(doc, root) && [] + OwnBelow(doc, root) == OwnBelow(doc, root);
  }

  lemma NothingStacked(doc: Node)
    ensures AllValidPaths(doc, []) && StackWalk(doc, []) == []
  {}

  lemma WalkGoesOn(doc: Node, root: Path, rest: seq<Path>, top: Path, visited: seq<Path>)
    requires Walking(doc, root, rest + [top], visited)
    ensures Valid(doc, top) && At(doc, top).Element? && AllValidPaths(doc, rest)
    ensures Weight(doc, rest) < Weight(doc, rest + [top])
    ensures IsDsSignature(At(doc, top)) ==> Walking(doc, root, rest, visited)
    ensures !IsDsSignature(At(doc, top)) ==>
              var stack := rest + Reverse(ElementKids(Kids(At(doc, top)), top, 0));
              && Walking(doc, root, stack, visited + [top])
              && AllValidPaths(doc, stack) && Weight(doc, stack) < Weight(doc, rest + [top])
  {
    hide StackWalk, Weight, Valid, At, OwnBelow, IsDsSignature;
    assert top in rest + [top] && forall p :: p in rest ==> p in rest + [top];
    PopOne(doc, rest, top);
    var node := At(doc, top);
    assert Kids(node)[0..] == Kids(node);
    Pushed(doc, rest, node, top, Kids(node), 0);
    KidsAreElements(doc, top, node, Kids(node), 0);
    if IsDsSignature(node) {
      assert [] + StackWalk(doc, rest) == StackWalk(doc, rest);
    } else {
      PathsRegroup(visited, [top], OwnOf(Kids(node), top, 0) + StackWalk(doc, rest));
      PathsRegroup([top], OwnOf(Kids(node), top, 0), StackWalk(doc, rest));
    }
  }

  /** The walk with its stack is the recursive walk. */
  method WalkOwn(doc: Node, root: Path) returns (visited: seq<Path>)
    requires Valid(doc, root)
    ensures visited == OwnBelow(doc, root)
  {
    hide StackWalk, Weight, Walking, OwnBelow, ElementKids;
    var stack := Reverse(ElementKids(Kids(At(doc, root)), root, 0));
    visited := [];
    WalkStarts(doc, root);
    assert AllValidPaths(doc, stack) by { WalkingIsValid(doc, root, stack, visited); }
    while stack != []
      invariant Walking(doc, root, stack, visited) && AllValidPaths(doc, stack)
      decreases Weight(doc, stack)
    {
      var node, rest := stack[|stack| - 1], stack[..|stack| - 1];
      assert stack == rest + [node];
      WalkGoesOn(doc, root, rest, node, visited);
      stack := rest;
      if !IsDsSignature(At(doc, node)) {
        visited := visited + [node];
        stack := stack + Reverse(ElementKids(Kids(At(doc, node)), node, 0));
      }
    }
    WalkEnds(doc, root, visited);
  }

  lemma WalkingIsValid(doc: Node, root: Path, stack: seq<Path>, visited: seq<Path>)
    requires Walking(doc, root, stack, visited)
    ensures AllValidPaths(doc, stack)
  {}

  lemma WalkEnds(doc: Node, root: Path, visited: seq<Path>)
    requires Walking(doc, root, [], visited)
    ensures visited == OwnBelow(doc, root)
  {
    assert visited + [] == visited;
  }
}
