/**
 Elements in document order, and the two ways a same-document identifier is
 resolved: the verifier's validated ID map over `Id`, `ID` and `id`, and the
 signer's search for the first element whose `Id` it is.
 */
module Ids {
  import opened Wrappers
  import opened XmlTree

  // --------------------------------------------------------- document order

  /** The paths of the elements of a subtree, in document order. */
  function Elements(node: Node, base: Path): seq<Path>
    decreases node, 1
  {
    (if node.Element? then [base] else [])
    + (if node.Root? || node.Element? then ElementsOf(node.children, base, 0) else [])
  }

  function ElementsOf(kids: seq<Node>, parent: Path, k: nat): seq<Path>
    decreases kids, 0
  {
    if kids == [] then [] else Elements(kids[0], parent + [k]) + ElementsOf(kids[1..], parent, k + 1)
  }

  predicate IsElement(doc: Node, p: Path) {
    Valid(doc, p) && At(doc, p).Element?
  }

  lemma BelowKid(parent: Path, k: nat, p: Path)
    ensures parent + [k] <= p <==> parent < p && p[|parent|] == k
    ensures parent + [k] <= p ==> p[|parent + [k]|..] == p[|parent| + 1..]
  {}

  /** The walk reaches exactly the element nodes. */
  lemma {:induction false} ElementsExact(node: Node, base: Path, p: Path)
    ensures p in Elements(node, base) <==> base <= p && IsElement(node, p[|base|..])
    decreases node, 1
  {
    if node.Root? || node.Element? { ElementsOfExact(node.children, base, 0, p); }
    if base <= p && p != base {
      var r := p[|base|..];
      assert p[|base|] == r[0] && p[|base| + 1..] == r[1..];
    }
  }

  lemma {:induction false} ElementsOfExact(kids: seq<Node>, parent: Path, k: nat, p: Path)
    ensures p in ElementsOf(kids, parent, k)
       <==> parent < p && k <= p[|parent|] < k + |kids| && IsElement(kids[p[|parent|] - k], p[|parent| + 1..])
    decreases kids, 0
  {
    if kids != [] {
      ElementsExact(kids[0], parent + [k], p);
      ElementsOfExact(kids[1..], parent, k + 1, p);
      BelowKid(parent, k, p);
    }
  }

  // ------------------------------------------------------------- attributes

  /** The value of an attribute in no namespace. */
  function AttrValue(attrs: seq<Attr>, name: string): Option<string> {
    if attrs == [] then None
    else if attrs[0].ns == "" && attrs[0].local == name then Some(attrs[0].value)
    else AttrValue(attrs[1..], name)
  }

  function AttributeOf(node: Node, name: string): Option<string> {
    if node.Element? then AttrValue(node.attrs, name) else None
  }

  /** `Id`, else `ID`, else `id`. */
  function IdOf(node: Node): Option<string> {
    if AttributeOf(node, "Id").Some? then AttributeOf(node, "Id")
    else if AttributeOf(node, "ID").Some? then AttributeOf(node, "ID")
    else AttributeOf(node, "id")
  }

  lemma {:induction false} AttrValueIn(attrs: seq<Attr>, name: string)
    ensures var v := AttrValue(attrs, name);
            v.Some? ==> exists a :: a in attrs && a.ns == "" && a.local == name && a.value == v.value
    ensures AttrValue(attrs, name).None? ==> forall a :: a in attrs ==> !(a.ns == "" && a.local == name)
  {
    if attrs != [] {
      assert attrs == [attrs[0]] + attrs[1..];
      assert attrs[0] in attrs;
      AttrValueIn(attrs[1..], name);
    }
  }

  // ----------------------------------------------------------- the ID space

  datatype Entry = Entry(id: string, path: Path)

  predicate IsIdAttr(a: Attr) {
    a.ns == "" && (a.local == "Id" || a.local == "ID" || a.local == "id")
  }

  function AttrEntries(attrs: seq<Attr>, path: Path): seq<Entry> {
    if attrs == [] then []
    else (if IsIdAttr(attrs[0]) then [Entry(attrs[0].value, path)] else []) + AttrEntries(attrs[1..], path)
  }

  function OwnEntries(node: Node, path: Path): seq<Entry> {
    if node.Element? then AttrEntries(node.attrs, path) else []
  }

  /** Every identifier of a subtree with the element that carries it, in document order. */
  function Entries(node: Node, base: Path): seq<Entry>
    decreases node, 1
  {
    OwnEntries(node, base) + if node.Root? || node.Element? then EntriesOf(node.children, base, 0) else []
  }

  function EntriesOf(kids: seq<Node>, parent: Path, k: nat): seq<Entry>
    decreases kids, 0
  {
    if kids == [] then [] else Entries(kids[0], parent + [k]) + EntriesOf(kids[1..], parent, k + 1)
  }

  /** Insert the entries one by one, refusing an empty or repeated identifier. */
  function InsertAll(entries: seq<Entry>, ids: map<string, Path>): Option<map<string, Path>> {
    if entries == [] then Some(ids)
    else if entries[0].id == "" || entries[0].id in ids then None
    else InsertAll(entries[1..], ids[entries[0].id := entries[0].path])
  }

  /** The validated ID space, or nothing when an identifier is empty or repeated. */
  function IdMap(doc: Node): Option<map<string, Path>> {
    InsertAll(Entries(doc, []), map[])
  }

  function EntryIds(entries: seq<Entry>): seq<string> {
    if entries == [] then [] else [entries[0].id] + EntryIds(entries[1..])
  }

  predicate AllDistinct(ids: seq<string>) {
    forall i, j :: 0 <= i < j < |ids| ==> ids[i] != ids[j]
  }

  lemma {:induction false} EntryIdsAt(entries: seq<Entry>)
    ensures |EntryIds(entries)| == |entries|
    ensures forall i :: 0 <= i < |entries| ==> EntryIds(entries)[i] == entries[i].id
  {
    if entries != [] {
      EntryIdsAt(entries[1..]);
      assert entries == [entries[0]] + entries[1..];
    }
  }

  /** The map exists exactly when no identifier is empty or repeated, and then it holds exactly the
      entries. */
  lemma {:induction false} InsertAllExact(entries: seq<Entry>, ids: map<string, Path>)
    ensures InsertAll(entries, ids).Some?
       <==> (forall e :: e in entries ==> e.id != "" && e.id !in ids)
            && forall i, j :: 0 <= i < j < |entries| ==> entries[i].id != entries[j].id
    ensures var r := InsertAll(entries, ids);
            r.Some? ==>
              && (forall id :: id in r.value <==> id in ids || exists e :: e in entries && e.id == id)
              && (forall id :: id in ids ==> r.value[id] == ids[id])
              && (forall e :: e in entries ==> r.value[e.id] == e.path)
  {
    if entries != [] {
      var first, rest := entries[0], entries[1..];
      assert entries == [first] + rest;
      if first.id != "" && first.id !in ids {
        InsertAllExact(rest, ids[first.id := first.path]);
      }
    }
  }

  // -------------------------------------------------------- where entries are

  lemma {:induction false} AttrEntriesExact(attrs: seq<Attr>, path: Path, e: Entry)
    ensures e in AttrEntries(attrs, path)
       <==> e.path == path && exists a :: a in attrs && IsIdAttr(a) && a.value == e.id
  {
    if attrs != [] {
      assert attrs == [attrs[0]] + attrs[1..];
      AttrEntriesExact(attrs[1..], path, e);
    }
  }

  /** An entry names an element below `base` and one of its ID attributes. */
  predicate Carries(node: Node, r: Path, id: string) {
    IsElement(node, r) && exists a :: a in At(node, r).attrs && IsIdAttr(a) && a.value == id
  }

  lemma {:induction false} EntriesExact(node: Node, base: Path, e: Entry)
    ensures e in Entries(node, base) <==> base <= e.path && Carries(node, e.path[|base|..], e.id)
    decreases node, 1
  {
    if node.Root? || node.Element? { EntriesOfExact(node.children, base, 0, e); }
    if node.Element? { AttrEntriesExact(node.attrs, base, e); }
    if base <= e.path && e.path != base {
      var r := e.path[|base|..];
      assert e.path[|base|] == r[0] && e.path[|base| + 1..] == r[1..];
    }
  }

  /** The entry's path leads into one of `kids`, the `k`th and following children of `parent`. */
  predicate InKids(kids: seq<Node>, parent: Path, k: nat, e: Entry) {
    && parent < e.path && k <= e.path[|parent|] < k + |kids|
    && Carries(kids[e.path[|parent|] - k], e.path[|parent| + 1..], e.id)
  }

  lemma InKidsCons(kids: seq<Node>, parent: Path, k: nat, e: Entry)
    requires kids != []
    ensures InKids(kids, parent, k, e)
       <==> (parent + [k] <= e.path && Carries(kids[0], e.path[|parent + [k]|..], e.id)) || InKids(kids[1..], parent, k + 1, e)
  {
    hide Carries;
    BelowKid(parent, k, e.path);
  }

  lemma {:induction false} EntriesOfExact(kids: seq<Node>, parent: Path, k: nat, e: Entry)
    ensures e in EntriesOf(kids, parent, k) <==> InKids(kids, parent, k, e)
    decreases kids, 0
  {
    if kids != [] {
      hide Carries, Entries, InKids;
      EntriesExact(kids[0], parent + [k], e);
      EntriesOfExact(kids[1..], parent, k + 1, e);
      InKidsCons(kids, parent, k, e);
    }
  }

  /** The ID map resolves an identifier to the one element that carries it. */
  lemma IdMapExact(doc: Node, id: string, p: Path)
    requires IdMap(doc).Some?
    ensures id in IdMap(doc).value && IdMap(doc).value[id] == p <==> Carries(doc, p, id)
  {
    var entries := Entries(doc, []);
    InsertAllExact(entries, map[]);
    EntriesExact(doc, [], Entry(id, p));
    assert p[0..] == p;
    if id in IdMap(doc).value && IdMap(doc).value[id] == p {
      var e :| e in entries && e.id == id;
      assert e == Entry(id, p);
    }
  }

  // ------------------------------------------------------- the signer's search

  function FirstWithId(doc: Node, paths: seq<Path>, id: string): Option<Path>
    requires forall p :: p in paths ==> IsElement(doc, p)
  {
    if paths == [] then None
    else
      assert IsElement(doc, paths[0]);
      if AttributeOf(At(doc, paths[0]), "Id") == Some(id) then Some(paths[0])
      else FirstWithId(doc, paths[1..], id)
  }

  /** The first element in document order whose `Id` is `id`. */
  function ById(doc: Node, id: string): Option<Path> {
    forall p | p in Elements(doc, [])
      ensures IsElement(doc, p)
    {
      ElementsExact(doc, [], p);
      assert p[0..] == p;
    }
    FirstWithId(doc, Elements(doc, []), id)
  }

  lemma {:induction false} FirstWithIdExact(doc: Node, paths: seq<Path>, id: string)
    requires forall p :: p in paths ==> IsElement(doc, p)
    ensures var r := FirstWithId(doc, paths, id);
            && (r.Some? ==> r.value in paths && IsElement(doc, r.value)
                            && AttributeOf(At(doc, r.value), "Id") == Some(id))
            && (r.None? ==> forall p :: p in paths ==> AttributeOf(At(doc, p), "Id") != Some(id))
  {
    if paths != [] {
      assert IsElement(doc, paths[0]);
      assert paths == [paths[0]] + paths[1..];
      FirstWithIdExact(doc, paths[1..], id);
    }
  }

  /** The search finds an element with that `Id`, and finds nothing only when there is none. */
  lemma ByIdExact(doc: Node, id: string)
    ensures var r := ById(doc, id);
            r.Some? ==> IsElement(doc, r.value) && AttributeOf(At(doc, r.value), "Id") == Some(id)
    ensures ById(doc, id).None? ==> forall p :: IsElement(doc, p) ==> AttributeOf(At(doc, p), "Id") != Some(id)
  {
    forall p
      ensures p in Elements(doc, []) <==> IsElement(doc, p)
    {
      ElementsExact(doc, [], p);
      assert p[0..] == p;
    }
    FirstWithIdExact(doc, Elements(doc, []), id);
  }

  /** In a document with a valid ID space the signer's search and the verifier's map agree: whatever
      the first finds, the second resolves to the same element. */
  lemma ByIdIsTheMap(doc: Node, id: string, p: Path)
    requires IdMap(doc).Some? && IsElement(doc, p) && AttributeOf(At(doc, p), "Id") == Some(id)
    ensures ById(doc, id) == Some(p)
    ensures id in IdMap(doc).value && IdMap(doc).value[id] == p
  {
    ByIdExact(doc, id);
    IdAttrCarries(doc, p, id);
    var q := ById(doc, id).value;
    IdAttrCarries(doc, q, id);
    IdMapExact(doc, id, p);
    IdMapExact(doc, id, q);
  }

  lemma IdAttrCarries(doc: Node, p: Path, id: string)
    requires IsElement(doc, p) && AttributeOf(At(doc, p), "Id") == Some(id)
    ensures Carries(doc, p, id)
  {
    AttrValueIn(At(doc, p).attrs, "Id");
  }

  // ------------------------------------------------------------- the two loops

  function EntriesAlong(doc: Node, paths: seq<Path>): seq<Entry>
    requires forall p :: p in paths ==> IsElement(doc, p)
  {
    if paths == [] then []
    else
      assert IsElement(doc, paths[0]);
      AttrEntries(At(doc, paths[0]).attrs, paths[0]) + EntriesAlong(doc, paths[1..])
  }

  lemma {:induction false} AlongConcat(doc: Node, a: seq<Path>, b: seq<Path>)
    requires forall p :: p in a + b ==> IsElement(doc, p)
    ensures forall p :: p in a ==> IsElement(doc, p)
    ensures forall p :: p in b ==> IsElement(doc, p)
    ensures EntriesAlong(doc, a + b) == EntriesAlong(doc, a) + EntriesAlong(doc, b)
  {
    assert forall p :: p in a || p in b ==> p in a + b;
    if a == [] {
      assert a + b == b;
    } else {
      assert a + b == [a[0]] + (a[1..] + b);
      assert IsElement(doc, a[0]);
      AlongConcat(doc, a[1..], b);
    }
  }

  lemma ElementsAreElements(doc: Node, base: Path)
    requires Valid(doc, base)
    ensures forall p :: p in Elements(At(doc, base), base) ==> IsElement(doc, p)
  {
    forall p | p in Elements(At(doc, base), base)
      ensures IsElement(doc, p)
    {
      ElementsExact(At(doc, base), base, p);
      assert p == base + p[|base|..];
      AtConcat(doc, base, p[|base|..]);
    }
  }

  /** The entries of a subtree are those of its elements, taken in document order. */
  lemma {:induction false} EntriesAreAlong(doc: Node, base: Path, node: Node)
    requires Valid(doc, base) && At(doc, base) == node
    ensures forall p :: p in Elements(node, base) ==> IsElement(doc, p)
    ensures Entries(node, base) == EntriesAlong(doc, Elements(node, base))
    decreases node, 1
  {
    ElementsAreElements(doc, base);
    if node.Root? || node.Element? {
      EntriesOfAreAlong(doc, base, node, node.children, 0);
      var own := if node.Element? then [base] else [];
      AlongConcat(doc, own, ElementsOf(node.children, base, 0));
      if node.Element? {
        assert [base][1..] == [];
        assert IsElement(doc, [base][0]);
      }
    }
  }

  lemma {:induction false} EntriesOfAreAlong(doc: Node, base: Path, node: Node, kids: seq<Node>, k: nat)
    requires Valid(doc, base) && At(doc, base) == node && k <= |Kids(node)| && kids == Kids(node)[k..]
    ensures forall p :: p in ElementsOf(kids, base, k) ==> IsElement(doc, p)
    ensures EntriesOf(kids, base, k) == EntriesAlong(doc, ElementsOf(kids, base, k))
    decreases kids, 0
  {
    if kids != [] {
      AtConcat(doc, base, [k]);
      assert [k][1..] == [];
      EntriesAreAlong(doc, base + [k], kids[0]);
      assert kids[1..] == Kids(node)[k + 1..];
      EntriesOfAreAlong(doc, base, node, kids[1..], k + 1);
      AlongConcat(doc, Elements(kids[0], base + [k]), ElementsOf(kids[1..], base, k + 1));
    }
  }

  lemma {:induction false} InsertConcat(a: seq<Entry>, b: seq<Entry>, ids: map<string, Path>)
    ensures InsertAll(a + b, ids)
         == if InsertAll(a, ids).None? then None else InsertAll(b, InsertAll(a, ids).value)
  {
    if a == [] {
      assert a + b == b;
    } else {
      assert (a + b)[1..] == a[1..] + b;
      if a[0].id != "" && a[0].id !in ids {
        InsertConcat(a[1..], b, ids[a[0].id := a[0].path]);
      }
    }
  }

  lemma AttributeStep(attrs: seq<Attr>, j: nat, path: Path, rest: seq<Entry>, ids: map<string, Path>)
    requires j < |attrs|
    ensures InsertAll(AttrEntries(attrs[j..], path) + rest, ids)
         == if !IsIdAttr(attrs[j]) then InsertAll(AttrEntries(attrs[j + 1..], path) + rest, ids)
            else if attrs[j].value == "" || attrs[j].value in ids then None
            else InsertAll(AttrEntries(attrs[j + 1..], path) + rest, ids[attrs[j].value := path])
  {
    assert attrs[j..][1..] == attrs[j + 1..];
    var left := AttrEntries(attrs[j + 1..], path);
    if IsIdAttr(attrs[j]) {
      var all := [Entry(attrs[j].value, path)] + (left + rest);
      assert AttrEntries(attrs[j..], path) + rest == all;
      assert all[1..] == left + rest;
    } else {
      assert AttrEntries(attrs[j..], path) + rest == left + rest;
    }
  }

  lemma EntriesAlongStep(doc: Node, nodes: seq<Path>, i: nat)
    requires i < |nodes| && forall p :: p in nodes[i..] ==> IsElement(doc, p)
    ensures Valid(doc, nodes[i]) && At(doc, nodes[i]).Element?
    ensures forall p :: p in nodes[i + 1..] ==> IsElement(doc, p)
    ensures EntriesAlong(doc, nodes[i..])
         == AttrEntries(At(doc, nodes[i]).attrs, nodes[i]) + EntriesAlong(doc, nodes[i + 1..])
  {
    assert nodes[i..][0] == nodes[i] && nodes[i] in nodes[i..];
    assert nodes[i..][1..] == nodes[i + 1..];
    forall p | p in nodes[i + 1..]
      ensures IsElement(doc, p)
    {
      assert nodes[i..] == [nodes[i]] + nodes[i + 1..];
    }
  }

  lemma NoEntriesLeft(attrs: seq<Attr>, path: Path, rest: seq<Entry>)
    ensures AttrEntries(attrs[|attrs|..], path) + rest == rest
  {
    assert attrs[|attrs|..] == [];
  }

  lemma NothingLeft(doc: Node, nodes: seq<Path>, ids: map<string, Path>)
    ensures forall p :: p in nodes[|nodes|..] ==> IsElement(doc, p)
    ensures InsertAll(EntriesAlong(doc, nodes[|nodes|..]), ids) == Some(ids)
  {
    assert nodes[|nodes|..] == [];
  }

  /** Build the ID map: every ID attribute of every element, in document order. */
  method BuildIdMap(doc: Node) returns (r: Option<map<string, Path>>)
    ensures r == IdMap(doc)
  {
    var nodes := Elements(doc, []);
    EntriesAreAlong(doc, [], doc);
    assert nodes[0..] == nodes;
    hide *;
    var ids: map<string, Path> := map[];
    var i := 0;
    while i < |nodes|
      invariant i <= |nodes|
      invariant forall p :: p in nodes[i..] ==> IsElement(doc, p)
      invariant InsertAll(EntriesAlong(doc, nodes[i..]), ids) == IdMap(doc)
    {
      EntriesAlongStep(doc, nodes, i);
      var attrs := At(doc, nodes[i]).attrs;
      ghost var rest := EntriesAlong(doc, nodes[i + 1..]);
      assert attrs[0..] == attrs;
      var j := 0;
      while j < |attrs|
        invariant j <= |attrs|
        invariant InsertAll(AttrEntries(attrs[j..], nodes[i]) + rest, ids) == IdMap(doc)
      {
        AttributeStep(attrs, j, nodes[i], rest, ids);
        var attribute := attrs[j];
        if attribute.ns == "" && (attribute.local == "Id" || attribute.local == "ID" || attribute.local == "id") {
          if attribute.value == "" || attribute.value in ids {
            return None;
          }
          ids := ids[attribute.value := nodes[i]];
        }
        j := j + 1;
      }
      NoEntriesLeft(attrs, nodes[i], rest);
      i := i + 1;
    }
    NothingLeft(doc, nodes, ids);
    return Some(ids);
  }
}
