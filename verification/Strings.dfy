/** The order and the sorted collections the standard library gives the source. */
module Strings {

  /** Code point order, which is the byte order of the UTF-8 forms. */
  predicate LexLess(a: string, b: string) {
    b != [] && (a == [] || a[0] < b[0] || (a[0] == b[0] && LexLess(a[1..], b[1..])))
  }

  lemma {:induction false} LexTrichotomy(a: string, b: string)
    ensures a == b || LexLess(a, b) || LexLess(b, a)
    ensures !(LexLess(a, b) && LexLess(b, a))
    ensures LexLess(a, b) ==> a != b
  {
    if a != [] && b != [] {
      LexTrichotomy(a[1..], b[1..]);
      if a[0] == b[0] && a[1..] == b[1..] {
        assert a == [a[0]] + a[1..] == b;
      }
    }
  }

  lemma {:induction false} LexTransitive(a: string, b: string, c: string)
    requires LexLess(a, b) && LexLess(b, c)
    ensures LexLess(a, c)
  {
    if a != [] && a[0] == b[0] && b[0] == c[0] {
      LexTransitive(a[1..], b[1..], c[1..]);
    }
  }

  /** Strictly ascending: the iteration order of an ordered set. */
  predicate Ascending(names: seq<string>) {
    forall i, j :: 0 <= i < j < |names| ==> LexLess(names[i], names[j])
  }

  /** Insert into an ordered set. */
  function Put(names: seq<string>, name: string): seq<string> {
    if names == [] || LexLess(name, names[0]) then [name] + names
    else if name == names[0] then names
    else [names[0]] + Put(names[1..], name)
  }

  lemma {:induction false} PutIsInsert(names: seq<string>, name: string)
    requires Ascending(names)
    ensures Ascending(Put(names, name))
    ensures forall x :: x in Put(names, name) <==> x == name || x in names
  {
    if names == [] {
    } else if LexLess(name, names[0]) {
      forall j | 0 <= j < |names|
        ensures LexLess(name, names[j])
      {
        if j > 0 { LexTransitive(name, names[0], names[j]); }
      }
    } else if name != names[0] {
      PutIsInsert(names[1..], name);
      LexTrichotomy(name, names[0]);
      var rest := Put(names[1..], name);
      forall j | 0 <= j < |rest|
        ensures LexLess(names[0], rest[j])
      {
        assert rest[j] in rest;
      }
      assert names == [names[0]] + names[1..];
    }
  }

  lemma Regroup(a: string, b: string, c: string)
    ensures a + (b + c) == a + b + c
  {}

  // ------------------------------------------------------------- searching

  /** The first position at which `t` occurs in `s`, or the length of `s`. */
  function Find(s: string, t: string): (i: nat)
    ensures i <= |s|
  {
    if s == "" || t <= s then 0 else 1 + Find(s[1..], t)
  }

  predicate Contains(s: string, t: string) {
    exists i :: 0 <= i <= |s| && t <= s[i..]
  }

  lemma ContainsTail(content: string, t: string)
    requires content != "" && !Contains(content, t)
    ensures !Contains(content[1..], t)
  {
    forall i | 0 <= i <= |content[1..]|
      ensures !(t <= content[1..][i..])
    {
      assert content[1..][i..] == content[i + 1..];
    }
  }

  lemma NoEarlyTerminator(content: string, t: string, rest: string)
    requires |t| > 0 && t[|t| - 1] !in t[..|t| - 1]
    requires content != "" && !Contains(content, t)
    ensures !(t <= content + t + rest)
  {
    var s := content + t + rest;
    if |t| <= |content| {
      assert s[..|t|] == content[..|t|];
      assert content[0..] == content;
    } else {
      var k := |t| - 1 - |content|;
      assert s[|t| - 1] == t[k];
      assert t[k] in t[..|t| - 1];
    }
  }

  /** A terminator whose last character occurs in it only once cannot straddle the end of content
      that does not contain it. */
  lemma {:induction false} FindTerminator(content: string, t: string, rest: string)
    requires |t| > 0 && t[|t| - 1] !in t[..|t| - 1]
    requires !Contains(content, t)
    ensures Find(content + t + rest, t) == |content|
  {
    if content == "" {
      assert content + t + rest == t + rest;
    } else {
      NoEarlyTerminator(content, t, rest);
      ContainsTail(content, t);
      assert (content + t + rest)[1..] == content[1..] + t + rest;
      FindTerminator(content[1..], t, rest);
    }
  }

  /** The characters before the first `c`, or all of them. */
  function UpTo(s: string, c: char): (r: string)
    ensures r <= s && c !in r
    ensures |r| < |s| ==> s[|r|] == c
  {
    if s == "" || s[0] == c then "" else [s[0]] + UpTo(s[1..], c)
  }

  lemma {:induction false} UpToStops(a: string, c: char, rest: string)
    requires c !in a && (rest == "" || rest[0] == c)
    ensures UpTo(a + rest, c) == a
  {
    if a == "" {
      assert a + rest == rest;
    } else {
      assert (a + rest)[1..] == a[1..] + rest;
      UpToStops(a[1..], c, rest);
    }
  }

  // ----------------------------------------------------------- replacement

  /** Every occurrence of `t`, left to right and not overlapping, replaced by `v`. */
  function Replace(s: string, t: string, v: string): string
    requires t != ""
    decreases |s|
  {
    if s == "" then ""
    else if t <= s then v + Replace(s[|t|..], t, v)
    else [s[0]] + Replace(s[1..], t, v)
  }
}
