/**
 The identifiers a signature introduces, and what a dossier may contribute.

 Every plan is allocated against the original document alone. All identifiers of
 all plans of one run are nevertheless pairwise distinct.
 */
module Names {
  import opened Wrappers
  import opened XmlTree
  import opened Ids

  datatype SignError =
    | DocumentNotSignable
    | DocumentNotFound
    | DocumentAlreadySigned
    | TimestampExists
    | TsaFailed
    | SignFailed

  // ------------------------------------------------------------------ checks

  /** XML 1.0 `NameStartChar` without the colon. */
  predicate IsNameStart(c: char) {
    var n := c as int;
    || 'A' <= c <= 'Z' || c == '_' || 'a' <= c <= 'z'
    || 0xc0 <= n <= 0xd6 || 0xd8 <= n <= 0xf6 || 0xf8 <= n <= 0x2ff || 0x370 <= n <= 0x37d
    || 0x37f <= n <= 0x1fff || 0x200c <= n <= 0x200d || 0x2070 <= n <= 0x218f || 0x2c00 <= n <= 0x2fef
    || 0x3001 <= n <= 0xd7ff || 0xf900 <= n <= 0xfdcf || 0xfdf0 <= n <= 0xfffd || 0x10000 <= n <= 0xeffff
  }

  predicate IsNameChar(c: char) {
    var n := c as int;
    || IsNameStart(c) || c == '-' || c == '.' || '0' <= c <= '9' || n == 0xb7
    || 0x300 <= n <= 0x36f || 0x203f <= n <= 0x2040
  }

  predicate IsNcName(value: string) {
    value != "" && IsNameStart(value[0]) && forall c :: c in value[1..] ==> IsNameChar(c)
  }

  function Utf8Length(value: string): nat {
    if value == "" then 0
    else
      var n := value[0] as int;
      (if n < 0x80 then 1 else if n < 0x800 then 2 else if n < 0x10000 then 3 else 4) + Utf8Length(value[1..])
  }

  /** An identifier that can be written into a reference. */
  predicate CheckId(value: string) {
    Utf8Length(value) <= 256 && IsNcName(value)
  }

  predicate IsTokenChar(c: char) {
    'a' <= c <= 'z' || 'A' <= c <= 'Z' || '0' <= c <= '9' || c == '.' || c == '-' || c == '+' || c == '_'
  }

  predicate IsEssenceToken(part: string) {
    part != "" && Utf8Length(part) <= 64 && forall c :: c in part ==> IsTokenChar(c)
  }

  /** `type/subtype`, split at the first slash, both halves tokens. */
  predicate CheckMimeEssence(value: string) {
    exists i :: 0 <= i < |value| && value[i] == '/' && '/' !in value[..i]
                && IsEssenceToken(value[..i]) && IsEssenceToken(value[i + 1..])
  }

  predicate IsControl(c: char) {
    c as int < 0x20 || 0x7f <= c as int <= 0x9f
  }

  predicate CheckNamespace(value: string) {
    && value != "" && Utf8Length(value) <= 512
    && forall c :: c in value ==> c != '<' && c != '>' && c != '"' && c != '\'' && c != '&' && !IsControl(c)
  }

  /** Neither markup nor a placeholder delimiter. */
  predicate PlainChar(c: char) {
    c != '@' && c != '<' && c != '>' && c != '"' && c != '\'' && c != '&'
  }

  predicate IsPlain(value: string) {
    forall c :: c in value ==> PlainChar(c)
  }

  lemma NcNamesArePlain(value: string)
    requires IsNcName(value)
    ensures IsPlain(value)
  {
    forall c | c in value
      ensures PlainChar(c)
    {
      assert value == [value[0]] + value[1..];
    }
  }

  lemma EssencesArePlain(value: string)
    requires CheckMimeEssence(value)
    ensures IsPlain(value)
  {
    var i :| 0 <= i < |value| && value[i] == '/' && IsEssenceToken(value[..i]) && IsEssenceToken(value[i + 1..]);
    forall c | c in value
      ensures PlainChar(c)
    {
      var k :| 0 <= k < |value| && value[k] == c;
      if k < i {
        assert value[..i][k] == c && IsTokenChar(c);
      } else if k > i {
        assert value[i + 1..][k - i - 1] == c && IsTokenChar(c);
      }
    }
  }

  // ------------------------------------------------------------- identifiers

  function Digit(n: nat): char
    requires n < 10
  {
    ('0' as int + n) as char
  }

  /** Decimal notation. */
  function Decimal(n: nat): string {
    if n < 10 then [Digit(n)] else Decimal(n / 10) + [Digit(n % 10)]
  }

  predicate IsDigit(c: char) {
    '0' <= c <= '9'
  }

  lemma {:induction false} DecimalDigits(n: nat)
    ensures Decimal(n) != "" && forall c :: c in Decimal(n) ==> IsDigit(c)
  {
    if n >= 10 { DecimalDigits(n / 10); }
  }

  /** The number a digit string denotes. */
  function Value(s: string): nat
    requires forall c :: c in s ==> IsDigit(c)
  {
    if s == "" then 0
    else
      assert IsDigit(s[|s| - 1]);
      10 * Value(s[..|s| - 1]) + (s[|s| - 1] as int - '0' as int)
  }

  lemma {:induction false} DecimalValue(n: nat)
    ensures forall c :: c in Decimal(n) ==> IsDigit(c)
    ensures Value(Decimal(n)) == n
  {
    DecimalDigits(n);
    if n < 10 {
      assert [Digit(n)][..0] == "";
    } else {
      DecimalValue(n / 10);
      var s := Decimal(n);
      assert s[..|s| - 1] == Decimal(n / 10);
    }
  }

  /** The base identifier of a signature: one per document, one for the dossier. */
  function BaseId(documentIndex: Option<nat>): string {
    match documentIndex
    case Some(i) => "sig-doc" + Decimal(i)
    case None => "sig-dossier"
  }

  const MAX_SHARED_IDENTIFIERS: nat := 64

  function Candidate(base: string, attempt: nat): string {
    if attempt == 1 then base else base + "-" + Decimal(attempt)
  }

  function SignedPropertiesId(id: string): string { "signed-props-" + id }
  function QualifyingObjectId(id: string): string { "xades-" + id }
  function ProfileId(id: string): string { "sigprof-" + id }
  function ProfileObjectId(id: string): string { "profile-" + id }
  function ReferenceId(id: string, name: string): string { "ref-" + id + "-" + name }

  function ReferenceIds(id: string, names: seq<string>): seq<string> {
    if names == [] then [] else [ReferenceId(id, names[0])] + ReferenceIds(id, names[1..])
  }

  /** Every `Id` one signature introduces. */
  function Identifiers(id: string, names: seq<string>): seq<string> {
    [id, SignedPropertiesId(id), QualifyingObjectId(id), ProfileId(id), ProfileObjectId(id)] + ReferenceIds(id, names)
  }

  predicate AllFree(doc: Node, ids: seq<string>) {
    forall id :: id in ids ==> ById(doc, id).None?
  }

  function AllocateFrom(doc: Node, base: string, names: seq<string>, attempt: nat): Result<string, SignError>
    decreases MAX_SHARED_IDENTIFIERS + 1 - attempt
  {
    if attempt > MAX_SHARED_IDENTIFIERS then Err(DocumentAlreadySigned)
    else if AllFree(doc, Identifiers(Candidate(base, attempt), names)) then Ok(Candidate(base, attempt))
    else AllocateFrom(doc, base, names, attempt + 1)
  }

  /** The first candidate none of whose identifiers is taken. */
  function AllocateId(doc: Node, base: string, names: seq<string>): Result<string, SignError> {
    AllocateFrom(doc, base, names, 1)
  }

  lemma {:induction false} AllocatedIsFree(doc: Node, base: string, names: seq<string>, attempt: nat)
    requires attempt >= 1
    ensures var r := AllocateFrom(doc, base, names, attempt);
            r.Ok? ==> AllFree(doc, Identifiers(r.value, names)) && exists k: nat :: k >= 1 && r.value == Candidate(base, k)
    decreases MAX_SHARED_IDENTIFIERS + 1 - attempt
  {
    if attempt <= MAX_SHARED_IDENTIFIERS && !AllFree(doc, Identifiers(Candidate(base, attempt), names)) {
      AllocatedIsFree(doc, base, names, attempt + 1);
    }
  }

  // ----------------------------------------------------------------- freshness

  /** The six ways an identifier is derived, by what it puts in front. */
  datatype Kind = Own | SignedProps | Xades | SigProf | Profile | Ref

  function Front(kind: Kind): string {
    match kind
    case Own => ""
    case SignedProps => "signed-props-"
    case Xades => "xades-"
    case SigProf => "sigprof-"
    case Profile => "profile-"
    case Ref => "ref-"
  }

  /** No identifier of one kind is one of another: the fourth character tells. */
  lemma FrontsDiffer(a: Kind, x: string, b: Kind, y: string)
    requires Front(a) + "sig-" + x == Front(b) + "sig-" + y
    ensures a == b && x == y
  {
    var s, t := Front(a) + "sig-" + x, Front(b) + "sig-" + y;
    assert s[0] == (Front(a) + "sig-")[0] && t[0] == (Front(b) + "sig-")[0];
    assert s[3] == (Front(a) + "sig-")[3] && t[3] == (Front(b) + "sig-")[3];
    assert a == b;
    assert s[|Front(a)| + 4..] == x && t[|Front(b)| + 4..] == y;
  }

  /** `x` continues `d` with nothing, or with something that is not a digit. */
  predicate Closed(tail: string) {
    tail == "" || !IsDigit(tail[0])
  }

  lemma ClosedHasNoDigits(d: string, x: string)
    requires forall c :: c in d ==> IsDigit(c)
    ensures d != "" ==> !Closed(d + x)
  {
    if d != "" { assert (d + x)[0] == d[0] && d[0] in d; }
  }

  lemma {:induction false} DigitsEndAlike(d: string, x: string, e: string, y: string)
    requires forall c :: c in d ==> IsDigit(c)
    requires forall c :: c in e ==> IsDigit(c)
    requires Closed(x) && Closed(y) && d + x == e + y
    ensures d == e && x == y
  {
    assert d == "" ==> d + x == x;
    assert e == "" ==> e + y == y;
    if d == "" {
      ClosedHasNoDigits(e, y);
    } else if e == "" {
      ClosedHasNoDigits(d, x);
    } else {
      assert (d + x)[0] == d[0] && (e + y)[0] == e[0];
      assert (d + x)[1..] == d[1..] + x && (e + y)[1..] == e[1..] + y;
      assert forall c :: c in d[1..] ==> c in d;
      assert forall c :: c in e[1..] ==> c in e;
      DigitsEndAlike(d[1..], x, e[1..], y);
      assert d == [d[0]] + d[1..] && e == [e[0]] + e[1..];
    }
  }

  /** What all identifiers of one document's signature look like. */
  ghost predicate OfDocument(i: nat, id: string) {
    exists kind, tail :: Closed(tail) && id == Front(kind) + "sig-" + ("doc" + Decimal(i) + tail)
  }

  lemma OneDocument(i: nat, j: nat, id: string)
    requires OfDocument(i, id) && OfDocument(j, id)
    ensures i == j
  {
    var k, x :| Closed(x) && id == Front(k) + "sig-" + ("doc" + Decimal(i) + x);
    var l, y :| Closed(y) && id == Front(l) + "sig-" + ("doc" + Decimal(j) + y);
    FrontsDiffer(k, "doc" + Decimal(i) + x, l, "doc" + Decimal(j) + y);
    OneNumber(i, x, j, y);
  }

  lemma OneNumber(i: nat, x: string, j: nat, y: string)
    requires Closed(x) && Closed(y) && "doc" + Decimal(i) + x == "doc" + Decimal(j) + y
    ensures i == j
  {
    assert ("doc" + Decimal(i) + x)[3..] == Decimal(i) + x;
    assert ("doc" + Decimal(j) + y)[3..] == Decimal(j) + y;
    DecimalValue(i);
    DecimalValue(j);
    DigitsEndAlike(Decimal(i), x, Decimal(j), y);
  }

  lemma CandidateShape(base: string, k: nat) returns (tail: string)
    ensures Closed(tail) && Candidate(base, k) == base + tail
  {
    tail := if k == 1 then "" else "-" + Decimal(k);
    assert base + tail == Candidate(base, k);
  }

  lemma {:induction false} ReferenceIdsMembers(id: string, names: seq<string>, x: string)
    ensures x in ReferenceIds(id, names) <==> exists n :: n in names && x == ReferenceId(id, n)
  {
    if names != [] {
      assert names == [names[0]] + names[1..];
      ReferenceIdsMembers(id, names[1..], x);
    }
  }

  /** Every identifier of a document's signature carries the document's number. */
  lemma IdentifiersOfDocument(i: nat, k: nat, names: seq<string>, x: string)
    requires x in Identifiers(Candidate(BaseId(Some(i)), k), names)
    ensures OfDocument(i, x)
  {
    var tail := CandidateShape(BaseId(Some(i)), k);
    var id := Candidate(BaseId(Some(i)), k);
    var stem := "doc" + Decimal(i) + tail;
    assert id == "sig-" + stem;
    ReferenceIdsMembers(id, names, x);
    if x == id {
      assert x == Front(Own) + "sig-" + stem;
    } else if x == SignedPropertiesId(id) {
      assert x == Front(SignedProps) + "sig-" + stem;
    } else if x == QualifyingObjectId(id) {
      assert x == Front(Xades) + "sig-" + stem;
    } else if x == ProfileId(id) {
      assert x == Front(SigProf) + "sig-" + stem;
    } else if x == ProfileObjectId(id) {
      assert x == Front(Profile) + "sig-" + stem;
    } else {
      var n :| n in names && x == ReferenceId(id, n);
      var longer := tail + "-" + n;
      assert Closed(longer);
      assert x == Front(Ref) + "sig-" + ("doc" + Decimal(i) + longer);
    }
  }

  lemma {:induction false} ReferenceIdsAt(id: string, names: seq<string>)
    ensures |ReferenceIds(id, names)| == |names|
    ensures forall i :: 0 <= i < |names| ==> ReferenceIds(id, names)[i] == ReferenceId(id, names[i])
  {
    if names != [] { ReferenceIdsAt(id, names[1..]); }
  }

  function KindAt(i: nat): Kind {
    if i == 0 then Own else if i == 1 then SignedProps else if i == 2 then Xades
    else if i == 3 then SigProf else if i == 4 then Profile else Ref
  }

  function StemAt(rest: string, names: seq<string>, i: nat): string
    requires i < 5 + |names|
  {
    if i < 5 then rest else rest + "-" + names[i - 5]
  }

  lemma IdentifierAt(id: string, rest: string, names: seq<string>, i: nat)
    requires id == "sig-" + rest && i < 5 + |names|
    ensures |Identifiers(id, names)| == 5 + |names|
    ensures Identifiers(id, names)[i] == Front(KindAt(i)) + "sig-" + StemAt(rest, names, i)
  {
    ReferenceIdsAt(id, names);
    if i >= 5 {
      assert Identifiers(id, names)[i] == ReferenceId(id, names[i - 5]);
      assert ReferenceId(id, names[i - 5]) == "ref-" + "sig-" + (rest + "-" + names[i - 5]);
    } else {
      assert Front(KindAt(i)) + id == Front(KindAt(i)) + "sig-" + rest;
    }
  }

  /** The identifiers of one signature are pairwise distinct. */
  lemma OwnIdentifiersDistinct(id: string, rest: string, names: seq<string>)
    requires id == "sig-" + rest && AllDistinct(names)
    ensures AllDistinct(Identifiers(id, names))
  {
    var ids := Identifiers(id, names);
    IdentifierAt(id, rest, names, 0);
    forall i, j | 0 <= i < j < |ids|
      ensures ids[i] != ids[j]
    {
      IdentifierAt(id, rest, names, i);
      IdentifierAt(id, rest, names, j);
      if ids[i] == ids[j] {
        FrontsDiffer(KindAt(i), StemAt(rest, names, i), KindAt(j), StemAt(rest, names, j));
        SameStem(rest, names, i, j);
      }
    }
  }

  lemma SameStem(rest: string, names: seq<string>, i: nat, j: nat)
    requires AllDistinct(names) && i < 5 + |names| && j < 5 + |names|
    requires KindAt(i) == KindAt(j) && StemAt(rest, names, i) == StemAt(rest, names, j)
    ensures i == j
  {
    if i >= 5 && j >= 5 {
      assert StemAt(rest, names, i)[|rest| + 1..] == names[i - 5];
      assert StemAt(rest, names, j)[|rest| + 1..] == names[j - 5];
    }
  }
}
