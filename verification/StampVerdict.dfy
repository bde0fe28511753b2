/**
 How container timestamps enter the dossier verdict, one check each.

 `StampsOnlyContradict` sums it up: only a timestamp that speaks against the
 dossier can change the verdict. All others, judged or not, count for nothing.
 */
module StampVerdict {
  import opened Verdict
  import opened Coverage

  /** What became of one timestamp: declined before its token was read, or judged by these checks. */
  datatype StampOutcome = Declined | Judged(checks: seq<Check>, verified: bool)

  /** Evidence against the container. */
  predicate Damning(c: Check) {
    && c.status == Failed
    && (c.code == TimestampImprintMismatch || c.code == TimestampTokenParsed || c.code == TimestampSignatureInvalid
        || c.code == TimestampTsaCertificateInvalid)
  }

  predicate Contradicts(outcome: StampOutcome) {
    outcome.Judged? && !outcome.verified && exists c :: c in outcome.checks && Damning(c)
  }

  /** The dossier-level check one timestamp adds. */
  function Summarise(outcome: StampOutcome): Check {
    match outcome
    case Declined => Check(ContainerTimestampNotChecked, Info)
    case Judged(checks, verified) =>
      if verified then Check(ContainerTimestampVerified, Info)
      else if exists c :: c in checks && Damning(c) then Check(ContainerTimestampInvalid, Failed)
      else Check(ContainerTimestampNotChecked, Info)
  }

  function Summaries(outcomes: seq<StampOutcome>): (r: seq<Check>)
    ensures |r| == |outcomes|
  {
    if outcomes == [] then [] else [Summarise(outcomes[0])] + Summaries(outcomes[1..])
  }

  method SummariseEach(outcomes: seq<StampOutcome>) returns (checks: seq<Check>)
    ensures checks == Summaries(outcomes)
  {
    checks := [];
    var i := 0;
    assert outcomes[0..] == outcomes;
    while i < |outcomes|
      invariant i <= |outcomes| && checks + Summaries(outcomes[i..]) == Summaries(outcomes)
    {
      assert outcomes[i..][1..] == outcomes[i + 1..];
      checks := checks + [Summarise(outcomes[i])];
      i := i + 1;
    }
    assert outcomes[i..] == [];
  }

  lemma SummarySays(outcome: StampOutcome)
    ensures Summarise(outcome).status == if Contradicts(outcome) then Failed else Info
  {
    hide Damning;
  }

  predicate AnyFailed(checks: seq<Check>) {
    exists c :: c in checks && c.status == Failed
  }

  predicate AnyContradicts(outcomes: seq<StampOutcome>) {
    exists o :: o in outcomes && Contradicts(o)
  }

  lemma FailedStep(c: Check, rest: seq<Check>)
    ensures AnyFailed([c] + rest) <==> c.status == Failed || AnyFailed(rest)
  {
    if AnyFailed(rest) {
      var d :| d in rest && d.status == Failed;
      assert d in [c] + rest;
    }
    assert c in [c] + rest;
  }

  lemma ContradictsStep(o: StampOutcome, rest: seq<StampOutcome>)
    ensures AnyContradicts([o] + rest) <==> Contradicts(o) || AnyContradicts(rest)
  {
    hide Contradicts;
    if AnyContradicts(rest) {
      var p :| p in rest && Contradicts(p);
      assert p in [o] + rest;
    }
    assert o in [o] + rest;
  }

  lemma {:induction false} SummariesSay(outcomes: seq<StampOutcome>)
    ensures AnyFailed(Summaries(outcomes)) <==> AnyContradicts(outcomes)
    ensures forall c :: c in Summaries(outcomes) ==> c.status == Info || c.status == Failed
  {
    hide Contradicts, Summarise, AnyFailed, AnyContradicts;
    if outcomes == [] {
      NoneSaid();
    } else {
      assert outcomes == [outcomes[0]] + outcomes[1..];
      SummariesSay(outcomes[1..]);
      SummarySays(outcomes[0]);
      FailedStep(Summarise(outcomes[0]), Summaries(outcomes[1..]));
      ContradictsStep(outcomes[0], outcomes[1..]);
    }
  }

  lemma NoneSaid()
    ensures !AnyFailed([]) && !AnyContradicts([])
  {}

  lemma {:induction false} FailedStays(reports: seq<SignatureReport>)
    ensures FoldReports(reports, TotalFailed) == TotalFailed
  {
    if reports != [] { FailedStays(reports[1..]); }
  }

  /** The checks after the timestamps' own. */
  function Later(reports: seq<SignatureReport>, documents: seq<DocumentCoverage>): seq<Check> {
    (if reports == [] then [Check(NoSignatures, Unknown)] else [])
    + (if exists r :: r in reports && UnsupportedPlacementOnly(r) then [Check(SignaturesUnsupported, Unknown)] else [])
    + CoverageChecks(documents)
  }

  lemma InOrder(found: seq<Check>, reports: seq<SignatureReport>, documents: seq<DocumentCoverage>)
    ensures DossierChecks(found, reports, documents) == found + Later(reports, documents)
  {
    hide CoverageChecks, UnsupportedPlacementOnly;
    var a: seq<Check> := if reports == [] then [Check(NoSignatures, Unknown)] else [];
    var b: seq<Check> := if exists r :: r in reports && UnsupportedPlacementOnly(r) then [Check(SignaturesUnsupported, Unknown)] else [];
    assert found + a + b + CoverageChecks(documents) == found + (a + b + CoverageChecks(documents));
  }

  /** A contradicting timestamp makes the dossier invalid; without one, the verdict is what it would be
      with no timestamps at all. */
  lemma StampsOnlyContradict(found: seq<Check>, outcomes: seq<StampOutcome>, reports: seq<SignatureReport>,
                             documents: seq<DocumentCoverage>)
    ensures DossierVerdict(found + Summaries(outcomes), reports, documents)
         == if AnyContradicts(outcomes) then TotalFailed else DossierVerdict(found, reports, documents)
  {
    hide CoverageChecks, UnsupportedPlacementOnly, AnyContradicts, Later, DossierChecks;
    var summaries, later := Summaries(outcomes), Later(reports, documents);
    SummariesSay(outcomes);
    InOrder(found + summaries, reports, documents);
    InOrder(found, reports, documents);
    FoldConcat(found + summaries, later, TotalPassed);
    FoldConcat(found, summaries, TotalPassed);
    FoldConcat(found, later, TotalPassed);
    if AnyContradicts(outcomes) {
      var c :| c in summaries && c.status == Failed;
      assert c in found + summaries + later && VerdictOfStatus(c.status) == TotalFailed;
      FoldExact(found + summaries + later, TotalPassed);
      FailedStays(reports);
    } else {
      InfoChangesNothing(summaries, VerdictOf(found));
    }
  }
}
