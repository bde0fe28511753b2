/** Checks and verdicts. */
module Verdict {

  datatype CheckStatus = Passed | Failed | Skipped | Unknown | Info

  /** The codes that decide something here; every other code is a number. */
  datatype CheckCode =
    | SigStructureInvalid | SigPlacementInvalid | ReferenceExternal | ReferenceUnresolved | TransformNotAllowed
    | C14nUnsupported | ReferenceScopeUnknown | ReferenceScopeComplete | NestedSignaturesUnsupported
    | NoSignatures | SignaturesUnsupported | DocumentsAllCovered | DocumentsUncovered | DocumentsCoverageUndetermined
    | TimestampImprintMismatch | TimestampTokenParsed | TimestampSignatureInvalid | TimestampTsaCertificateInvalid
    | ContainerTimestampVerified | ContainerTimestampInvalid | ContainerTimestampNotChecked
    | OtherCode(number: nat)

  datatype Check = Check(code: CheckCode, status: CheckStatus)

  /** Valid, indeterminate and invalid, by the names ETSI EN 319 102-1 gives them. */
  datatype Verdict = TotalPassed | Indeterminate | TotalFailed

  function Rank(v: Verdict): nat {
    match v
    case TotalPassed => 0
    case Indeterminate => 1
    case TotalFailed => 2
  }

  /** The worse of two verdicts. */
  function Worst(a: Verdict, b: Verdict): Verdict {
    if Rank(b) > Rank(a) then b else a
  }

  function VerdictOfStatus(s: CheckStatus): Verdict {
    match s
    case Passed => TotalPassed
    case Info => TotalPassed
    case Failed => TotalFailed
    case Skipped => Indeterminate
    case Unknown => Indeterminate
  }

  /** With this status among them, checks never add up to valid. */
  predicate Blocks(s: CheckStatus) {
    VerdictOfStatus(s) != TotalPassed
  }

  function Fold(checks: seq<Check>, verdict: Verdict): Verdict {
    if checks == [] then verdict else Fold(checks[1..], Worst(verdict, VerdictOfStatus(checks[0].status)))
  }

  function VerdictOf(checks: seq<Check>): Verdict {
    Fold(checks, TotalPassed)
  }

  method FoldChecks(checks: seq<Check>) returns (verdict: Verdict)
    ensures verdict == VerdictOf(checks)
  {
    verdict := TotalPassed;
    var i := 0;
    while i < |checks|
      invariant i <= |checks| && Fold(checks[i..], verdict) == VerdictOf(checks)
    {
      assert checks[i..][1..] == checks[i + 1..];
      verdict := Worst(verdict, VerdictOfStatus(checks[i].status));
      i := i + 1;
    }
  }

  predicate AnyStatus(checks: seq<Check>, v: Verdict) {
    exists c :: c in checks && VerdictOfStatus(c.status) == v
  }

  /** The fold finds the worst status. */
  lemma {:induction false} FoldExact(checks: seq<Check>, verdict: Verdict)
    ensures Fold(checks, verdict) == TotalFailed <==> verdict == TotalFailed || AnyStatus(checks, TotalFailed)
    ensures Fold(checks, verdict) == TotalPassed <==> verdict == TotalPassed && forall c :: c in checks ==> !Blocks(c.status)
  {
    if checks != [] {
      assert checks == [checks[0]] + checks[1..];
      FoldExact(checks[1..], Worst(verdict, VerdictOfStatus(checks[0].status)));
    }
  }

  lemma {:induction false} FoldConcat(a: seq<Check>, b: seq<Check>, verdict: Verdict)
    ensures Fold(a + b, verdict) == Fold(b, Fold(a, verdict))
  {
    if a == [] {
      assert a + b == b;
    } else {
      assert (a + b)[1..] == a[1..] + b;
      FoldConcat(a[1..], b, Worst(verdict, VerdictOfStatus(a[0].status)));
    }
  }

  lemma {:induction false} InfoChangesNothing(checks: seq<Check>, verdict: Verdict)
    requires forall c :: c in checks ==> c.status == Info
    ensures Fold(checks, verdict) == verdict
  {
    if checks != [] {
      assert checks[0] in checks && forall c :: c in checks[1..] ==> c in checks;
      InfoChangesNothing(checks[1..], verdict);
    }
  }

  /** One more check never raises the verdict, and a mere note leaves it alone. */
  lemma VerdictIsMonotone(checks: seq<Check>, c: Check)
    ensures Rank(VerdictOf(checks + [c])) >= Rank(VerdictOf(checks))
    ensures c.status == Info || c.status == Passed ==> VerdictOf(checks + [c]) == VerdictOf(checks)
  {
    FoldConcat(checks, [c], TotalPassed);
    assert [c][1..] == [];
  }
}
