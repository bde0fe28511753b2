# openSzigno: what a signature covers

A model, with proofs, of how openSzigno decides which bytes a signature over a
Hungarian e-dossier covers: how the signer writes signatures and timestamps into
a dossier, how the verifier reads them back, and what the verdict it reports
claims.

A dossier is one XML document. The signer plans signatures, splices skeletons
into the text at byte offsets, and then fills placeholders in three passes, each
hashing what the pass before wrote. The verifier resolves every reference,
canonicalizes what it names, checks that the references together cover what the
e-dossier format requires, and folds everything into one verdict. Most of what
can go wrong lies between these parts. The theorems here are therefore mostly
about two of them at once: text edits against tree edits, one pass against the
next, what is digested against what is covered, what is written against what is
read.

## How the model is laid out

- **The document** (`XmlTree`, `SourceText`, `Ids`, `IdSpace`). A parsed document
  is one tree in which every node keeps both its resolved name and the text it
  was spelled with. A node is identified by its path, so "the same element" is
  equality of paths and "ancestor or self" is the prefix order. `Source` gives a
  tree's text back, and every node has the offsets the parser reports.
- **Canonicalization** (`C14n`, `Renderer`, `C14nAxes`, `C14nReader`,
  `C14nMeaning`, `C14nTheorems`). `C14n` specifies canonical trees and how they
  are written; the class `Renderer` is the one-pass renderer with its output
  buffer and namespace stack, proved to write exactly that. `C14nReader` reads
  octets back without knowing where they came from.
- **References** (`References`, `ReferenceParsing`, `ReferenceTheorems`). A
  transform chain's digest and its coverage, computed separately and proved to
  agree.
- **Editing** (`Splicing`, `TreeEdits`, `Growth`, `GrownLayout`, `GrownSize`,
  `Placeholders`). In-place edits of the text against a one-shot substitution on
  the original offsets, against the same edits made on the tree.
- **Reading** (`Scan`, `Reader`, `TreeScan`, `WrittenScan`, `SignerLimits`). The
  bounded scan on the text alone, what the reader accepts of a document (its size,
  the scan, its number of nodes), and what that means for signing in numbers.
- **The signer** (`Names`, `Dossier`, `Planner`, `SignatureXml`,
  `SignatureFilling`, `SignatureIds`, `SignatureParts`, `Working`, `WorkingIds`,
  `Passes`, `PassText`, `Run`, `RunTheorems`, `PlanTheorems`, `Acceptance`,
  `OlderSignatures`, `Signer`). `Signer.Sign` takes a document to the text of the
  signed document.
- **The verifier's rules** (`Scope`, `ScopeTheorems`, `Meeting`, `Verdict`,
  `Coverage`).
- **Container timestamps** (`StampXml`, `StampPlanner`, `StampRun`,
  `ContainerStamps`, `StampTheorems`, `StampAgreement`, `StampOlder`,
  `StampVerdict`, `StampMisled`). `StampRun.Timestamp` takes a document to the
  text of the timestamped document.
- **Three inputs** (`SmallDossier`, `SmallPlan`, `SpellingMisled`, `StampMisled`,
  `NoRoom`): a dossier with everything the structural parser asks for, and what
  three promises come to on it.
- **Three parts that stand alone**: the calendar and RFC 3339 text (`Calendar`,
  `Timestamps`), the stack walk of the inventory (`Inventory`), and the reader of
  unified diffs in the coverage gate (`DiffParser`, `DiffText`).

Where the program works by changing things step by step, the model does too: a
class with a buffer and a stack for the renderer, methods with loops for the
planners, the editors, the passes, the scan, the walk, the enumerations and the
folds. Each such method is proved equal to a function, and the theorems are about
that function.

Hashing, Base64, the signer and the timestamp authority are functions handed in.
Of them the proofs use only that they are functions and that Base64 has no `@`
(`Run.WritesBase64`). The signer and the authority also receive the number of the
plan, so a randomised one may answer differently each time.

## Where a promise needs a condition

Four statements one would expect do not hold of the program as it stands. Each
is stated here with its condition and with an input on which it fails.

- **New identifiers.** The signer looks only at `Id` when it searches for a free
  identifier, while the verifier's ID space also counts `ID` and `id`. The signed
  document has a valid ID space if and only if no new identifier is carried in
  the original under any of the three spellings (`WorkingIds.IdSpaceSurvives`,
  `StampTheorems.StampedIdSpace`). `SpellingMisled.SpellingMatters` is an accepted
  dossier that every dossier signature leaves without a valid ID space.
- **`OBJREF` with a `#`.** The parser and the writers drop a leading `#`. The
  verifier of container timestamps looks the attribute up as it is written. A
  document timestamp is credited with its coverage if and only if what the
  attribute names as written, if anything, is inside what the timestamp covers
  (`StampAgreement.ContainerStampsAgree`). `StampMisled.HashObjrefMisleads` is an
  accepted dossier whose one document is timestamped and then reported to have an
  uncovered payload.
- **Reading again.** Before it plans, and before every pass, the signer reads the
  text it has, under the default limits whatever limits the dossier was accepted
  under. Once planning succeeds a run succeeds if and only if every one of these
  texts is read and the signer and the authority answer
  (`Signer.FailsOnlyOutside`, `StampOlder.OnlyTheAuthorityFails`). Whether the
  texts of signing are read is a matter of sizes: the lengths, node counts and
  element counts of the dossier and of its signatures are added up, and no
  signature may lie too deep (`SignerLimits.SucceedsExactly`). A dossier that is
  accepted but has no room left for its signatures fails
  (`SignerLimits.NoRoomForSignatures`); `NoRoom.FailsWithoutRoom` is one that the
  reader takes, the parser accepts and the signer plans for.
- **Line breaks inside a line.** The diff reader splits its text at every
  character Python's `str.splitlines` breaks at. It inverts the writer of diffs
  on lines. On text, a hunk is read as it was printed, wherever it stands and
  whatever came before, if and only if its pieces settle into a body with as many
  old lines and with new lines of the same kinds, followed by lines that are no
  headers (`DiffText.InStepExactly`); a diff all of whose hunks settle is read
  right (`DiffText.TextIsRead`). Where the pieces never use the counts up, a
  counter falls below zero for good and everything after that hunk is lost
  (`DiffText.LaterFilesAreLost`). `DiffText.FormFeedMisleads` is a diff of two
  files, with a form feed in an added line of the first: two of its four lines
  are reported where they are not, and the second file not at all.

## Model

| member | source | states |
|---|---|---|
| Renderer.Renderer.RenderElement | crates/openszigno-verify/src/c14n.rs:335-380 | the renderer appends exactly the canonical form of the element for the stack it was given, and leaves the namespace stack as it found it |
| Renderer.Renderer.RenderSet | crates/openszigno-verify/src/c14n.rs:254-286 | a whole node set, with the newline rules around the document element, is appended as its octets |
| Renderer.Canonicalize | crates/openszigno-verify/src/c14n.rs:217-240 | the imperative backend computes the specified octets for every node set and all four algorithms |
| C14nAxes.AxisExact | crates/openszigno-verify/src/c14n.rs:382-437 | a declaration is written if and only if its prefix takes part at the element and the output does not already have that URI in force; declarations ascend by prefix |
| C14nAxes.StackFaithful | crates/openszigno-verify/src/c14n.rs:242-251 | below a start tag the innermost written declaration of every prefix that takes part is its URI in the source, and every other prefix is bound as before |
| C14nReader.ReadsBack | crates/openszigno-verify/src/c14n.rs:315-378 | a reader of octets inverts the printer on every legal canonical forest, whatever follows it |
| C14nReader.OctetsDetermineTheTree | crates/openszigno-verify/src/c14n.rs:537-561 | two legal canonical forests with the same octets have the same names, declarations, attributes, text and processing instructions |
| C14nTheorems.OctetsCarryMeaning | crates/openszigno-verify/src/c14n.rs:254-378 | from the octets alone, of an element or of the whole document with its newlines, the expanded names, attributes, text and instructions of the node set are recovered, adjacent text merged |
| C14nTheorems.EqualOctetsEqualMeaning | crates/openszigno-verify/src/c14n.rs:315-378 | two node sets of any two well-formed documents, whole documents included, under any of the algorithms, that render to the same octets mean the same |
| C14nTheorems.ExclusiveIgnoresContext | crates/openszigno-verify/src/c14n.rs:382-437 | two placements of a subtree that leave out the same nodes and agree on the URIs of the free visibly used prefixes of the rest and of the listed ones render alike under exclusive canonicalization, whatever else their ancestors declare or carry |
| C14nTheorems.ExcludedUnread | crates/openszigno-verify/src/c14n.rs:287-313 | replacing anything inside an excluded subtree changes no octet |
| References.DigestReference | crates/openszigno-verify/src/references.rs:164-239 | the transform loop computes the digest comparison of the specified chain, `None` exactly where the chain cannot be processed |
| References.ComputeEffectiveNodeSet | crates/openszigno-verify/src/references.rs:116-139 | the loop over the transforms computes the specified scope |
| ReferenceTheorems.DigestReadsWhatIsCovered | crates/openszigno-verify/src/references.rs:90-139 | whenever a chain without Base64 reaches octets, the start tags a reader finds in them are, in order, those of exactly the elements `covers` accepts, for the whole document as for an element |
| ReferenceTheorems.UnreadIsIrrelevant | crates/openszigno-verify/src/references.rs:164-239 | replacing a subtree outside the apex, or inside the signature the enveloped-signature transform removes, changes no octet any chain digests and no failure |
| Ids.IdMapExact | crates/openszigno-core/src/xml.rs:72-93 | the validated ID map resolves an identifier to an element if and only if that element carries it as `Id`, `ID` or `id` |
| Ids.BuildIdMap | crates/openszigno-core/src/xml.rs:72-93 | the nested loops build that map, or refuse an empty or repeated identifier |
| Ids.ByIdIsTheMap | crates/openszigno-author/src/sign/dsig.rs:178-182 | in a valid ID space the signer's search and the verifier's map resolve every `Id` to the same element |
| SourceText.ReplaceIsSplice | crates/openszigno-author/src/sign/dsig.rs:221-235 | a node's byte range holds its text, and replacing the node is splicing that range |
| SourceText.AppendIsInsert | crates/openszigno-author/src/sign/dsig.rs:206-214 | adding a last child is inserting its text at the insertion offset |
| Splicing.SplicingIsSubstitution | crates/openszigno-author/src/sign/mod.rs:532-540 | splicing pairwise separate edits in descending order equals the simultaneous substitution on original offsets, for any order they are given in |
| Splicing.InsertElements | crates/openszigno-author/src/sign/stamp.rs:365-373 | the in-place insertion loop computes that substitution |
| Splicing.FillIn | crates/openszigno-author/src/sign/mod.rs:662-673 | the in-place fill loop, reading each fragment from the text it is changing, equals substituting every filled fragment of the original text at once |
| TreeEdits.TextFollowsTree | crates/openszigno-author/src/sign/mod.rs:532-540 | for edits at pairwise disjoint nodes, the substituted text is the text of the tree with all the edits made |
| Growth.WriteKids | crates/openszigno-author/src/sign/mod.rs:532-540 | inserting elements as last children, last offset first, writes the text of the tree that has them |
| Growth.FillKids | crates/openszigno-author/src/sign/mod.rs:662-673 | one pass over the text yields the text of the tree whose added elements are the next ones, when each element's own text leads there |
| Placeholders.PassFillsTree | crates/openszigno-author/src/sign/mod.rs:544-574 | replacing placeholders in an element's text replaces exactly its placeholder text nodes, when no tag and no other text holds one |
| Passes.HolesDoNotNest | crates/openszigno-author/src/sign/dsig.rs:74-82 | one placeholder occurs in another only when they are the same |
| Passes.DigestPass | crates/openszigno-author/src/sign/mod.rs:552-574 | the first pass puts every digest into its own reference and touches no other placeholder |
| SignatureFilling.PassSwaps | crates/openszigno-author/src/sign/xades.rs:53-134 | a pass over the whole signature element yields the same element with other values, wherever in the signed or unsigned half a placeholder stands |
| SignatureIds.SignatureBag | crates/openszigno-author/src/sign/names.rs:145-160 | the identifiers a signature element carries are, with multiplicity, exactly the ones its plan accounts for |
| Names.AllocatedIsFree | crates/openszigno-author/src/sign/names.rs:170-193 | an allocated identifier and all derived from it are found nowhere in the document |
| Names.OwnIdentifiersDistinct | crates/openszigno-author/src/sign/names.rs:145-160 | the identifiers of one signature are pairwise distinct |
| Names.OneDocument | crates/openszigno-author/src/sign/mod.rs:388-443 | no identifier belongs to the signatures of two documents, whatever suffixes they were given |
| PlanTheorems.RunIsFresh | crates/openszigno-author/src/sign/mod.rs:474-494 | all identifiers of all plans of a run are new and pairwise distinct, although each plan is allocated against the original alone |
| PlanTheorems.RunIsWellPlanned | crates/openszigno-author/src/sign/mod.rs:350-443 | every plan over an accepted dossier writes into its own document or the dossier, covers children of that container, and is disjoint from every other plan |
| Planner.TargetsExact | crates/openszigno-author/src/sign/mod.rs:236-265 | exactly the documents the selectors name, in document order and once each; refused if and only if a selector names nothing, or there is nothing to sign |
| Planner.SelectTargets | crates/openszigno-author/src/sign/mod.rs:236-265 | the selection loop |
| Planner.PlanEach | crates/openszigno-author/src/sign/mod.rs:388-443 | the planning loop, with the first refusal it meets |
| Dossier.AcceptedDossier | crates/openszigno-core/src/parse.rs:9-113 | what acceptance promises: one profile and one `es:Documents`, the documents with a profile numbered in order, each with exactly one payload its `OBJREF` names |
| Dossier.EnumerateDocuments | crates/openszigno-core/src/parse.rs:60-113 | the enumeration loop |
| Dossier.DocumentsApart | crates/openszigno-core/src/parse.rs:60-113 | distinct documents sit in disjoint elements |
| Working.OldNodeView | crates/openszigno-author/src/sign/mod.rs:184-189 | a node at or above no container looks the same to canonicalization in every working document as in the original |
| SignatureParts.PartOctets | crates/openszigno-author/src/sign/dsig.rs:348-414 | each part of a signature that is hashed has the same octets in any two working documents that agree on what that part holds |
| WorkingIds.IdSpaceSurvives | crates/openszigno-core/src/xml.rs:72-93 | the signed document has a valid ID space if and only if no new identifier was taken under any spelling |
| WorkingIds.SpelledIdSurvives | crates/openszigno-author/src/sign/names.rs:170-193 | a dossier that spells identifiers `Id` always keeps a valid ID space |
| SmallDossier.Accepted | crates/openszigno-core/src/parse.rs:9-182 | the parser accepts a small dossier with every element and attribute it requires, whichever way the payload is named |
| SpellingMisled.SpellingMatters | crates/openszigno-author/src/sign/dsig.rs:178-182 | an accepted dossier, well formed, in which `id` spells the identifier the planned signature gets; the run finishes and the signed document has no valid ID space |
| Run.InsertSignatures | crates/openszigno-author/src/sign/mod.rs:532-540 | the skeletons inserted in the text give the text of the first working document |
| Run.DigestPlans | crates/openszigno-author/src/sign/mod.rs:552-574 | the nested loops of the first pass compute every digest in order, or the first reference or signature that is missing |
| Run.SignPlans | crates/openszigno-author/src/sign/mod.rs:578-611 | the second pass finds every `ds:SignedInfo` before it asks for any signature |
| Run.StampPlans | crates/openszigno-author/src/sign/mod.rs:615-647 | the third pass finds every `ds:SignatureValue` before it asks for any token |
| Reader.Read | crates/openszigno-core/src/xml.rs:30-62 | a text is read if and only if it is within the size limit, the scan accepts it and its tree has at most four nodes for every element allowed |
| TreeScan.DocumentScans | crates/openszigno-core/src/scan.rs:22-101 | the scan accepts a document whose text is the markup of its nodes if and only if the elements of its tree are not too many and do not nest too deep |
| GrownSize.GrownReads | crates/openszigno-core/src/xml.rs:30-62 | a document whose elements gained last children is read if and only if the lengths, element counts and node counts, added up, are within the limits, and neither the document nor an added child is too deep |
| Run.FillDigests | crates/openszigno-author/src/sign/mod.rs:552-574 | the first pass on the text: refused when the text is not read, else the text of the next working document or the first missing part |
| Run.FillSignatureValues | crates/openszigno-author/src/sign/mod.rs:578-611 | the second pass on the text, likewise |
| Run.FillTimestamps | crates/openszigno-author/src/sign/mod.rs:615-647 | the third pass on the text, likewise |
| Run.SignText | crates/openszigno-author/src/sign/mod.rs:184-189 | insertion and the three passes, each reading the text first, end in the text of the last working document, or in the first error |
| RunTheorems.ThreePassConsistency | crates/openszigno-author/src/sign/mod.rs:552-647 | in the final document every digest is that of its target's octets there, every value was made over the final `ds:SignedInfo`, and every token over the final `ds:SignatureValue` |
| RunTheorems.DigestingNeverFails | crates/openszigno-author/src/sign/mod.rs:552-574 | every reference a plan makes resolves once the skeletons are in place |
| Acceptance.EveryReferenceVerifies | crates/openszigno-verify/src/references.rs:257-295 | every reference a run wrote is read back by the verifier, resolves in the ID map to the element it was planned for, and its digest matches |
| OlderSignatures.OlderSignaturesUnbroken | crates/openszigno-author/src/sign/mod.rs:303-345 | when no refusal fires, every older signature is untouched and each of its references names the same element with the same octets under all four algorithms, so no digest verdict on it changes |
| Signer.Sign | crates/openszigno-author/src/sign/mod.rs:155-207 | from the document to the text of the signed document, or the first refusal, those of reading the text before planning and before each pass included |
| Signer.SignedDocument | crates/openszigno-author/src/sign/mod.rs:155-207 | the signed document, with the run's own plans and fillings, fits itself; its ID space is valid if and only if no identifier was taken; and then every reference the run wrote verifies |
| Signer.FailsOnlyOutside | crates/openszigno-author/src/sign/mod.rs:155-207 | once planning succeeds, signing succeeds if and only if every text of the run is read within the limits and the signer and the authority answer for every signature |
| SignerLimits.WorkingReads | crates/openszigno-author/src/sign/dsig.rs:134-163 | a working document is read if and only if the dossier has room for its signatures, in length, elements, nodes and depth |
| SignerLimits.SucceedsExactly | crates/openszigno-author/src/sign/mod.rs:155-207 | once planning succeeds, signing succeeds if and only if the dossier is within its own and the default limits, has room for its signatures before each pass, and the signer and the authority answer |
| SignerLimits.NoRoomForSignatures | crates/openszigno-author/src/sign/dsig.rs:134-163 | an accepted and planned dossier without room for the skeletons is not signed, whatever the signer and the authority answer |
| NoRoom.FailsWithoutRoom | crates/openszigno-author/src/sign/dsig.rs:134-163 | there is a well-formed dossier that is read under the default limits, accepted and planned for, and for which signing fails under those limits whatever the signer and the authority answer |
| Scope.MissingExact | crates/openszigno-verify/src/scope.rs:200-236 | nothing is missing if and only if every requirement is met, and what is reported missing is exactly what is unmet |
| Scope.FindMissing | crates/openszigno-verify/src/scope.rs:200-236 | the loop that looks for missing elements |
| Scope.CollectProfileNodes | crates/openszigno-verify/src/scope.rs:244-274 | the loop that collects a signature's own profile objects, with its fallback |
| ScopeTheorems.EnclosingExact | crates/openszigno-verify/src/scope.rs:405-421 | the upward search finds the nearest signature strictly above a node, and nothing if and only if there is none |
| ScopeTheorems.PlacementExact | crates/openszigno-verify/src/scope.rs:318-402 | a signature is placed in a document, or in the dossier, if and only if none lies strictly above it and its parent is that element of the dossier's namespace; it is a countersignature if and only if it stands in the one shape for that |
| ScopeTheorems.NestedMeans | crates/openszigno-verify/src/scope.rs:355-402 | a nested signature is a countersignature if and only if it is alone in a `CounterSignature` of the unsigned properties of the nearest signature above, and that one was examined |
| ScopeTheorems.PlacedWhereItGoes | crates/openszigno-verify/src/scope.rs:318-352 | a signature written into a document or the dossier is classified as one of that document or the dossier |
| Meeting.SignerMeetsVerifier | crates/openszigno-verify/src/scope.rs:75-236 | every signature planned over an accepted dossier is a document or a dossier signature and its reference scope is complete |
| Verdict.FoldExact | crates/openszigno-verify/src/codes.rs:329-339 | the fold is failed if and only if some check failed, and valid if and only if nothing blocks |
| Verdict.FoldChecks | crates/openszigno-verify/src/codes.rs:329-339 | the folding loop |
| Verdict.VerdictIsMonotone | crates/openszigno-verify/src/codes.rs:322-328 | one more check never raises a verdict, and information leaves it alone |
| Coverage.ReportDocuments | crates/openszigno-verify/src/coverage.rs:142-303 | the loop over the documents, skipping those without a profile |
| Coverage.StateExact | crates/openszigno-verify/src/coverage.rs:142-303 | a document is covered if and only if a valid signature covers it, covered but unverified if only others do, undetermined if none does and one that could not be evaluated might have, and uncovered otherwise |
| Coverage.FoldVerdict | crates/openszigno-verify/src/lib.rs:503-518 | the loop that folds signature verdicts into the dossier verdict, leaving out those unsupported for their placement alone |
| Coverage.ValidExactly | crates/openszigno-verify/src/lib.rs:459-518 | the dossier verdict is valid if and only if nothing else was found, there is a signature, every signature is judged and valid, and no document is uncovered or undetermined |
| Coverage.ValidMeans | crates/openszigno-verify/src/coverage.rs:142-373 | under a valid verdict every modelled document is covered by a valid signature whose scope is complete and whose placement is known, and no signature was left out of the fold |
| StampXml.StampLeads | crates/openszigno-author/src/sign/stamp.rs:258-322 | filling the token's placeholder in a timestamp's text gives the text of the timestamp with the token |
| StampPlanner.StampsPlanned | crates/openszigno-author/src/sign/stamp.rs:168-242 | every planned timestamp goes into its own document or the dossier, includes the two mandated elements below that container, has a free identifier, and passed every refusal |
| StampPlanner.StampEachDocument | crates/openszigno-author/src/sign/stamp.rs:197-240 | the planning loop |
| StampRun.CollectImprints | crates/openszigno-author/src/sign/stamp.rs:383-403 | every imprint is prepared, each included element on its own and in order, before any token is requested |
| StampRun.RequestEach | crates/openszigno-author/src/sign/stamp.rs:405-425 | the loop that requests one token per imprint |
| StampRun.FillTokens | crates/openszigno-author/src/sign/stamp.rs:378-430 | the second pass on the text: refused when the text is not read, else the text with every token in its own element |
| StampRun.Timestamp | crates/openszigno-author/src/sign/stamp.rs:141-164 | from the document to the text of the timestamped document, or the first refusal, those of reading the text included |
| StampTheorems.StampedIdSpace | crates/openszigno-author/src/sign/stamp.rs:346-361 | the timestamped document has a valid ID space if and only if no new identifier was taken under any spelling |
| StampTheorems.StampFound | crates/openszigno-author/src/sign/stamp.rs:378-403 | the search finds each new timestamp where it was written, even when its identifier was taken under another spelling |
| StampTheorems.StampedImprint | crates/openszigno-author/src/sign/stamp.rs:378-430 | the imprint of a timestamp is the same octets whatever tokens are in place, even then |
| ContainerStamps.FindUncovered | crates/openszigno-verify/src/estimestamp.rs:300-345 | the search finds the first required element no include covers, and none if and only if all are covered |
| ContainerStamps.ComputeImprint | crates/openszigno-verify/src/estimestamp.rs:262-275 | the loop concatenates the octets of the included elements in the order of the includes |
| ContainerStamps.PrepareIn | crates/openszigno-verify/src/estimestamp.rs:184-296 | the preparation with its loops and early returns |
| ContainerStamps.Collect | crates/openszigno-verify/src/estimestamp.rs:142-181 | the collecting loop, in document order and up to its limit |
| StampAgreement.ContainerStampsAgree | crates/openszigno-verify/src/estimestamp.rs:184-345 | for every timestamp of a run the verifier finds the scope the writer meant and recomputes exactly the octets the token was requested over, with every element and token in place; for a document timestamp if and only if its `OBJREF` as written leads nowhere else |
| StampAgreement.PlainObjrefFits | crates/openszigno-verify/src/estimestamp.rs:320-332 | an `OBJREF` written without `#` never leads elsewhere |
| StampAgreement.StampIsCollected | crates/openszigno-verify/src/estimestamp.rs:142-181 | every timestamp of a run is among those the verifier collects, unless its limit cuts the list |
| StampMisled.HashObjrefMisleads | crates/openszigno-verify/src/estimestamp.rs:320-332 | an accepted dossier, well formed, for which the run gets its token and the verifier reports of the timestamp that the document's payload is not covered |
| StampOlder.OlderSignaturesKept | crates/openszigno-author/src/sign/stamp.rs:258-286 | when no refusal fires, timestamping leaves every older signature untouched and each of its references with the same element and octets |
| StampOlder.ImprintingNeverFails | crates/openszigno-author/src/sign/stamp.rs:383-403 | once planning succeeds, every included element and every new timestamp is found, whatever identifiers were taken under another spelling |
| StampOlder.OnlyTheAuthorityFails | crates/openszigno-author/src/sign/stamp.rs:141-164 | once planning succeeds, timestamping succeeds if and only if every text it reads is within the limits and the authority answers for every imprint |
| StampVerdict.StampsOnlyContradict | crates/openszigno-verify/src/estimestamp.rs:359-399 | a timestamp that contradicts the container makes the dossier verdict failed; without one, the verdict is what it is with no timestamps at all |
| StampVerdict.SummariseEach | crates/openszigno-verify/src/lib.rs:411-446 | the loop that adds one dossier check per timestamp |
| Scan.ScanExact | crates/openszigno-core/src/scan.rs:22-101 | on every well-formed serialization the scan succeeds if and only if the tree's depth and element count are within the limits, and returns exactly those numbers |
| Scan.Prescan | crates/openszigno-core/src/scan.rs:22-70 | the scanning loop; it ends on every text and its depth never goes below zero |
| Scan.ScanStartTag | crates/openszigno-core/src/scan.rs:75-91 | the start-tag loop, with its quotes and the character before the close |
| Scan.SkipPastAt | crates/openszigno-core/src/scan.rs:93-101 | the offset just past the first terminator, or the end |
| Inventory.WalkExact | crates/openszigno-core/src/inventory.rs:283-299 | the walk visits, once each and in document order, exactly the descendant elements with no signature at or above them below the root |
| Inventory.WalkOwn | crates/openszigno-core/src/inventory.rs:283-299 | the walk with an explicit stack ends and visits what the recursive walk does |
| Calendar.DateRoundTrip | crates/openszigno-verify/src/trust.rs:497-523 | every valid date comes back from its day number |
| Calendar.DayRoundTrip | crates/openszigno-verify/src/trust.rs:497-523 | every integer is the day number of a valid date |
| Calendar.NextDayFollows | crates/openszigno-verify/src/trust.rs:481-505 | the next date, across months, leap days and years, has the next day number |
| Calendar.DaysIncrease | crates/openszigno-verify/src/trust.rs:497-505 | dates are ordered as their day numbers are |
| Timestamps.TimestampRoundTrip | crates/openszigno-verify/src/trust.rs:408-475 | every second of the years 0 to 9999 survives being written and read (section 5.6 of RFC 3339) |
| Timestamps.TextIsRead | crates/openszigno-verify/src/trust.rs:408-462 | a text with proper fields, an optional fraction and a numeric offset or `Z` parses to the instant of its fields minus the offset |
| DiffParser.DiffIsRead | scripts/coverage_gate.py:219-286 | whatever the body lines hold, a path is in the result if and only if it is watched and gains lines, and then with exactly the numbers of its added lines |
| DiffParser.ReadUnifiedDiff | scripts/coverage_gate.py:219-286 | the reading loop with its counters |
| DiffText.InStepExactly | scripts/coverage_gate.py:243-286 | reading a hunk's text does what reading its lines does, whatever was read before and wherever the hunk stands, if and only if its pieces settle into a body with as many old lines and new lines of the same kinds, and then lines to pass over |
| DiffText.TextIsRead | scripts/coverage_gate.py:219-286 | the text of a diff whose hunks all settle is read as its lines are, with exactly the numbers of the added lines |
| DiffText.NothingReadsOn | scripts/coverage_gate.py:243-264 | a counter below zero stays there: the reader takes everything to the end for lines of that hunk and marks no other path |
| DiffText.LaterFilesAreLost | scripts/coverage_gate.py:243-286 | after a hunk whose pieces never use its counts up exactly, whatever follows leaves every path but that hunk's file as it was before |
| DiffText.FormFeedMisleads | scripts/coverage_gate.py:219-286 | a diff that adds lines 1 and 2 to one file and line 1 to another, with a form feed in one of them: it is read as adding 1, 3, 6 and 8 to the first and nothing to the second |

## Left out

- DiffText.TextIsRead: one direction for a diff as a whole, where two wrong readings of one path may make up for each other in the set of its numbers. Each hunk is exact (`DiffText.InStepExactly`). The `diff --git` line and the file name are taken not to break: Git quotes such names.
- Encodings: a character stands for a byte. ISO-8859-2 input, the rewritten XML declaration and UTF-8 boundaries are not part of this model.
- The XML parser: a tree carries the text it was read from, and reading that text back is taken to give the tree. Of its refusals only the limits are part of this model; the tree parser is taken to count every node of the tree, the document node included. After each pass the working document stands for what parsing the text gives.
- The errors canonicalization reports for a tree whose names the source text does not show.
- Cryptography, Base64, CMS and certificates: functions handed in, of which only Base64's alphabet is used.
- Placeholder text in a namespace URI or a signing time: `Signer.Sign` requires that neither holds any, `StampRun.Timestamp` requires it of the namespaces.
- Checks of the structural parser on declared sizes and payload lengths, and its warnings: they can only make it refuse more.
- The per-signature stages behind the verdict (certificates, revocation, token verification): their results are arbitrary check lists.
- Messages, report layout and the reasons given with a refusal; where a reason decides something, it is a constructor.
- Digits outside ASCII, which the diff reader's pattern also accepts in a hunk header.
- The ranges the coverage gate prints, and everything it computes from coverage files.
- The rest of the inventory: what it reports about each signature it walks.
- References of older timestamps: the refusals inspect `ds:Reference` only, and so do the theorems about older signatures.
- Extraction, encryption, the command line, networking and remote signing.
