# Verification model of the yaml-sigil-traits release tooling

The published crate of this repository is a set of traits. What can go wrong
lies in its release tooling under `xtask/src`: a finalizer that must survive
crashes and lost replies while branches move, provenance checks over a commit
graph, version progression, a subprocess runner that must not hang or leak, and
byte-level inspection of archives and inventories. This project models those
parts in Dafny and proves what they promise.

## How the model is organised

| modules | component |
|---|---|
| `Wrappers`, `Decimal`, `Text`, `SemVer` | decimal and separator text with their inverses; precedence of section 11 of Semantic Versioning 2.0.0 as a total order |
| `ReleasePolicy`, `SupportRuns`, `SupportTags`, `MainLine` | release lines, support progression and activation, main-line activation and preparation; theorems over whole runs of versions |
| `CommitGraph`, `Provenance`, `ProvenanceExact`, `CrissCross`, `LiveBinding` | a commit DAG with merge bases, `Binding::load`, the API and the local verifier, a concrete repository, and `Binding::verify` against branches that move between its reads |
| `Finalizer`, `FinalizerSafety`, `FinalizerHistory`, `FinalizerAuthority`, `FinalizerConfirm`, `FinalizerSnapshot`, `FinalizerRecovery`, `FinalizerRetry`, `LineSwitch`, `FinalizerCode` | `finalize` as a client of a changing server: the state machine, its invariant, whole-run results, authority of every POST, the one instant behind it and the readbacks before every good end, exactly which retries succeed after crashes, and the straight-line code proved to be that machine |
| `BoundedPipes`, `BoundedProcess` | captures, incremental input and the Unix event loop, as classes over a demonic operating system |
| `TarWalk`, `Archive`, `ArchivePack` | the tar walk, the inspection loop, and packing as its inverse |
| `PackageContent` | exact package inventories |

Two views of the finalizer are connected. `Finalizer` is a deterministic
machine: a program counter, the one call made there (`Ask`), what the client
does with the reply (`Next`), what the server does (`Handle`), and labels that
choose the environment's moves, lost calls, lost replies and crashes.
`FinalizerCode` is the source's imperative code over a transport that accepts
only the call the machine makes next, so it verifies only if it makes the same
calls and decisions; every result about machine runs holds of it.

Operating-system and server behaviour is chosen by nondeterministic methods
(`Pipe.Read`, `Sink.Write`, `Clock`, `Child`) or by arbitrary scripts
(`Repository`, `Transport`), so each theorem holds for every behaviour these
contracts allow. The direct child of a subprocess has an arbitrary finite
`patience`: the loop has no overall timeout while the child lives, and every
run that ends sees finitely many polls.

## Properties that do not hold as first stated

Each is proved with its exact condition, most with a concrete counterexample.

- The two verifiers of a binding need not agree when they prefer different
  merge bases: on a tip that merged part of main, the comparison API and
  `git merge-base` may name different best common ancestors. `CrissCross` is a
  concrete repository whose binding loads and on which they disagree. With one
  merge-base rule for both they agree on every graph (`SameRuleAgrees`); for
  unrelated rules they agree on a tip whichever merge base the API prefers if
  and only if the anchor is not one of several best common ancestors of tip and
  main (`VerifiersAgreeIff`).
- A retry need not complete a release whose first attempt was made on another
  line: after a stable was released from a support line and its source merged,
  a retry on main finds the Release but a Latest that never moved
  (`SupportReleaseBlocksMain`; `MainRetryFails` is a concrete run). A
  retry whose calls take effect succeeds if and only if it finds the server ready and its
  Latest fitting (`FinalizerRetry.CrashesConverge`); `FitsIff` says when that
  is, and a retry on the line of the first attempt always fits
  (`SameLineFits`).
- A preparation on main can move the version down when release-plz derives the
  selected version itself, since nothing is checked then
  (`PreparationCanRegress`). It moves up if and only if the derived version was
  adjusted or is later than the original (`PreparationAdvancesIff`).
- An accepted support version can lie below a published one that is out of
  order (`AcceptedBelowPublished`). It exceeds exactly the in-line versions of
  a lower patch and the prereleases of its own patch (`AcceptedExceeds`). A
  nonempty run increases if and only if it starts where the line holds nothing
  above its last stable but prereleases of the next patch (`RunsIncreaseIff`).
- A branch name can be written but not read back for components above
  999999999 (`BaseRefReadsBack`).
- A subprocess can succeed without having taken all its input. What was written
  is always a prefix of the input, and on success it is the whole input if and
  only if the last write neither found a broken pipe nor would have blocked
  (`OutputInner`, `Output`).

Recovery of an accepted source outlives every linear advance of main that keeps
the line's inventory and anchor (`RecoveryStable`). Its one condition, that the
anchor is not the main whose tree records it, holds of every Git history: a
tree cannot contain the identifier of the commit that holds it.
`RecoveryStableIff` says what would happen even without that.

## Model

| member | source | states |
|---|---|---|
| SemVer.PrecedenceIsTotalOrder | xtask/src/release_policy.rs:143-147 | precedence is reflexive, total and transitive, and its strict part is transitive; equal precedence means equal but for build metadata |
| SemVer.PrecedenceRule | xtask/src/release_policy.rs:143-147 | precedence is the one of section 11: core numbers by value, a prerelease below its stable, then the first differing identifier decides, numeric by value and below alphanumeric, a proper prefix below its extensions |
| SemVer.TextRule | xtask/src/package_content.rs:126-138 | text compares as less exactly for a proper prefix or a smaller character at the first difference |
| ReleasePolicy.BaseRefReadsBack | xtask/src/release_policy.rs:61-94 | writing a line's branch name and reading it gives the line back exactly when its components are at most 999999999, and fails otherwise |
| ReleasePolicy.BaseRefIsCanonical | xtask/src/release_policy.rs:61-87 | every accepted branch name is the one spelling of the line it yields |
| ReleasePolicy.OrdinalIsExact | xtask/src/release_policy.rs:155-168 | the text tests on a candidate accept exactly the prerelease identifiers rc and N with N from 1 to the u64 maximum, as N |
| ReleasePolicy.Greatest | xtask/src/release_policy.rs:143-147 | the maximum of a list is one of its members and no member exceeds it |
| SupportRuns.AcceptedShape | xtask/src/release_policy.rs:132-181 | an accepted support version is new, in line, without build metadata, of the patch after the last stable, and stable or a positive candidate |
| SupportRuns.AdvancesIff | xtask/src/release_policy.rs:132-181 | a support version is accepted if and only if it is in line, unpublished, without build metadata, of the patch after the last stable, and either stable or a candidate that is the first thing at its patch or one more than the greatest there |
| SupportRuns.AcceptedExceeds | xtask/src/release_policy.rs:132-181 | an accepted version exceeds exactly the in-line versions of a lower patch and the prereleases of its own patch |
| SupportRuns.AcceptedBelowPublished | xtask/src/release_policy.rs:132-181 | a concrete published set in which an accepted version is below a published one |
| SupportRuns.StepExceedsIff | xtask/src/release_policy.rs:132-181 | an accepted version exceeds everything in the line if and only if the line holds nothing above its last stable but prereleases of the next patch |
| SupportRuns.StepStaysSettled | xtask/src/release_policy.rs:132-181 | accepting from such a set leaves such a set, whose baseline moves exactly when the accepted version is stable |
| SupportRuns.RunStaysSettled | xtask/src/release_policy.rs:132-181 | the same through every sequence of accepted versions |
| SupportRuns.RunsIncrease | xtask/src/release_policy.rs:132-181 | every version of such a run exceeds everything in the line before it |
| SupportRuns.RunsIncreaseIff | xtask/src/release_policy.rs:132-181 | a nonempty run increases over everything in the line if and only if it starts from such a set |
| SupportRuns.RunsFollow | xtask/src/release_policy.rs:132-181 | neighbours of a run are: stable, then the next patch; rc.N, then rc.N+1 or the stable of that patch |
| SupportRuns.StablesConsecutive | xtask/src/release_policy.rs:132-181 | two stables with only candidates between them have consecutive patches |
| SupportTags.CollectVersions | xtask/src/github/support.rs:192-209 | refs are collected exactly when they are few enough, all of the family, and annotated where that is demanded; other spellings are ignored |
| SupportTags.RequireFreshProgression | xtask/src/github/support.rs:180-211 | main is free; a support line passes exactly when its tags are well formed and the version may advance over those they name, spelled out as in `AdvancesIff` |
| SupportTags.SelectSuccessor | xtask/src/github/support.rs:213-250 | succeeds exactly when the selected version is the line's greatest tagged stable and some tag is a stable of a later line; the answer is the greatest of those |
| SupportTags.SuccessorExceedsLine | xtask/src/release_policy.rs:119-128 | corollary of the definition: a successor follows every version of the line |
| SupportTags.SuccessorIff | xtask/src/release_policy.rs:119-128 | a version is a successor exactly if it is stable, outside the line, and follows every version of it |
| SupportTags.NamedIff | xtask/src/github/support.rs:197-203 | a ref names a version exactly if it is the prefix and that version's own canonical text |
| SupportTags.ActivationFixesNextPatch | xtask/src/github/support.rs:213-250 | a newly opened line accepts next only a stable or candidate of the patch after its anchor, above the anchor, below the successor, and not tagged before |
| MainLine.CandidateText | xtask/src/release.rs:315-340 | a prerelease is written rc.N exactly when it is the identifiers rc and N |
| MainLine.NextCandidateIsExact | xtask/src/release.rs:308-345 | exactly the positive candidates below the u64 maximum have a next one, and it is one more |
| MainLine.ActivationIff | xtask/src/release.rs:115-130 | activation succeeds exactly from a stable to a later stable target, and yields rc.0 of the target's core |
| MainLine.ValidSelectionIff | xtask/src/release.rs:243-249 | a selection is valid exactly without build metadata and if it is not rc.0 |
| MainLine.AdjustmentIff | xtask/src/release.rs:308-383 | exactly five kinds of adjustment are accepted, given as conditions on the identifiers and cores of the three versions |
| MainLine.AdjustmentsAdvance | xtask/src/release.rs:308-383 | every accepted adjustment moves up, stays in the core of a prerelease, leaves a stable only for a prerelease, and never selects rc.0 |
| MainLine.PreparationAdvancesIff | xtask/src/release.rs:157-189 | an accepted preparation moves up if and only if the derived version was adjusted or is later than the original |
| MainLine.PreparationCanRegress | xtask/src/release.rs:181-184 | a concrete accepted preparation that moves down |
| MainLine.MainStep | xtask/src/release.rs:115-130 | activation and adjustment each move up; rc.0 arises only from activation, and only from a stable |
| MainLine.MainRunSteps | xtask/src/release.rs:157-184 | the same between any neighbours of a run |
| MainLine.MainRunsIncrease | xtask/src/release.rs:308-383 | every run of activations and adjusted preparations strictly increases |
| MainLine.MainRunsKeepCore | xtask/src/release.rs:308-383 | from a prerelease on, a run keeps its core until the stable release of that core |
| CommitGraph.BestAbove | xtask/src/github/provenance.rs:113-121 | every common ancestor lies below a best common ancestor |
| CommitGraph.AncestorIsOnlyBest | xtask/src/github/provenance.rs:213-217 | a commit is an ancestor of another exactly when it is their only best common ancestor |
| Provenance.UniqueBlobs | xtask/src/github/provenance.rs:407-433 | object entries become a map exactly when paths are distinct and at most 256, and the map has exactly those entries |
| Provenance.CollectBlobs | xtask/src/github/support.rs:306-319 | the seed loop succeeds exactly when the paths are distinct and each is an allowed regular blob, and maps each path to its blob |
| Provenance.SeedInventory | xtask/src/github/support.rs:299-330 | succeeds exactly when the seed is readable and lists 1 to 256 distinct paths, each a regular blob of main; the inventory holds those blobs under those paths, and requires just what the historical check of that main looks for |
| Provenance.FreshIsRecoverable | xtask/src/github/provenance.rs:107-136 | corollary of the definition: every binding accepted as fresh is accepted as recovery, otherwise unchanged |
| Provenance.FreshBlobChain | xtask/src/github/provenance.rs:263-300 | corollary of the definition: under an enforcing main inventory source, recorded policy commit and main carry the same blob at every path main requires |
| ProvenanceExact.RequirePathIff | xtask/src/github/support.rs:332-344 | which policy paths are allowed: normalized, of letters, digits, dot, dash and underscore, outside the inventories |
| ProvenanceExact.BlobIff | xtask/src/github/support.rs:346-363 | a path has a blob exactly if it is allowed and names a regular or executable file |
| ProvenanceExact.InventoryIff | xtask/src/github/provenance.rs:228-261 | an inventory is read exactly if its file is regular, decodes, and is of this schema and base with 1 to 256 allowed paths |
| ProvenanceExact.RecoverIff | xtask/src/github/provenance.rs:89-119 | recovery accepts a source if and only if main holds only this line's inventory, anchors and merge base agree, and the recorded paths are those the policy commit demanded, with their blobs there and in the source |
| ProvenanceExact.FreshIff | xtask/src/github/provenance.rs:119-136 | a fresh source is accepted if and only if recovery would accept it and, under an enforcing main inventory, it requires the same paths and carries main's blobs there |
| ProvenanceExact.ApiIff | xtask/src/github/provenance.rs:148-181 | the API check is: fresh means the tip itself, the source is an ancestor of the tip, and both merge bases with main are the anchor |
| ProvenanceExact.GitIff | xtask/src/github/provenance.rs:183-194 | the local check is the same with the tip's merge base alone |
| Provenance.MergedSourceRejected | xtask/src/github/provenance.rs:89-136 | on any graph, a source containing a main commit made after the anchor is rejected |
| Provenance.MainOutsideSource | xtask/src/github/provenance.rs:89-136 | an accepted source contains main itself exactly where main is its own anchor |
| Provenance.RecoveryStable | xtask/src/github/provenance.rs:89-136 | an accepted source stays accepted at every linear extension of main that keeps the inventory and anchor; the binding differs only in its main |
| Provenance.RecoveryStableIff | xtask/src/github/provenance.rs:89-136 | on any graph, even one with a main that is its own anchor, the source stays accepted if and only if it contains none of the commits main gained |
| Provenance.LineageIsAncestry | xtask/src/github/provenance.rs:152-160 | the API's lineage test is the ancestor test, whichever merge base it prefers |
| Provenance.SourceInheritsAnchor | xtask/src/github/provenance.rs:161-174 | if the anchor is the tip's only best common ancestor with main, it is the source's |
| Provenance.VerifiersAgree | xtask/src/github/provenance.rs:148-194 | outside the ambiguous case the API check and the local check accept the same tips |
| Provenance.SameRuleAgrees | xtask/src/github/provenance.rs:148-194 | with one merge-base rule for both, the API check and the local check accept the same tips on every graph |
| Provenance.VerifiersCanDisagree | xtask/src/github/provenance.rs:148-194 | in the ambiguous case there is an API preference with which exactly one accepts |
| Provenance.VerifiersAgreeIff | xtask/src/github/provenance.rs:148-194 | the checks agree for every API preference if and only if the anchor is not one of several best common ancestors |
| CrissCross.BindingLoads | xtask/src/github/provenance.rs:79-146 | a concrete support binding loads, whichever merge base git prefers |
| CrissCross.RecoveryOutlivesAdvance | xtask/src/github/provenance.rs:89-136 | its recovery still loads after main advanced |
| CrissCross.FreshLoadsAfterAdvance | xtask/src/github/provenance.rs:119-136 | the same source also loads as a fresh one after main moved on from the recorded policy commit |
| CrissCross.VerifiersDisagree | xtask/src/github/provenance.rs:148-194 | this loaded binding and a tip that merged part of main, on which the API check accepts and the local check rejects |
| LiveBinding.TimelineOrder | xtask/src/github/provenance.rs:148-181 | when branches only fast-forward, earlier tips are ancestors of later ones |
| LiveBinding.Pinned | xtask/src/github/provenance.rs:175-180 | a branch read with one value at two instants had it throughout |
| LiveBinding.Repository.ReadRef | xtask/src/github/provenance.rs:197-207 | returns the present tip or fails, after any fast-forwards of others |
| LiveBinding.Repository.CompareCommits | xtask/src/github/provenance.rs:209-211 | returns the comparison of immutable commits or fails |
| LiveBinding.RequireAnchor | xtask/src/github/provenance.rs:161-174 | success means both comparisons place the merge base at the anchor |
| LiveBinding.CheckTip | xtask/src/github/provenance.rs:148-174 | the first reading of the base and all comparisons, in order; success is exactly that the tip read passes the check |
| LiveBinding.Verify | xtask/src/github/provenance.rs:148-181 | success means the requests were made in order, and from the first reading of the base past every comparison to the second, main was the policy commit and the base tip a value that passes the check; without interference it succeeds if and only if the tips pass |
| Finalizer.GuardRemembers | xtask/src/github/latest.rs:26-52 | corollary of the definition: a guard keeps the Latest it was made from |
| Finalizer.ValidTagIff | xtask/src/github.rs:1112-1125 | a tag object is valid exactly if it is the App's tag and message of the version on the source commit, with that commit's date |
| Finalizer.ValidReleaseIff | xtask/src/github.rs:1180-1198 | a Release is valid exactly if it is this version's on the source commit: body, prerelease flag, published, immutable, no assets |
| Finalizer.ObserveIff | xtask/src/github/latest.rs:83-106 | Latest is observed exactly if there is none or it is one stable Release of the family |
| Finalizer.CaptureIff | xtask/src/github/latest.rs:26-52 | a guard is refused exactly for build metadata or a support job whose version is Latest; it advances exactly for a stable main-line version above Latest |
| FinalizerSafety.StepKeepsInv | xtask/src/github.rs:919-1198 | every client, environment, crash and start step keeps stage order, the order of Latest, and what a running client knows |
| FinalizerSafety.NewReleaseInOrder | xtask/src/github/latest.rs:26-52 | a Release created under its guard leaves Latest the greatest main-line stable |
| FinalizerSafety.Reachable | xtask/src/github.rs:919-1198 | the invariant holds in every reachable state |
| FinalizerHistory.StagesInOrder | xtask/src/github.rs:928-953 | in every reachable state a Release names the commit, version, body and flags it should and implies its tag; the tag puts that version on the commit its published archive records, by the App and with that commit's date; no version got two Releases |
| FinalizerHistory.SuccessIsComplete | xtask/src/github.rs:919-959 | a job that ended Ok left the tag and the Release just described, on its own source |
| FinalizerHistory.RunRetains | xtask/src/github.rs:1028-1166 | published archives, tag refs and Releases are never replaced or removed |
| FinalizerHistory.LatestIsGreatest | xtask/src/github/latest.rs:26-81 | over any serialized sequence of jobs, Latest is the greatest main-line stable version finalized so far |
| FinalizerHistory.StepWritesLatest | xtask/src/github.rs:1140-1155 | corollary of the definition: only the Release call of an advancing guard writes Latest |
| FinalizerHistory.StepRaisesLatest | xtask/src/github/latest.rs:54-56 | Latest moves only up, and only through a stable main-line Release; support and prerelease jobs leave it |
| FinalizerHistory.LatestNeverFalls | xtask/src/github/latest.rs:26-81 | Latest never goes down between any two points of a run |
| FinalizerHistory.OwnStateQualifies | xtask/src/github.rs:551-616 | the partial-state checks of `qualify`, which validation never reaches, do not reject what a crashed or finished finalizer left, even when others act between the reads |
| FinalizerHistory.QualifiesIff | xtask/src/github.rs:551-616 | exactly what qualifies, of any server: an archive absent or of this source as the mode allows, only the exact tag and Release, and each stage presupposing the one before |
| FinalizerHistory.JobsAreBounded | xtask/src/github.rs:919-1166 | in every run, at every point of its log, at most 52 calls were made since the last start |
| FinalizerHistory.CallsAreBounded | xtask/src/github.rs:919-1166 | the step behind it: each call lowers the number of calls a client can still make, from at most 52 |
| FinalizerAuthority.CreationsAreAuthorized | xtask/src/github.rs:1028-1155 | in every trace each creation follows immediately on a complete successful rebind ending with main at the policy commit; a Release also on the exact tag object and an unchanged Latest; each creation carries exactly the source, names and flags it should |
| FinalizerConfirm.EndsAreConfirmed | xtask/src/github.rs:928-1166 | a job that ended well had, as its last four calls, read back a valid Release, the tag ref, the exact tag object and Latest as intended; Latest is captured directly after the exact tag was read, and the rebind before the tag directly follows the archive, scope and commit checks |
| FinalizerSnapshot.CreationsHaveSnapshots | xtask/src/github.rs:1028-1155 | when branches only fast-forward and jobs start with main at their policy commit, each creation has behind it, at most nine calls ago, one instant with main at the policy commit and the base at a tip that passes the binding check |
| FinalizerRecovery.QuietStep | xtask/src/github.rs:919-1198 | a call that takes effect keeps a retryable job on its way to success and brings it closer, even if the reply to a tag ref or a Release is lost |
| FinalizerRecovery.QuietRun | xtask/src/github.rs:919-1198 | so does every number of such calls, without creating anything that exists |
| FinalizerRecovery.CaptureSucceeds | xtask/src/github/latest.rs:26-52 | in an orderly server Latest can be read, and a retry that fits takes its guard from it |
| FinalizerRecovery.ExistingIsSettled | xtask/src/github/latest.rs:67-81 | corollary of the definition: for a retry that fits, an existing Release left Latest as its guard intends |
| FinalizerRecovery.RetryCompletes | xtask/src/github.rs:919-1166 | after any run with crashes and lost replies, 52 calls that take effect end a retryable job Ok, whatever replies to its tag ref and Release are lost, with tag and Release complete and nothing existing created again |
| FinalizerRetry.FitsIff | xtask/src/github/latest.rs:26-81 | Latest does not fit exactly when the version already is Latest but the job is for a support line, or its Release exists although it would have to raise Latest |
| FinalizerRetry.SameLineFits | xtask/src/github/latest.rs:26-81 | a job for the line that created the Release, if there is one, always fits |
| FinalizerRetry.DoomedStep | xtask/src/github.rs:1127-1137 | a job that does not fit stays without a way to succeed through every call, however it goes |
| FinalizerRetry.SeenStep | xtask/src/github.rs:919-950 | each call of an undisturbed job adds to what it has established of the server; nothing later than the checks relies on less |
| FinalizerRetry.SuccessNeeds | xtask/src/github.rs:919-1166 | a retry that ends well found the server ready and fitting, however its calls went |
| FinalizerRetry.CrashesConverge | xtask/src/github.rs:919-1166 | after any run with crashes and lost replies, 52 calls that take effect end a retry Ok, whatever replies to its tag ref and Release are lost, if and only if it finds the server ready and fitting; then tag and Release are complete and nothing existing was created again |
| LineSwitch.RunKeepsLatest | xtask/src/github/latest.rs:26-56 | a job with no part in Latest leaves it as it was |
| LineSwitch.SupportReleaseBlocksMain | xtask/src/github/latest.rs:67-81 | after a support finalization of a stable above Latest, no retry of that version on main fits |
| LineSwitch.MainRetryFails | xtask/src/github.rs:1133-1137 | a concrete reachable server that is ready for a main-line retry on which every such retry fails |
| FinalizerCode.Transport.Send | xtask/src/github/transport.rs:21-33 | one call adds to the run any moves of others and exactly one client step |
| FinalizerCode.Rebind | xtask/src/github/provenance.rs:148-181 | the code of the live verify makes the machine's calls and decisions |
| FinalizerCode.RequireAnchor | xtask/src/github/provenance.rs:161-174 | likewise its anchor comparisons |
| FinalizerCode.InspectTag | xtask/src/github.rs:1074-1097 | likewise the tag inspection |
| FinalizerCode.RequireExactTagObject | xtask/src/github.rs:1099-1110 | likewise the exact-object check |
| FinalizerCode.ReconcileTag | xtask/src/github.rs:1028-1072 | likewise creation and confirmation of the tag |
| FinalizerCode.InspectRelease | xtask/src/github.rs:1168-1178 | likewise the Release inspection |
| FinalizerCode.VerifyLatestGuard | xtask/src/github/latest.rs:67-81 | likewise the final Latest check |
| FinalizerCode.ReconcileRelease | xtask/src/github.rs:1127-1166 | likewise the Release decision |
| FinalizerCode.CreateAndReadBack | xtask/src/github.rs:1138-1166 | likewise its creating half |
| FinalizerCode.CreateOnce | xtask/src/github.rs:1141-1160 | likewise the one POST of the Release and what follows its error |
| FinalizerCode.ReadBack | xtask/src/github.rs:1157-1166 | likewise the checks after the Release exists |
| FinalizerCode.ValidatePublication | xtask/src/github.rs:928-945 | likewise archive, scope and commit checks |
| FinalizerCode.Finalize | xtask/src/github.rs:919-959 | the whole job ends exactly as the machine does; from any orderly server, success leaves the tag and Release of the published source, spelled out |
| BoundedPipes.ReadBoundedPipe | xtask/src/bounded_process.rs:57-71 | without an error it returns exactly the stream up to one byte past the limit and whether it was exceeded |
| BoundedPipes.Capture.constructor | xtask/src/bounded_process.rs:317-328 | a capture starts open, empty and valid |
| BoundedPipes.Capture.Drain | xtask/src/bounded_process.rs:338-375 | keeps exactly the prefix read, at most one byte past the limit; a capture complete or exceeded equals the one-shot result; progress consumes its budget; it stops short only on would-block |
| BoundedPipes.Feed.WriteInput | xtask/src/bounded_process.rs:459-495 | what the child got is exactly the input up to the offset; the writer is given up early only on a broken pipe; the input is incomplete after a broken pipe or a would-block; each error is what the pipe answered |
| BoundedProcess.ValidateLimits | xtask/src/bounded_process.rs:73-89 | passes exactly when both limits have a successor and the input is at most 4 MiB |
| BoundedProcess.TerminateTree | xtask/src/bounded_process.rs:410-415 | kills the group, then the child exactly when it is not known to be gone |
| BoundedProcess.ReapUntil | xtask/src/bounded_process.rs:442-457 | a status is the child's; without one the child is unreaped, and unless a wait failed the deadline has passed; the tries fit the time to the deadline |
| BoundedProcess.Transfer | xtask/src/bounded_process.rs:605-637 | one half-pass: progress lowers the remaining work, a failure is true of its pipe, no failure means no limit exceeded and every open end would block |
| BoundedProcess.EventLoop | xtask/src/bounded_process.rs:604-671 | ends without failure only with the child reaped and both streams at end of file; after the poll that reports the exit it ends within the work left at that poll plus 26 passes, and begins none once the grace is known to be over; a poll failure is what the poll answered |
| BoundedProcess.Abort | xtask/src/bounded_process.rs:673-683 | every failure kills the group after polls only and before reaping, keeps its cause, and reports whether the child was reaped; not reaped means that a wait failed or two seconds passed, and the waits are bounded |
| BoundedProcess.OutputInner | xtask/src/bounded_process.rs:535-691 | success is a reaped child and both entire streams within limits, with the whole input delivered if and only if the last write neither broke nor would have blocked; every exit but a rejected limit killed the group after polls only, and its cause is true |
| BoundedProcess.Output | xtask/src/bounded_process.rs:113-129 | with the limits checked first, no exit after the spawn escapes the kill and the capture error cannot occur; success means what it means for the inner function |
| TarWalk.WalkIsSound | xtask/src/crate_archive.rs:553-602 | what the walk accepts is its entries followed by a zero terminator and nothing else |
| TarWalk.WalkIsComplete | xtask/src/crate_archive.rs:553-602 | whatever splits that way is accepted with those very entries |
| TarWalk.SplitIsUnique | xtask/src/crate_archive.rs:553-602 | there is never more than one way to split |
| TarWalk.ValidateTarTermination | xtask/src/crate_archive.rs:553-602 | for every byte string: no slice out of range, no overflow missed, and acceptance if and only if it splits |
| Archive.RawPathIsPadded | xtask/src/crate_archive.rs:684-697 | the raw name is accepted exactly when it is the path and then NULs to the end of its 100 bytes |
| Archive.ArchivePathIff | xtask/src/crate_archive.rs:702-713 | a path passes exactly if it is normalized, free of NUL, line ends and backslashes, and the root or something below it |
| Archive.CleanStep | xtask/src/crate_archive.rs:453-514 | one more entry keeps the collected prefix clean exactly when it passes its own checks |
| Archive.FileCount | xtask/src/crate_archive.rs:503-514 | distinct names give one file for each entry |
| Archive.FileByName | xtask/src/crate_archive.rs:503-514 | each name maps to its own entry's header and body |
| Archive.Inspect | xtask/src/crate_archive.rs:429-527 | the loop returns files if and only if the archive meets the exact acceptance condition, and then exactly the files of its entries |
| ArchivePack.AdmissibleName | xtask/src/crate_archive.rs:702-713 | an accepted path is the root and a name without empty, dot or dot-dot parts, NUL, line ends or backslashes |
| ArchivePack.AcceptedArchive | xtask/src/crate_archive.rs:445-527 | every accepted archive yields one file for each physical entry, safely and uniquely named, with body equal to its byte range, within both limits, and every header passed its checks |
| ArchivePack.PackThenInspect | xtask/src/crate_archive.rs:445-527 | packing any files an archive may hold, in any order, and inspecting returns those files |
| ArchivePack.PlainIsFaithful | xtask/src/crate_archive.rs:684-697 | encoders that satisfy the round trip's assumption exist |
| PackageContent.ParseInventory | xtask/src/package_content.rs:109-143 | accepts exactly the canonical texts and returns the set of their lines |
| PackageContent.ValidPathIff | xtask/src/package_content.rs:156-176 | a path is valid exactly if it is normalized, not a comment and without backslashes |
| PackageContent.PlainNames | xtask/src/package_content.rs:156-176 | a name without separators is valid, with a leading dot too, unless it is empty, a dot name or a comment |
| Text.NormalizedIff | xtask/src/package_content.rs:163-175 | the normalized paths are exactly the components joined by slashes, none empty or a dot name |
| PackageContent.AcceptedIsRendered | xtask/src/package_content.rs:109-143 | the canonical texts are exactly the renderings of nonempty strictly increasing lists of valid paths |
| PackageContent.ListingIsUnique | xtask/src/package_content.rs:126-138 | a set has only one strictly increasing listing |
| PackageContent.ParseThenPrint | xtask/src/package_content.rs:109-143 | printing the parsed set gives the accepted text back byte for byte |
| PackageContent.PrintThenParse | xtask/src/package_content.rs:109-143 | every nonempty set of valid paths printed in byte order parses to itself |
| PackageContent.DifferenceIsExact | xtask/src/package_content.rs:178-186 | both difference lists are empty exactly for equal sets, and together they rebuild the expected set from the actual one |
| PackageContent.CheckPackage | xtask/src/package_content.rs:55-97 | succeeds exactly when both texts are canonical and the sets agree once the lockfile is added |
| PackageContent.MatchingInventoryIsUnique | xtask/src/package_content.rs:55-97 | at most one inventory text matches a package listing |

## Left out

- Server assumptions: refs and Releases are created only if absent, nobody updates or deletes release tags or Releases, immutability is on for the repository, `make_latest` takes effect together with its Release, and finalizations are serialized. Without serialization Latest could fall, since nothing guards between the last Latest read and the Release call.
- Effects that arrive after their call failed: a creation takes effect during its call or not at all.
- Identity and review checks (signer, DCO, App scope, workflow run, merged pull request): each is one abstract condition of a job, a commit or the world.
- Tag and Release names: a version stands for its tag text; the prefix, the message text and the changelog body are functions of version and source.
- Retry sleeps, the registry wait and the transport's retries of reads: a read either fails or answers.
- `qualify` beyond its mode, registry and partial-state checks, and `start` and `published_source` of support activation: sequences of reads settled one at a time.
- `git merge-base` prints the best common ancestor of the newest date; here it is any fixed choice from the set of best common ancestors, so the answer depends on that set alone. Whether the API follows the same rule is not known to the source, so both cases are covered.
- JSON decoding, TOML editing, git and gh commands, file access: their results are inputs.
- ReleasePolicy.Greatest: Rust's `max` also orders build metadata among versions of equal precedence; every use reads only parts that such versions share.
- The Windows half of the subprocess runner, the `/proc` scan and the subreaper scope, including the flag that a late failure of `SubreaperScope::enter` leaves set, and the wait for a quiescent group on other Unix systems.
- BoundedPipes.ReadBoundedPipe: does not model the retry of interrupted reads, which deliver nothing.
- Pipe handles missing after a spawn: the streams are requested as pipes, so they are present.
- BoundedProcess.EventLoop: runs in which the direct child never exits are those that never end.
- SHA-256, gzip decoding with its size limit, UTF-8 validity, header checksums and numeric fields: parameters of the archive codec. One size field serves both the walk and the inspection; sparse headers, where they differ, are refused by type.
- ArchivePack.PlainIsFaithful: its codec is a minimal witness, not Cargo's header encoder.
- Bytes are characters of a `string` in the archive and inventory modules, and comparison is by character, which for UTF-8 text is the byte order.
- `Path::components` on Windows: on Unix a path with only normal parts has only normal components.
- `format_difference`, command assembly, coverage and feature checks, and the traits of the published crate: one reading settles them.
