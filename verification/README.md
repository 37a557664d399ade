# Execution assurance, proved

A Dafny model of how the program decides that a piece of work is done: a run is dispatched, verified, evidenced, reviewed and
finalized while anyone may edit the working tree in between; a cache may stand in for running a gate; adapters are installed
into host directories; and receipts record what a host did. Operations that update state are methods of classes, each proved
equal to a step of a specification; the properties are proved of the specification, over every run.

- `Basics`, `Gates`, `Records`: shared values, the gate registry, the durable entities.
- `Derivation`, `TypedSelection`, `AssurancePolicy`: gate status from the two ledgers, the selection plan, the policy loop.
- `GateReadings`, `ApprovalBacking`, `PolicyReadings`: what passes a gate, warrants an approval and satisfies the policy, read off
  the records, the plan and the run.
- `CacheIntegrity`, `CacheValidity`, `CachePopulation`, `CacheStore`, `CacheSearch`, `CacheDecision`, `CacheReuse`,
  `CacheRoundTrip`, `CacheReadings`, `CacheEngine`: the evidence cache; `CacheEngine.EvidenceCache` is the store as it is rewritten.
- `Lifecycle`, `LifecycleSteps`, `EvidenceRecording`, `LifecycleInvariant`, `LifecycleSafety`, `LedgerStanding`, `Objections`,
  `CompletionGrounds`, `CompletedRun`, `Execution`: the lifecycle as steps, what each accepts and leaves, what every reachable
  state satisfies, what every history guarantees, which objections count, what completion goes back to, two concrete
  histories, and the engine class, whose state is always the one its events lead to.
- `HostFiles`, `HostInstall`, `HostAdapter`, `HostAdmission`, `HostProperties`, `HostRoutes`: a file map whose operations may
  fail, the install, migrate and uninstall transactions on it, when they are refused, ownership, and what each route leaves.
- `Receipts`, `ReceiptMeanings`, `ReceiptStore`: receipt chains, what moves them, and their bounded history.
- `FailureMemory`, `FaultRanking`, `RankingReadings`, `Porcelain`: streaks and loops, ranking, the status parser.

## Reading the model

- A SHA-256 digest stands for what it hashes: equal digests, equal contents. Contract, proof and manifest digests are records
  of their parts.
- The clock strictly increases and ids are made from it, so a tick is both a time and a fresh id. Ledgers are kept in that
  order, which is the order the lists are sorted into.
- Duplicate-free sorted lists that are only tested for membership are sets. `localeCompare` is lexicographic order.
- What comes from code outside the model is an input of the step that reads it: the index bundle, derived commands and
  toolchains, the platform, the selection plan, model routing, the token budget, change detection, and whether a target root
  is usable or lies inside the project.
- JSON schema checks and sanitising change nothing in a valid value. Blanks are space, tab, line feed and carriage return.
- The Work Order is fixed along a run. The three places one adapter touches (target, v0.1.0 target, canonical home) do not
  overlap. Storing bytes as UTF-8 text is a parameter, `written`; the n-th file operation fails if the fault oracle says so,
  and a failed write may leave anything at its path.

## Where the code does less than one might expect

Each is kept as it is in the code; where a stronger statement fails, the exact condition under which it holds is proved.

- A cache record is written before the index is read, so persisting to a store whose index is unreadable for the project
  leaves an unlisted record (`CacheStore.PersistKeepsProjection`, `CacheStore.ForeignPersistLeavesUnlistedRecord`).
- A hit whose record id is blank is decided HIT and then not applied (`CacheEngine.HitYieldsEvidence`); ids the program makes
  are never blank.
- An objection, a review asking for a correction or blocking, keeps the run from completing at its digest exactly when a
  selected gate is decided by its reviewer's role or it is the first independent review of the digest
  (`Objections.ObjectionPreventsExactlyWhen`, `Objections.ObjectionsOverHistories`). Any other never makes a difference: an
  independent reviewer's after an earlier approval, and any of the reliability reviewer, who decides no gate, once that
  reviewer approves as well (`CompletedRun.LaterObjectionDoesNotPreventCompletion` is a history with both).
- Two install routes are not transactions: refreshing the agent copies of an up-to-date adapter, and binding an unbound one.
  A failure leaves what was written (`HostProperties.FailedRefreshIsUndoneExactlyWhen`,
  `HostProperties.RefreshIsSafeExactlyWhen`, `HostProperties.FailedRefreshMayLeaveACopyRewritten`).
- Installed digests are taken of the package's bytes, while UTF-8 text is what a full install or a migration stores. After
  these two, inspection is CLEAN, a second install is admitted and uninstalling is admitted only if every packaged file
  survives being stored so; the other three routes store no resource and always end CLEAN
  (`HostRoutes.InspectionAfterInstall`, `HostRoutes.SecondInstallAfterInstall`, `HostRoutes.UninstallAfterInstall`; concrete
  packages in `HostRoutes.UnfaithfulInstallIsStuck` and `HostRoutes.UnfaithfulBindIsClean`).
- A migration removes obsolete files from the v0.1.0 target only; one that also exists in the current target stays there and
  makes the next install refuse (`HostProperties.NoForeignFilesAfter`, `HostRoutes.MigrationLeftoverBarsInstall`).
- Binding an unbound adapter does not bring its agent copies up to date; the next install does
  (`HostRoutes.SecondInstallAfterInstall`).
- A resolution overwrites the last digest but not the streak. Across resolutions the streak counts failures that recurred at
  the digest memory held, so it may count too many or too few of one digest, and a loop may be reported or missed
  (`FailureMemory.StreakIsSuffixExactlyWhen`, `FailureMemory.PartingNeedsResolution`; concrete histories in
  `FailureMemory.StreakSpansResolution` and `FailureMemory.ResolutionMayHideAStreak`).
- The status parser takes the first path of a rename or copy as the original, while git prints the new path first. Git's own
  output is read back exactly when no rename or copy leads to another path (`Porcelain.GitOutputIsReadBackExactlyWhen`,
  `Porcelain.GitRenameIsReadBackwards`); the round trip holds for the order the code reads.
- The policy's `STALE_REVIEW_DIGEST` and `REVIEW_NOT_APPROVED` codes can never be reported: the lists they are checked on are
  already filtered (`AssurancePolicy.CheckReview`, `AssurancePolicy.CheckRoles`).

## Model

| member | source | states |
|---|---|---|
| `Gates.EligibleGatesAreCommandGates` | src/kernel/cache-policy.ts:6-27 | Every gate the cache may stand in for is a command gate that accepts command evidence only |
| `GateReadings.RegistryTakes` | src/kernel/gates.ts:53-99 | Eleven gates take commands, four take invariants, files or commands, two a review by their role; every other id is unknown |
| `CacheIntegrity.CheckClaim` | src/kernel/cache-integrity.ts:79-128 | The pushed reasons are empty exactly when reused evidence names its record, source evidence, decision, proof and contract, is concrete, and belongs to the asking project, run, gate and digest |
| `CacheIntegrity.CheckDecision` | src/kernel/cache-integrity.ts:79-198 | No reason is pushed exactly when the stored decision is a HIT for this very evidence: same run, gate, digest, candidate, proof and contract |
| `CacheIntegrity.CheckRecord` | src/kernel/cache-integrity.ts:79-198 | No reason is added exactly when the stored record is still semantically valid and shares project, gate, source evidence, proof and contract |
| `CacheIntegrity.ValidateCacheReuseEvidence` | src/kernel/cache-integrity.ts:79-198 | The accumulating check accepts exactly the evidence that traces to a stored HIT decision and a stored reusable record; executed evidence needs neither |
| `GateReadings.ConcreteExactlyWhen` | src/kernel/cache-integrity.ts:62-77 | The proof reused evidence must show, kind by kind: a command that exited with 0 and its output, a file, or an invariant with either |
| `Derivation.EvidenceStatusMeaning` | src/kernel/execution.ts:273-332 | BLOCKED iff some counting evidence blocks; at least FAIL iff some does not pass; at least PASS iff some fails, blocks or proves the gate |
| `Derivation.EvidenceDerivationIsJoin` | src/kernel/execution.ts:273-332 | For a fixed cache, status over concatenated evidence ledgers is the maximum under PENDING < PASS < FAIL < BLOCKED |
| `Derivation.EvidenceDerivationIgnoresOrder` | src/kernel/execution.ts:273-332 | Ledgers with the same members give the same status, whatever order or repetition |
| `Derivation.AdjudicationIsLevel` | src/kernel/execution.ts:231-263 | The verdict chain is the status of the strongest of five levels: none, clean approval, correction, blocked, contradictory approval |
| `Derivation.LevelJoin` | src/kernel/execution.ts:231-263 | The level of two review lists together is the maximum of their levels |
| `Derivation.ReviewDerivationIsJoin` | src/kernel/execution.ts:231-263 | A review gate's status is that of its level, and levels over concatenated review ledgers join |
| `Derivation.FailureIsPermanent` | src/kernel/execution.ts:273-332 | Once FAIL or BLOCKED at a digest, a gate stays so whatever is appended to either ledger and whatever the cache becomes |
| `GateReadings.EvidenceGateReads` | src/kernel/execution.ts:195-229 | A gate no review decides is BLOCKED, FAIL or PASS exactly by the records of this run for this gate at this digest: one blocking, one failing, or none of these and one that shows its proof, reused ones still backed by the cache |
| `GateReadings.ReviewGateReads` | src/kernel/execution.ts:231-263 | A review gate passes iff there is a review by its role at the digest and every one approves without a serious finding; blocks iff one blocks and none contradicts itself; waits iff there is none |
| `GateReadings.PassNamesLastProof` | src/kernel/execution.ts:305-331 | The state of a passing gate names the last proof on record |
| `TypedSelection.IndexRequired` | src/kernel/assurance-policy.ts:184-200 | The indexing loop succeeds exactly when obligation ids are distinct and every gate obligation names a registered gate with its evidence, and then the map is the list |
| `TypedSelection.IndexCovered` | src/kernel/assurance-policy.ts:200-218 | The loop succeeds exactly when every row fits some required obligation, and then groups the rows by id |
| `TypedSelection.CheckCoverage` | src/kernel/assurance-policy.ts:200-218 | Accepts exactly when every row fits and every obligation has one row |
| `TypedSelection.TypedSelectionPlanIsValid` | src/kernel/assurance-policy.ts:184-218 | Map-based validation accepts exactly the plans of the map-free predicate: bound, sound, representing all gates and reviewers, exactly covered |
| `TypedSelection.CoverageIsBijection` | src/kernel/assurance-policy.ts:184-218 | A valid plan has as many covered as required obligations, matched one to one by id with equal gate, evidence, kind and a selected specialist |
| `AssurancePolicy.EvaluateAssurancePolicy` | src/kernel/assurance-policy.ts:277-407 | The accumulated blockers are exactly the declared ones; allowed iff there are none; satisfied, pending and blocked roles are what they say |
| `AssurancePolicy.CheckRun` | src/kernel/assurance-policy.ts:286-309 | Reports exactly the run, binding, gate and evidence blockers |
| `AssurancePolicy.CheckReviews` | src/kernel/assurance-policy.ts:311-372 | After the loop the blockers are exactly those about one review or several, although the loop sees only maps and sets of what came before |
| `AssurancePolicy.CheckReview` | src/kernel/assurance-policy.ts:311-372 | One matching review yields exactly the blockers about its reviewer, contents and approval; a stale digest is never among them |
| `AssurancePolicy.CheckRoles` | src/kernel/assurance-policy.ts:374-394 | Exactly the missing required reviewers at finalization and the invalid candidate at submission; an unapproved entry is never found |
| `AssurancePolicy.LoopStep` | src/kernel/assurance-policy.ts:311-372 | For every blocker, what one more review adds declaratively is what an iteration adds: its own blockers, a repeated id, a session already approved for another role, a second approval |
| `AssurancePolicy.BlockersIgnoreReviewOrder` | src/kernel/assurance-policy.ts:277-407 | Any reordering of the review ledger reports the same blockers |
| `AssurancePolicy.FinalizeAllowedImpliesStatusAllowed` | src/kernel/assurance-policy.ts:277-407 | What may be finalized is in good standing |
| `AssurancePolicy.SubmissionAllowedImpliesStatusAllowed` | src/kernel/assurance-policy.ts:277-407 | If submitting a review is allowed, the ledger with it appended is in good standing under the same gate states |
| `ApprovalBacking.ApprovalIsWarrantedExactlyWhen` | src/kernel/assurance-policy.ts:220-251 | A counting approval draws no complaint about its proof iff the independent reviewer has an assurance obligation, or the role's gate is selected, it has obligations, and the first row for each is its own, for the same gate and evidence, with a current PASS behind every gate or evidence obligation its review does not decide |
| `ApprovalBacking.ApprovalMeetsItsGatesExactlyWhen` | src/kernel/assurance-policy.ts:258-275 | Only the reliability reviewer can draw the complaint about its gates, and does iff database migration or rollback validation is selected and does not pass last |
| `ApprovalBacking.AllowedApprovalsAreWarranted` | src/kernel/assurance-policy.ts:341-368 | Whatever submission or finalization the policy allows rests on warranted approvals, the reliability reviewer's on a passing rollback validation |
| `PolicyReadings.PlanMeans` | src/kernel/assurance-policy.ts:184-218 | A plan is valid iff it is bound and unaltered, its obligations have distinct ids and name known gates with their evidence, every selected gate and reviewer is among them, and each has exactly one row, which serves it |
| `PolicyReadings.ReviewMeans` | src/kernel/assurance-policy.ts:311-372 | One review draws no blocker iff its role is required, its sessions and implementer are right, it refers to current evidence of the run, agrees with its verdict and, approving, is warranted |
| `PolicyReadings.AllowedExactlyWhen` | src/kernel/assurance-policy.ts:277-407 | The policy allows iff the run, its order, its plan, its gates, its reviews one by one and pair by pair, and what the mode asks for all stand, with no blocker in the statement |
| `CacheValidity.CompareDigests` | src/kernel/cache-engine.ts:78-91 | The changed manifests are exactly the paths on which the two maps differ, either way |
| `CacheValidity.CompareCandidateValidity` | src/kernel/cache-engine.ts:93-119 | The changed paths are exactly the recorded or configuration paths that differ, and the live map is the live restriction to them |
| `CacheValidity.EvaluateCandidate` | src/kernel/cache-engine.ts:226-288 | Contract, policy, toolchain, environment, path, manifest and proof changes are reported exactly when they hold |
| `CacheValidity.NormalizingSettles` | src/kernel/cache-policy.ts:29-35 | Normalising a command again changes nothing, and only one without ink normalises to none |
| `CacheReadings.NormalizingKeepsLetters` | src/kernel/cache-policy.ts:29-35 | Normalising a command keeps every letter in order |
| `CachePopulation.BuildValidityBasis` | src/kernel/failure-memory.ts:144-174 | The grown set is the seeds and their direct neighbours over code edges and test relations |
| `CachePopulation.BuildCacheValidityBasis` | src/kernel/cache-engine.ts:132-174 | The digests cover exactly the indexed basis, its configuration neighbours and every configuration file |
| `CachePopulation.PopulatedRecordsAreMadeFrom` | src/kernel/cache-engine.ts:476-572 | A populated record's inputs are exactly those of the tree and environment it was made from; with an output digest it may be reused |
| `CachePopulation.CurrentExactlyWhenUnchanged` | src/kernel/cache-engine.ts:226-288 | Such a record shows no change iff live digests on its basis, the set and digests of configuration files, the manifests, toolchain, environment and gate contract equal the recorded ones |
| `CachePopulation.OtherFilesDoNotMatter` | src/kernel/cache-engine.ts:93-130 | Trees that agree on basis, configuration files and manifests are judged alike |
| `CacheReadings.PopulatedBasisIsTheInputs` | src/kernel/cache-engine.ts:132-174 | A populated record covers exactly the indexed files that are changed, manifests, configuration files, joined to a changed file or manifest by an import, interface reference or test, or by configuration to one of these, with their digests |
| `CacheReadings.CacheableExactlyWhen` | src/kernel/cache-engine.ts:485-527 | Cached are exactly PASSes for five gates by a command that exited with 0, is the derived one blanks aside and has a known toolchain, against a whole, fresh index of the project |
| `CacheReadings.PopulatedIsCurrentExactlyWhen` | src/kernel/cache-engine.ts:226-288 | A populated record is current iff none of its inputs, configuration files and manifests was edited, added or removed and the command, toolchain and platform are the same |
| `CacheReadings.HitMeansNothingChanged` | src/kernel/cache-engine.ts:353-433 | A HIT on a record stored as populated means just that |
| `CacheReadings.PopulatedIsHitWhenUnchanged` | src/kernel/cache-engine.ts:353-433 | And a gate asked about right after populating is then a HIT |
| `CacheReadings.SearchedExactlyWhen` | src/kernel/cache-engine.ts:290-352 | Records are looked at only for the five gates, with a fresh index of the project, a readable cache, a derived command and its toolchain |
| `CacheReadings.RecordsReplaceExactlyWhen` | src/kernel/cache-engine.ts:541-544 | Within a project a result replaces exactly the one of the same gate with the same output |
| `CacheReadings.ValidExactlyWhen` | src/kernel/cache-integrity.ts:31-60 | A record counts iff it is a reusable command result of one of the five gates with command, output and exact tool named |
| `CacheStore.PersistKeepsProjection` | src/kernel/cache-persist.ts:59-92 | Persisting keeps the index a sorted, duplicate-free projection of the records iff the index is readable for the record's project |
| `CacheStore.ForeignPersistLeavesUnlistedRecord` | src/kernel/cache-persist.ts:59-92 | A store of another project refuses the call yet keeps the record file, unlisted |
| `CacheSearch.MarkingIsAging` | src/kernel/cache-persist.ts:164-185 | Rewriting the whole index to mark one record stale changes that record and its entry, nothing else |
| `CacheDecision.HitMeansNewestUsable` | src/kernel/cache-engine.ts:353-433 | With a projecting index, HIT iff some record of the project and gate is valid and current, and the candidate is the newest of these |
| `CacheReadings.HitIsLatest` | src/kernel/cache-engine.ts:180-201 | Of the usable records a HIT names one created last, and of those the one with the greatest id |
| `CacheReadings.RefusedExactlyWhen` | src/kernel/cache-engine.ts:290-352 | BLOCKED at once for the five gates without a fresh index or readable cache, and for any gate with a fresh index of another project |
| `CacheDecision.ReevaluationAgrees` | src/kernel/cache-engine.ts:353-433 | A second evaluation with unchanged inputs gives the same gate verdict and candidate and marks nothing more, although the first marked newer records stale |
| `CacheDecision.AgingKeepsStop` | src/kernel/cache-engine.ts:374-433 | Marking outdated records moves neither the stopping point of the search nor the record there |
| `CacheDecision.IndexIsAlwaysTheProjection` | src/kernel/cache-persist.ts:59-185 | Across any sequence of populating, evaluating and marking for a project, the index stays the projection of its records |
| `CacheDecision.StaleIsNeverAHit` | src/kernel/cache-engine.ts:374-433 | A record once stale is the candidate of no later HIT until its id is populated again |
| `CacheReuse.DerivedEvidenceIsValid` | src/kernel/cache-engine.ts:574-679 | Evidence made from an applied hit passes the integrity check against the store it was just decided in |
| `CacheReuse.ApplicationProgress` | src/kernel/cache-engine.ts:574-679 | Applying to a list of gates only ages records of offered gates, keeps stored decisions, and appends standing evidence exactly for the gates that were hits at the start |
| `CacheReuse.ApplicationRefinesDerivation` | src/kernel/cache-engine.ts:574-679 | Deriving afterwards turns to PASS exactly the PENDING eligible gates that were hits; every other gate keeps its status, FAIL and BLOCKED included |
| `CacheReuse.ReusedPassTraces` | src/kernel/execution.ts:305-331 | A PASS rests on executed evidence or on reuse backed by a stored HIT and a reusable record of the same project, gate, proof and contract |
| `CacheRoundTrip.UnchangedInputsHit` | src/kernel/cache-engine.ts:290-572 | A gate just populated and asked about under unchanged inputs is a HIT |
| `CacheRoundTrip.HitInputsAreUnchanged` | src/kernel/cache-engine.ts:290-474 | A HIT on a populated record means its inputs are unchanged |
| `CacheEngine.ScanFindsStop` | src/kernel/cache-engine.ts:374-433 | A newest-first scan stopped at the first deciding record has found the newest such record and passed exactly the outdated ones newer than it |
| `CacheEngine.EvidenceCache.Persist` | src/kernel/cache-persist.ts:59-92 | The store after the two writes is the specified one, also when the index rejects the call |
| `CacheEngine.EvidenceCache.MarkCacheRecordStale` | src/kernel/cache-persist.ts:164-185 | An existing record goes stale in file and index; a missing one changes nothing; it fails exactly when the index cannot be read for the record's project, after the record file is written |
| `CacheEngine.EvidenceCache.ListCandidates` | src/kernel/cache-engine.ts:180-201 | Exactly the readable records listed for the gate, newest first |
| `CacheEngine.EvidenceCache.Search` | src/kernel/cache-engine.ts:374-433 | The loop stops at the newest deciding record and has aged exactly the outdated records before it, all in terms of the store it started from |
| `CacheEngine.EvidenceCache.EvaluateCache` | src/kernel/cache-engine.ts:290-474 | Store and decision are those the declarative evaluation of the old store prescribes |
| `CacheEngine.EvidenceCache.PopulateFromEvidence` | src/kernel/cache-engine.ts:476-572 | Caches exactly accepted, proven PASS evidence whose normalised command is the one its gate derives; anything else changes nothing |
| `CacheEngine.EvidenceCache.ApplyEligibleCacheHits` | src/kernel/cache-engine.ts:574-679 | The loop over gates, re-reading what it stored and re-validating, yields the specified store, ledger and clock |
| `Lifecycle.AcceptedPassProves` | src/kernel/execution.ts:1030-1062 | Evidence recorded as PASS always satisfies the derivation's own contract for its gate |
| `LifecycleSteps.DispatchingMeans` | src/kernel/execution.ts:120-157 | Accepted iff planned, bound, not draft, on a clean tree, with a model, not completed, with the bound session or a new one where needed, and in budget unless under way; then nothing changes or a fresh run with the ordered reviewers, gates and session |
| `LifecycleSteps.DispatchingDirtyMeans` | src/kernel/execution.ts:577-599 | A dirty tree blocks and stops the run, if any, and adds that reason only |
| `LifecycleSteps.VerifyingMeans` | src/kernel/execution.ts:808-877 | Done iff the run may be verified, there is a change where one is asked for, and every file of the tree is in scope or supporting; the run is then at the tree's digest without violations or blockers |
| `LifecycleSteps.VerifyingViolationsMeans` | src/kernel/execution.ts:183-193 | A tree with a file out of scope or sensitive blocks and stops the run with exactly those files as violations and blockers |
| `EvidenceRecording.RecordingMeans` | src/kernel/execution.ts:1011-1180 | Recorded iff admitted, and then one record as submitted: BLOCKED iff claimed, a command PASS iff it exited with 0, anything else as claimed or PASS; otherwise nothing changes |
| `EvidenceRecording.ObjectingRejects` | src/kernel/execution.ts:1118-1131 | A submission claiming BLOCKED or FAIL, or whose command failed, fails its gate and makes the digest rejected |
| `EvidenceRecording.ProvingPasses` | src/kernel/execution.ts:1030-1062 | One that does not makes its gate pass iff nothing of the run at the digest objects |
| `EvidenceRecording.RecordingRefreshesBlockers` | src/kernel/execution.ts:1205-1225 | Afterwards the gate blockers name exactly the failed and blocked gates; other blockers stay |
| `EvidenceRecording.RecordingPopulates` | src/kernel/execution.ts:1163-1185 | A proof worth caching is offered to the cache; the store changes by nothing else |
| `LifecycleSteps.StartingMeans` | src/kernel/execution.ts:1248-1351 | Review opens iff the run is verified, every selected gate without a review passes and the policy allows its standing |
| `LifecycleSteps.ReviewingMeans` | src/kernel/execution.ts:1452-1620 | Recorded iff the role, session and state admit a review and the policy allows it; the review is as submitted and the run moves as its verdict says |
| `LifecycleSteps.ReviewRefersToAll` | src/kernel/execution.ts:1537-1560 | A recorded review refers to exactly the evidence of the run at its digest |
| `LifecycleSteps.FinalizingMeans` | src/kernel/execution.ts:1671-1803 | Completed iff reviewed, unblocked, live at the digest, without violations, every gate passing, the earliest independent review approving in another session, each required role approving, acceptance evidenced and the policy allowing |
| `LifecycleSteps.ExpandingMeans` | src/kernel/execution.ts:1867-1900 | Widens by one below the fifth radius, which needs approval, and in budget |
| `LifecycleInvariant.HistoryIsSound` | src/kernel/execution.ts:510-1975 | Every reachable state: phase, status, digests and blockers agree, attempt is one plus the corrections on record, both ledgers belong to the run, reviews are independent, ids are in the past |
| `LifecycleInvariant.NextKeeps` | src/kernel/execution.ts:510-1975 | Each operation and each outside edit keeps that invariant |
| `LifecycleInvariant.DispatchKeeps` | src/kernel/execution.ts:510-771 | Dispatch keeps it on every path: dirty tree, refusal, re-dispatch of a blocked run, a fresh run |
| `LifecycleInvariant.VerifyKeeps` | src/kernel/execution.ts:808-990 | Verifying keeps it, blocked or not, with cached evidence applied |
| `LifecycleInvariant.EvidenceKeeps` | src/kernel/execution.ts:1093-1246 | Recording evidence keeps it, blockers refreshed |
| `LifecycleInvariant.ReviewKeeps` | src/kernel/execution.ts:1452-1665 | Recording a review of any verdict keeps it, the count of corrections included |
| `LifecycleInvariant.SubmissionIsIndependent` | src/kernel/assurance-policy.ts:311-372 | An allowed approval differs in role and in session from every approval of its digest |
| `LifecycleInvariant.SubmissionKeepsIndependence` | src/kernel/execution.ts:1483-1584 | A review that is recorded names a required role, not the implementer's role or session, contradicts no serious finding, and joins the ledger's pairwise independence |
| `LifecycleSafety.CompletionSafety` | src/kernel/execution.ts:1671-1865 | In every history, a completed run has no scope violation, every selected gate derives PASS at its digest, each required role, the independent reviewer among them, approved exactly once there, in pairwise different sessions none of them the implementer's |
| `LifecycleSafety.CompletionWasLive` | src/kernel/execution.ts:1671-1787 | Some finalizing step completed it, at that digest, while the live tree had that digest |
| `CompletionGrounds.CompletionIsGrounded` | src/kernel/execution.ts:808-877 | In every history a completed run's digest was verified on a tree without a file out of scope or sensitive, and the completing event had every required approval warranted by its plan |
| `CompletionGrounds.DigestWasVerified` | src/kernel/execution.ts:844-877 | In every history a run at a digest, without violations, was verified at it on a tree within scope |
| `LifecycleSafety.CompletingStep` | src/kernel/execution.ts:1671-1865 | No operation but finalizing completes a run, and only with the live digest equal to the verified one |
| `LifecycleSafety.CompletionIsLostOnlyToDirt` | src/kernel/execution.ts:577-631 | Completion survives an event iff the event is not an admissible dispatch on a dirty tree; ledgers and digest survive even that |
| `LifecycleSafety.RejectedStaysRejected` | src/kernel/execution.ts:1671-1865 | Once a digest has failing evidence, a negative review for a selected review gate, or a first independent review that is no approval, no later sequence of operations and edits completes the run at it |
| `LifecycleSafety.RejectionIsKept` | src/kernel/execution-persist.ts:199-256 | Growing ledgers keep a rejection, the earliest independent review included |
| `LifecycleSafety.SupportExcludesRejection` | src/kernel/execution.ts:1747-1771 | What completion rests on and a rejection of the same digest exclude each other |
| `LifecycleSafety.StepExtends` | src/kernel/execution.ts:120-157 | Every step keeps the run, extends both ledgers and never changes a bound implementer session |
| `LifecycleSafety.HistoryExtends` | src/kernel/execution.ts:120-157 | So does every continuation |
| `LifecycleSafety.DispatchMeans` | src/kernel/execution.ts:510-771 | An accepted dispatch leaves the open run untouched or a run at the start; ledgers, implementer and attempts stay; nothing reopens a completed run |
| `LifecycleSafety.ExpandingIsNeutral` | src/kernel/execution.ts:1867-1975 | Widening the context stays within its limit, needs approval for the last radius, and changes no gate state and nothing about finalizing |
| `LifecycleSafety.VerificationReuses` | src/kernel/execution.ts:808-990 | Verifying passes, beyond what the ledgers already give, exactly the pending eligible gates that are hits at the verified digest |
| `LedgerStanding.HistoryIsWellMade` | src/kernel/execution.ts:1452-1665 | In every history each review on record has a session and refers to evidence of the run on record at its digest |
| `LedgerStanding.LedgerIsClean` | src/kernel/assurance-policy.ts:311-372 | In a reachable state the policy reports nothing about the reviews on record, nor about one that may join them, where approvals are backed |
| `LedgerStanding.StandingIgnoresReviews` | src/kernel/execution.ts:1248-1351 | In every history the standing of an active run depends on the run, its bindings, gates and evidence, never on its reviews |
| `Objections.ObjectionPreventsExactlyWhen` | src/kernel/execution.ts:1747-1787 | In a reachable state a run with an objection at its digest can be finalized iff it can without that review and the review neither decides a selected gate nor is the first independent one |
| `Objections.ObjectionsOverHistories` | src/kernel/execution.ts:1671-1865 | Over every history an objection that decides when recorded bars completion at its digest for good; one that does not never makes a difference there |
| `Objections.ReviewsRejectExactlyWhen` | src/kernel/execution.ts:231-263 | Reviews reject a digest iff one of them objects to it and decides |
| `CompletedRun.CompletionIsReachable` | src/kernel/execution.ts:510-1865 | A concrete history from the first dispatch completes |
| `CompletedRun.LaterObjectionDoesNotPreventCompletion` | src/kernel/execution.ts:1747-1779 | A concrete history completes although the reliability reviewer, at first, and the independent reviewer, having approved, each asked for a correction of the same digest |
| `Execution.RefusalsToFinalize` | src/kernel/execution.ts:1671-1787 | The gathered refusals are empty exactly when finalizing is permitted |
| `Execution.EngineIsSafe` | src/kernel/execution.ts:510-1975 | Whatever calls an engine went through, its state satisfies the run invariant and, once completed, its ledgers support it |
| `Execution.EngineNeverCompletesAtRejected` | src/kernel/execution.ts:1671-1865 | No state any further calls lead to is completed at a digest the engine's ledgers reject now |
| `Execution.Engine.RunDispatch` | src/kernel/execution.ts:510-771 | The update is the specified step of the history; an accepted dispatch finds a clean tree and leaves an open run; the ledgers and implementer of an existing run stay; a completed run is refused, and loses completion only to a dirty tree |
| `Execution.Engine.RunVerify` | src/kernel/execution.ts:808-990 | Tree checks, run update and cached hits together are the specified step, done iff the tree is within scope; the gates it returns are those still pending |
| `Execution.Engine.RunEvidenceRecord` | src/kernel/execution.ts:1093-1246 | Ledger, cache and blockers are those of the specified step; done iff admitted, with one record as submitted, and an objecting one makes the digest rejected |
| `Execution.Engine.RunAssuranceStart` | src/kernel/execution.ts:1248-1351 | Review opens exactly when the specification allows it |
| `Execution.Engine.RunAssuranceRecord` | src/kernel/execution.ts:1452-1665 | A review is appended and the run moved exactly as specified, and an accepted approval is warranted |
| `Execution.Engine.RunFinalize` | src/kernel/execution.ts:1671-1865 | Completes exactly when the declared conditions hold, and the run it leaves completed is supported by its ledgers; a completed run is left alone |
| `Execution.Engine.RunContextExpand` | src/kernel/execution.ts:1867-1975 | The update is the specified step of the history; no gate state and no answer to whether the run may be finalized changes, and a refusal changes nothing |
| `HostInstall.HostFileSystem.PutAll` | src/adapters/host-adapter-install.ts:460-470 | All writes, or the first ones and the debris of the one that failed |
| `HostInstall.HostFileSystem.RemoveAll` | src/adapters/host-adapter-install.ts:370-382 | Removes exactly the listed paths, or fails having touched only these |
| `HostInstall.HostFileSystem.TakeSnapshots` | src/adapters/host-adapter-install.ts:310-316 | The snapshots hold every listed path's contents or absence |
| `HostInstall.HostFileSystem.RollBack` | src/adapters/host-adapter-install.ts:318-326 | Every snapshotted path is as it was save those whose own restoration failed, and no other path is touched |
| `HostAdapter.OwnershipReasons` | src/adapters/host-adapter-legacy.ts:89-115 | No reason iff the recorded installation is intact; a modification among them iff a present file differs from its record |
| `HostAdapter.ClassifyHostAdapterTarget` | src/adapters/host-adapter-legacy.ts:58-87 | The branching over reason lists yields the declarative classification |
| `HostAdapter.InspectHostAdapterOwnership` | src/adapters/host-adapter-install.ts:597-663 | The reported ownership is the declarative one; an unreadable state yields none |
| `HostAdapter.Adapter.Transact` | src/adapters/host-adapter-install.ts:819-886 | Either the full target state holds, or after any fault at any point every path is as before, save one whose restoration failed too |
| `HostAdapter.Adapter.Upgrade` | src/adapters/host-adapter-install.ts:746-787 | The same for rewriting agent copies and upgrading the root binding |
| `HostAdapter.Adapter.InstallHostAdapter` | src/adapters/host-adapter-install.ts:665-887 | Denied iff not admitted, an unusable or project-local target included, changing nothing; finished with the full target files and state; a failed transactional route restores, a failed refresh leaves exactly its first writes |
| `HostAdapter.Adapter.UninstallHostAdapter` | src/adapters/host-adapter-install.ts:889-965 | Denied, finished or failed exactly as specified; finished with no state, the uninstalled one it found or the one it wrote; a failure restores every path it could |
| `HostProperties.InstallTouchesOnlyItsOwn` | src/adapters/host-adapter-install.ts:795-886 | An install changes only managed targets, manifest, state record, agent copies and what the prior install left |
| `HostProperties.ForeignHostFilesAreKept` | src/adapters/host-adapter-install.ts:690-739 | No host file whose contents differ from what the prior state recorded there is replaced or removed |
| `HostAdmission.InstallAdmittedExactlyWhen` | src/adapters/host-adapter-install.ts:690-739 | Admitted iff there are 1 to 128 resources, a usable root outside the project, a readable record, nothing changed behind the recorded installation's back, all of it there unless bound by the older scheme, no other binding, and no foreign file in the way |
| `HostAdmission.RouteIsTakenExactlyWhen` | src/adapters/host-adapter-install.ts:740-818 | Which of the five routes is taken, by the recorded package, its binding and where it is whole |
| `HostAdmission.RemovableExactlyWhen` | src/adapters/host-adapter-install.ts:889-932 | Over any files, uninstalling is admitted iff the installation is bound to this root, on record as clean, outside the project, and neither a file of it nor its manifest differs from the record |
| `HostAdmission.UninstallKeepsForeignFiles` | src/adapters/host-adapter-install.ts:918-936 | Uninstalling takes no host file whose contents differ from what the installation recorded there |
| `HostAdmission.UninstallTakesItsOwn` | src/adapters/host-adapter-install.ts:933-952 | It takes every file of the installation and changes no other path but the state record |
| `HostAdmission.MigrationClearsLegacy` | src/adapters/host-adapter-install.ts:384-458 | A migration leaves nothing of the installation at the v0.1.0 target |
| `HostAdmission.UninstalledIsFresh` | src/adapters/host-adapter-install.ts:937-952 | After uninstalling the next install is a fresh one |
| `HostProperties.FullRouteHoldsInstallation` | src/adapters/host-adapter-install.ts:819-886 | A full install or a migration ends with every resource, agent copy, the manifest and the state in place, whatever it removed |
| `HostProperties.CleanExactlyWhenFaithful` | src/adapters/host-adapter-install.ts:597-663 | Over files holding an installation as stored, inspection is CLEAN iff every packaged file survived storing, else CONFLICT |
| `HostProperties.SecondInstallChangesNothing` | src/adapters/host-adapter-install.ts:795-818 | Over such files an install is admitted iff the target is allowed, the files survived storing and no stray file holds a reserved name; it then changes no file and returns the same state |
| `HostProperties.FailedRefreshIsUndoneExactlyWhen` | src/adapters/host-adapter-install.ts:795-818 | After a refresh failed at its n-th write the files are as before iff the copies before it were up to date and the failing write left nothing new |
| `HostProperties.RefreshIsSafeExactlyWhen` | src/adapters/host-adapter-install.ts:795-818 | No write failing without trace, wherever it strikes, changes a file iff every agent copy but the last is up to date beforehand |
| `HostProperties.FailedRefreshMayLeaveACopyRewritten` | src/adapters/host-adapter-install.ts:795-818 | An admitted refresh of a concrete installation that fails and leaves a copy rewritten |
| `HostProperties.NoForeignFilesAfter` | src/adapters/host-adapter-install.ts:384-458 | A full install leaves no stray reserved file; a migration leaves none iff the current target held no obsolete file of the prior install |
| `HostProperties.UninstallUndoesFreshInstall` | src/adapters/host-adapter-install.ts:889-965 | Uninstalling after a fresh install is admitted iff the files survived storing, and then every host path is as before the install |
| `HostRoutes.InspectionAfterInstall` | src/adapters/host-adapter-install.ts:597-887 | After any admitted install, by any of five routes, the state is the installed one and inspection is CONFLICT iff a full route stored a package that does not survive storing, else CLEAN |
| `HostRoutes.SecondInstallAfterInstall` | src/adapters/host-adapter-install.ts:665-887 | After any admitted install a second is admitted iff the first kept the package and, migrating, met no leftover; it then keeps every host file and the state, and every file unless the first only bound the adapter |
| `HostRoutes.UninstallAfterInstall` | src/adapters/host-adapter-install.ts:889-920 | After any admitted install uninstalling is admitted iff the install kept the package |
| `HostRoutes.UnfaithfulInstallIsStuck` | src/adapters/host-adapter-install.ts:819-886 | A concrete package, admitted and installed, that is then in conflict and can be neither installed again nor uninstalled |
| `HostRoutes.UnfaithfulBindIsClean` | src/adapters/host-adapter-install.ts:795-815 | The same package put in place byte by byte and bound ends CLEAN |
| `HostRoutes.MigrationLeftoverBarsInstall` | src/adapters/host-adapter-install.ts:384-458 | A concrete migration that succeeds and leaves a file that bars the next install |
| `Receipts.RunsAreSound` | src/adapters/host-execution.ts:188-515 | Over every run chains have at most three receipts with constant binding and acceptance, times are set and ordered as the status says, and history has at most 32 entries yet holds the whole current chain |
| `Receipts.ChainsAreShort` | src/adapters/host-execution.ts:97-104 | Receipts of one chain occupy different stages, so there are at most three |
| `Receipts.PruningSparesTheNewest` | src/adapters/host-execution.ts:216-225 | Pruning by creation then name spares any small enough group that all other entries precede |
| `Receipts.PersistedReceiptsNeverChange` | src/adapters/host-execution.ts:202-214 | No event rewrites a receipt: a name means one receipt for good, and a terminal one is only followed by a newer chain |
| `Receipts.TerminalIsFollowedByANewChain` | src/adapters/host-execution.ts:479-515 | After a terminal receipt the current one changes only to a later chain |
| `ReceiptMeanings.HandingOffMeans` | src/adapters/host-execution.ts:430-477 | Refused iff the bundle is missing, for another adapter or project, without a run, untrusted or unauthorized; gives back the current receipt for its own bundle; else starts a chain |
| `ReceiptMeanings.MovingMeans` | src/adapters/host-execution.ts:479-515 | A repeat with the same reasons gives the receipt back, a move that may follow on the same current bundle adds the next receipt of the chain, all else is refused and changes nothing |
| `ReceiptMeanings.PruningKeepsThirtyTwo` | src/adapters/host-execution.ts:216-225 | Pruning keeps all of at most 32 receipts and 32 of more |
| `ReceiptMeanings.PruningDropsTheOldest` | src/adapters/host-execution.ts:216-225 | What it drops belongs to a chain created no later than any it keeps, of one chain the lesser name |
| `ReceiptStore.HostExecution.ListReceipts` | src/adapters/host-execution.ts:188-200 | Every stored receipt once, by chain creation then name |
| `ReceiptStore.HostExecution.PruneReceiptHistory` | src/adapters/host-execution.ts:216-225 | Unlinking from the front of the sorted list is repeatedly dropping the least entry |
| `ReceiptStore.HostExecution.PersistHostExecutionReceipt` | src/adapters/host-execution.ts:202-241 | Adds, makes current and prunes; a name taken by a different receipt is refused with history unchanged |
| `ReceiptStore.HostExecution.HandoffHostExecution` | src/adapters/host-execution.ts:430-477 | The specified handoff: rejected, the current receipt for the same bundle, or a new chain |
| `ReceiptStore.HostExecution.TransitionHostExecutionReceipt` | src/adapters/host-execution.ts:479-515 | The specified transition: rejected, an idempotent repeat, or the next receipt of the chain |
| `FailureMemory.Memory.UpsertFailureOccurrence` | src/kernel/failure-memory.ts:76-111 | The failure's entry follows the event, every other signature's entry is untouched |
| `FailureMemory.Memory.NoteDiagnosisAttempt` | src/kernel/failure-memory.ts:113-138 | Changes neither counter, fails on an unknown signature, touches no other entry |
| `FailureMemory.Memory.MarkVerifiedResolution` | src/kernel/failure-memory.ts:301-358 | Only outcome and last digest of the resolved signature change |
| `FailureMemory.EntriesAreIndependent` | src/kernel/failure-memory.ts:76-138 | After any history a signature's entry depends only on the events about that signature |
| `FailureMemory.CountersRefineHistory` | src/kernel/failure-memory.ts:76-138 | Over every history, resolutions included, occurrences is the number of distinct recorded failures and the streak one more than the failures at its end that each recurred at the digest memory held |
| `FailureMemory.StreakIsLongestLinkedSuffix` | src/kernel/failure-memory.ts:76-111 | The streak exceeds k iff each of the last k failures came at the digest of the failure or resolution before it |
| `FailureMemory.StreakIsSuffixExactlyWhen` | src/kernel/failure-memory.ts:76-111 | Over every history the streak is the longest suffix of failures at one digest iff none that continued only one of the two was followed only by failures continuing both |
| `FailureMemory.PartingNeedsResolution` | src/kernel/failure-memory.ts:301-358 | A failure continues only one of the two iff a resolution at another digest stands before it and it came at one of both digests |
| `FailureMemory.UnresolvedStreakIsSuffix` | src/kernel/failure-memory.ts:76-111 | With no resolution the streak is the longest suffix of failures at one digest |
| `FailureMemory.StreakIsLongestSuffix` | src/kernel/failure-memory.ts:76-111 | The streak is the length of the longest suffix sharing one present digest, 1 where the last has none |
| `FailureMemory.LoopMeansThreeAlike` | src/kernel/fault-localization.ts:370-395 | Over every history a loop is reported iff the last two failures recurred at the digest memory held; where the last three share a digest, iff memory held it both times; with no resolution, iff the last three share one |
| `FailureMemory.StreakAfterResolution` | src/kernel/failure-memory.ts:301-358 | A streak that was the suffix is still it after a resolution and a failure iff the failure has no digest, or comes at both the corrective and the last seen digest, or at neither |
| `FailureMemory.StreakSpansResolution` | src/kernel/failure-memory.ts:301-358 | A concrete history in which the streak counts a failure seen at another digest |
| `FailureMemory.ResolutionMayHideAStreak` | src/kernel/failure-memory.ts:301-358 | A concrete history in which the streak misses a failure at the same digest |
| `FaultRanking.Tallies` | src/kernel/fault-localization.ts:103-185 | The nine accumulating passes tally exactly the declared signals, each once, with the sum of their weights |
| `FaultRanking.MarksAreSignals` | src/kernel/fault-localization.ts:84-185 | What the passes mark is what each signal's declarative condition says |
| `FaultRanking.RankFaultCandidates` | src/kernel/fault-localization.ts:103-185 | Each path with a signal once, scored min(1, sum of the weights of the signals that hold), ordered by score then path |
| `RankingReadings.RankingReads` | src/kernel/fault-localization.ts:41-185 | A path is ranked iff it collects points, and its score is their sum, at most 100: 40 for a frame, 30 for a failing test, 25 for its source, 20 for a related change, 18 for two importing seeds, 12, 10, 8 and 6 for neighbours and memory |
| `FaultRanking.MoreEvidenceNeverLowersAScore` | src/kernel/fault-localization.ts:103-185 | Adding frames, tests, relations, edges, nodes, changed or indexed files never lowers a score |
| `FaultRanking.RankingIgnoresOrder` | src/kernel/fault-localization.ts:103-185 | The ranking does not depend on order or repetition of its inputs |
| `Porcelain.ParseGitPorcelain` | src/kernel/change-digest.ts:40-65 | The index-driven loop returns the recursive reading of the NUL-separated parts |
| `Porcelain.PlainPartReads` | src/kernel/change-digest.ts:40-65 | A part without R or C in its code is one entry: two characters of code, one skipped, the path with slashes |
| `Porcelain.MovePartsRead` | src/kernel/change-digest.ts:40-65 | One with R or C takes the next part along as the path, its own being the original |
| `Porcelain.ShortPartIsSkipped` | src/kernel/change-digest.ts:46-52 | A part of fewer than three characters is passed over |
| `Porcelain.LastPartReads` | src/kernel/change-digest.ts:40-65 | A part nothing ends is read too; a rename or copy then has an empty path |
| `Porcelain.ParsingDistributes` | src/kernel/change-digest.ts:40-65 | Parsing printed entries followed by anything is those entries followed by the parse of the rest |
| `Porcelain.ParseUndoesPrint` | src/kernel/change-digest.ts:40-65 | Parsing well-formed entries printed in the order the code reads returns them, renames and copies included |
| `Porcelain.GitOutputIsReadSwapped` | src/kernel/change-digest.ts:40-65 | Parsing the entries as git prints them returns them with both paths of every rename and copy exchanged |
| `Porcelain.GitOutputIsReadBackExactlyWhen` | src/kernel/change-digest.ts:40-65 | So they are read back iff no rename or copy leads to another path |
| `Porcelain.GitRenameIsReadBackwards` | src/kernel/change-digest.ts:40-65 | A concrete rename read as its reverse |

## Left out

- `src/cli.ts`, `src/commands/*`, `src/eval/*`, `src/github/*`: argument parsing, output, scenarios and CI metadata.
- Real files, symbolic links, directories, temporary files, git processes, schema files and secret redaction: replaced as
  described above. Directory creation is not a separate operation of the file map; a fault there has the effect of a fault at
  the probe beside it.
- `src/adapters/host-dispatch.ts`: the field checks on a bundle are one flag of the receipt model's surroundings. A receipt
  matches only bundles of its own contract version, which is how the version check shows.
- `src/adapters/host-adapter-root.ts`, detection and registry: root identity is an abstract label; detection changes nothing.
- Cost governor, context pack, model routing, specialist selection, impact and index engines: inputs only.
- Free text, summaries, next actions, the evidence and review id lists on a run and the checkpoint's own blockers: they guard
  no step.
- Failures of writing a cache decision: the source swallows them, and the hit is then not backed by the decision.
- `evaluateMemoryMatch` and the validity basis stored with a failure memory entry; diagnosis status, radius and confidence.
- `computeChangeDigest`, `worktreeContentDigest` and `parseNameStatusZ`: a digest is a value that stands for the tree.
- The order in which a candidate's signals and reasons are listed, and the filter on unsafe paths in a validity basis.
- HostProperties.FullRouteHoldsInstallation: assumes the recorded state does not list the manifest as a resource, because no
  state the program writes does; the lemmas of `HostRoutes` about every route assume the same.
- HostAdapter.Adapter.InstallHostAdapter: the refusals of a forced install, of an unresolvable root, of a directory that is a
  file or a link, and of writes outside the root are not part of this model, because paths here name files of the root.
- Receipts.RunsAreSound: assumes receipt names are distinct at distinct times, as a hash over the time makes them.
