# Verified model of WatchMyAI

This project models the parts of WatchMyAI that keep state, branch and compute, in Dafny 4.11, and proves
what they promise. It verifies with `dafny verify dfyconfig.toml`. Everything below is proved for all inputs,
all runs or all reachable states unless "Left out" says otherwise.

## What is modelled

**Enforcement.** `CoreModels` holds requests, capabilities and bundles. `Capability` is the adapter registry,
`PolicyEvaluator` the sort-based conflict rule and `PolicyDecisionPoint` the decision point with its cache.
`ApprovalStore` says what each transaction body of the approval service does to the store, and what holds of every
serial run of bodies; `ApprovalService` is the service whose methods reload, change and save a shared file, each
proved equal to its transaction body; `ApprovalConcurrency` is the step relation of any number of services and
threads with thread locks, a file lock, reload, body, temporary file, atomic replace and crashes. `Runtime` is one
call from lookup to enforcement, `EnforcementRuns` whole runs of interleaved calls, operators, policy activations
and crashes on a serial log, and `ProcessRuns` the same calls on the shared store, whose steps refine those runs.
`EvidenceChain` is the hash chains.

**Signed distribution.** `Metadata` is threshold verification and root rotation, `DistributionClient` the client that
owns the store: ordered checks, sequence gate, staging and activation, and what a commit leaves behind. `TwoSlotStore`
is the crash-safe store, alone and under any number of processes. `SequenceReuse` says over whole runs when one
sequence number means one policy file; `RollbackReuse` holds two concrete runs of the client object in which it does
not. `ClientRecovery` is the client across failing saves, deaths and restarts, `LostCommit` a run in which a commit is
lost. `CodePoints`, `JsonText`, `JsonRoundTrip` and `CanonicalJson` are the canonical form: writer, strict reader, key
order; `Rfc8785` states the forms the standard asks for in its own terms.

**Query languages.** `KqlLexer`, `KqlParser`, `KqlPrinting`, `KqlGrammar`, `KqlEvaluator` and `SequenceMatcher` are the
KQL subset and the fixture matcher; `Wildcard`, `EqlLexer`, `EqlCompiler`, `EqlPrinting` and `EqlGrammar` the EQL subset
that compiles to closures. `DottedPath` takes field names apart for both.

**Export.** `ExportPipeline` is the bounded queue with retry and dead letters, `JsonlSink` the rotating log.

Classes and methods stand for the source's objects and loops; each is proved against a function, and the properties
are lemmas about that function. A hash is the value it is taken of (so collision free) or an uninterpreted function
with the hypothesis it needs; a signature is a predicate; clocks, tokens, identifiers and library calls are parameters.

## Where the code and its documentation part

Each of these follows the code, and the lemma named gives the exact condition or a concrete input.

- `src/watchmyai/evidence/chain.py`: an event that arrives with an `evidence.event_hash` is hashed with the stale value
  in it and the session never verifies again (`Evidence.AppendedVerifiesIff`).
- `src/watchmyai/policy/evaluator.py`: the cache key leaves out the agent and the classified attributes, so a decision
  made for one request can answer for another; the hypothesis it needs is stated exactly (`DecisionPoint.SharedKeyIff`,
  `DecisionPoint.AgentsShareKey`). It also names a bundle by version and sequence only, and a bundle that shares both
  with its predecessor inherits the cache. That is invisible when the two differ at most in the order of their rules
  (`DecisionPoint.CacheIsInvisible`). When only the default effect changes, a remembered request is answered rightly if and
  only if some rule matches it or the adapter's gap levels the two defaults (`DecisionPoint.ChangedDefaultIff`); two bundles
  that the client commits one after the other are an input (`RollbackReuse.SecondIsAnsweredByFirst`).
- `src/watchmyai/distribution/client.py`: the check against reuse of the highest sequence compares the name with that of
  the active bundle and nothing else. Over every run of one process, one sequence number means one policy file if and only if each
  committed target had a sequence new to the client or the digest that `verified_targets` records under its name and
  sequence; the client keeps that record and never reads it (`SequenceReuse.OneFilePerSequenceIff`). It fails in two ways.
  Under one name, another version or content passes at once (`SequenceReuse.GateIgnoresContent`,
  `RollbackReuse.SameVersionIsReused`: such a run breaks what the cache of the decision point relies on). Another name
  passes exactly while the last commit carries that name (`SequenceReuse.TopNameIff`, `RollbackReuse.SequenceIsReused`).
- The same file: an activation switches ACTIVE before the state is saved. When the save fails before a restart, or the
  process dies in between, the next process knows nothing of the sequence that is active. Over every run with failing
  saves, deaths and restarts, ACTIVE is at no point open to an unauthorised step down if and only if the saved state knows of
  its sequence or a higher one at every restart, and the state in memory does whenever `activate` raises after the switch
  (`ClientRecovery.NeverOpenIff`); a step down went without authorisation if and only if the state in memory knew of nothing
  higher (`ClientRecovery.StepDownUnauthorizedIff`; `LostCommits.StepsDownUnauthorized` is a run). The manifest of ACTIVE
  holds the sequence and is never read back.
- `src/watchmyai/distribution/store.py`: `activate` takes every directory under `states`, also one whose staging broke
  off. Over every interleaving with crashes ACTIVE stays complete if and only if each switch was to a completely staged
  state (`TwoSlotStores.ActiveCompleteIff`; `TwoSlotStores.HalfStagedIsActivated` is a run in which it does not). The
  client only activates what it has just staged, and for such runs nothing is assumed (`TwoSlotStores.InstallsAreComplete`).
- `src/watchmyai/distribution/canonical.py`: the docstring promises RFC 8785 for every accepted value. Keys are sorted by
  code point; that is the UTF-16 order of section 3.2.3 exactly when no two keys of an object cross
  (`CanonicalJson.CanonicalIsJcsIff`, `CanonicalJson.SomeAcceptedValueDiffers`).
- `src/watchmyai/distribution/metadata.py`: only the first signature under a key's name is looked at, so a bad one placed
  first keeps the key from counting (`Metadata.ForgedFirstBlocksKey`).
- `src/watchmyai/capability/service.py`: the check never reads the default effect, and guesses the class for a rule without
  a tool-class condition. A decision under an accepted bundle reports a missing obligation if and only if the check did not
  consider its adapter for the winning rule and the adapter owes that rule an obligation. It reports a missing approval flow
  if and only if the adapter lacks it, its gap does not deny already, and an approval is wanted by such a winner that is owed
  nothing or, where no rule matches, by the default effect (`PolicyRules.AcceptedBundleReportsIff`). Inputs:
  `PolicyRules.DefaultIsNotChecked`, and `PolicyRules.GuessedClassAccepted` with `PolicyRules.GuessedClassMisses`.
- `src/watchmyai/approval/service.py` with `src/watchmyai/runtime.py`: asking for an approval raises if and only if its
  idempotency key is held by a record with another binding (`Runtime.SettledRaisesIff`; over runs, whose key was
  ever created for another binding: `Runtime.SettledRaisesInRunIff`, `EnforcementRuns.AskRaisesIff`). The binding holds the
  decision identifier and the key does not, so a second held `process` of one action, before the grant or after the use,
  always raises (`Runtime.SecondHeldCallRaises`, `Runtime.RetryRaises`). A lookup raises if and only if its live matches
  carry two policy sequences (`Runtime.LookUpFailsIff`, `ApprovalStore.AmbiguousAcrossSequences`).
- `detection-rules/scripts/rulelib.py`: the re-check after the inner loop does not repeat the span test, so the events right
  after the span are accepted as long as they match one by one (`SequenceMatching.MatcherAnswer`,
  `SequenceMatching.SpanIsNotAlwaysKept`). Every text followed by white space is refused (`KqlLexer.TrailingSpaceRefused`).
- `scripts/sigma/eql_eval.py`: `field != null` also holds where the field is missing (`EqlPrinting.NotNullIsVacuous`). A
  compiled comparison raises only on some events: exactly those with a value there that, under a wildcard operator and
  without null in the list, meets a literal that is no string before one it matches (`EqlPrinting.CompareRaisesIff`).
- `src/watchmyai/exporters/jsonl/writer.py`: the comment says slot `backups - 1` is discarded; the loop drops slot `backups`
  (`JsonlSinks.JsonlSink.RotateIfNeeded`).

## Model

| member | source | states |
|---|---|---|
| ApprovalStore.ApplyKeepsInv | src/watchmyai/approval/service.py:143-329 | every transaction keeps: at most one record per idempotency key, use count 1 exactly when consumed, an approved or consumed record that needs a justification has one |
| ApprovalStore.ApplyStep | src/watchmyai/approval/service.py:227-329 | the status machine of one record: identity and binding never change, consumed and expired are final, consumed is reached only by an allowed consumption and approved only by a grant |
| ApprovalStore.ConsumeAllowsIff | src/watchmyai/approval/service.py:256-329 | `consume` allows if and only if the record is approved, not expired and every bound field agrees |
| ApprovalStore.AfterInv | src/watchmyai/approval/service.py:143-329 | the store invariant holds after every serial run |
| ApprovalStore.ConsumptionHasOwnGrant | src/watchmyai/approval/service.py:227-329 | every allowed consumption has an earlier grant of the same approval with an agreeing binding, and no other consumption in between |
| ApprovalStore.OwnGrantInjective | src/watchmyai/approval/service.py:227-329 | no two consumptions share such a grant |
| ApprovalStore.ConsumedAtMostOnce | src/watchmyai/approval/service.py:286-300 | with tokens that never repeat, an approval is consumed at most once in a run |
| ApprovalStore.ReleasesWithinGrants | src/watchmyai/approval/service.py:227-329 | in every run, allowed consumptions plus approvals still waiting never exceed grants |
| ApprovalStore.KeyCreatedOnce | src/watchmyai/approval/service.py:160-195 | in every run an idempotency key creates at most one approval |
| ApprovalStore.KeyReusedIff | src/watchmyai/approval/service.py:160-195 | a request raises if and only if its key is held by a record with another binding or another need for justification |
| ApprovalStore.KeyReusedInRunIff | src/watchmyai/approval/service.py:160-195 | over every run, whatever became of that record: if and only if the key was ever created for something else |
| ApprovalStore.MatchesDifferInSequence | src/watchmyai/approval/service.py:367-395 | for runtime requests, two matches of one lookup come from two policy sequences, so under one sequence `find_approved` never meets two |
| ApprovalStore.AmbiguousIff | src/watchmyai/approval/service.py:367-395 | a store of runtime requests has two matches for one lookup if and only if the matches carry two policy sequences |
| ApprovalStore.RuntimeKeyedRun | src/watchmyai/runtime.py:238-262 | every store reached by runtime requests has the keys that `process` derives |
| ApprovalStore.AmbiguousAcrossSequences | src/watchmyai/approval/service.py:367-395 | two policy sequences can leave two live approvals for the same lookup |
| ApprovalServices.ApprovalService.LoadUnlocked | src/watchmyai/approval/service.py:479-486 | the reload: refuses another format, otherwise memory is the file |
| ApprovalServices.ApprovalService.SaveUnlocked | src/watchmyai/approval/service.py:488-508 | the save: the file becomes memory |
| ApprovalServices.ApprovalService.FirstWithKey | src/watchmyai/approval/service.py:160-185 | the scan for an idempotency key finds the one record that has it |
| ApprovalServices.ApprovalService.Request | src/watchmyai/approval/service.py:143-225 | one transaction of the shared file equal to its body; reuse of a key with another binding is an error and changes nothing |
| ApprovalServices.ApprovalService.Grant | src/watchmyai/approval/service.py:227-244 | same, for a grant: pending only, justification if needed, expiry first |
| ApprovalServices.ApprovalService.Reject | src/watchmyai/approval/service.py:246-254 | same, for a rejection |
| ApprovalServices.ApprovalService.Consume | src/watchmyai/approval/service.py:256-329 | same, for a consumption, with the checks in source order |
| ApprovalServices.ApprovalService.SweepExpired | src/watchmyai/approval/service.py:405-415 | the sweep expires exactly the overdue records and reports exactly those |
| ApprovalServices.ApprovalService.FindApproved | src/watchmyai/approval/service.py:367-395 | changes nothing, finds the one live match, and fails exactly when there are two |
| ApprovalConcurrency.DoKeepsInv | src/watchmyai/approval/service.py:130-141 | every step of every thread, and every crash, keeps the locking and serialization invariant |
| ApprovalConcurrency.Serializable | src/watchmyai/approval/service.py:130-141 | in every interleaving with crashes, the store on disk is the serial run, in file-lock order, of the bodies that reached the replace, and every returned outcome is that run's |
| ApprovalConcurrency.AllowedOnce | src/watchmyai/approval/service.py:256-329 | so across all services and threads an approval is handed out at most once |
| ApprovalConcurrency.ReleaseHasOwnGrant | src/watchmyai/approval/service.py:227-329 | and whoever received an allowed consumption, in whatever process, has an earlier grant of that approval with an agreeing binding in the log, spent by nobody else |
| Capabilities.CapabilityRegistry.Register | src/watchmyai/capability/service.py:61-65 | the generation moves exactly when the registered capability changes |
| Capabilities.CapabilityRegistry.CheckRequest | src/watchmyai/capability/service.py:130-163 | the loop over obligations gives the effective, unavailable and ignored ones and the guarantee |
| Capabilities.CapabilityRegistry.RuleGaps | src/watchmyai/capability/service.py:95-128 | the gaps found for a rule are exactly the gaps it has |
| Capabilities.CapabilityRegistry.ValidateDistributionRequirements | src/watchmyai/capability/service.py:73-128 | accepts a bundle if and only if no signed requirement and no rule leaves a gap |
| PolicyRules.MatchPolicy | src/watchmyai/policy/evaluator.py:39-68 | the loop over conditions matches exactly when every condition does, and records what each observed |
| PolicyRules.SortSorted | src/watchmyai/policy/evaluator.py:106-117 | rules of distinct identity come out strictly sorted by effect, priority and identity |
| PolicyRules.DecisionIgnoresRuleOrder | src/watchmyai/policy/evaluator.py:92-171 | the decision and all its evidence are the same for every permutation of the rules |
| PolicyRules.WinnerLeads | src/watchmyai/policy/evaluator.py:106-125 | the winner matches and no other matching rule precedes it |
| PolicyRules.DenyFirst | src/watchmyai/policy/evaluator.py:106-156 | a matching DENY rule gives DENY whatever else matches |
| PolicyRules.AllowIff | src/watchmyai/policy/evaluator.py:106-156 | ALLOW results if and only if nothing stricter matches, something allows, the adapter mediates the class before execution and every non-ignorable obligation is met |
| PolicyRules.StrictDefaultDeny | src/watchmyai/policy/model.py:63-76 | in strict mode an action no rule matches is denied |
| PolicyRules.AcceptedBundleReportsIff | src/watchmyai/capability/service.py:73-128 | under an accepted bundle every decision, of a rule or of the default, reports a missing obligation if and only if the check did not consider the adapter for the winning rule and an obligation that may not be ignored is unmet; and a missing approval flow if and only if it is missing, the gap does not deny, and such a winner or the default effect wants an approval |
| PolicyRules.DefaultIsNotChecked | src/watchmyai/capability/service.py:99-126 | an accepted bundle without rules whose default effect asks for approvals, so that every request of an adapter without an approval flow is denied with the report |
| PolicyRules.AcceptedBundleNeverReports | src/watchmyai/capability/service.py:73-128 | so an adapter the check considered for the winning rule never reports either |
| PolicyRules.LiteralWinnerNeverReports | src/watchmyai/policy/evaluator.py:135-147 | the same for every adapter covering the request's class when the winner names literal tool classes |
| PolicyRules.GuessedClassAccepted | src/watchmyai/capability/service.py:100-112 | every bundle of one rule on the command class that the check accepts because it guessed "shell" |
| PolicyRules.GuessedClassMisses | src/watchmyai/capability/service.py:100-112 | and the decision on an MCP call of `rm -r build`, with the attributes `classify` gives it, that reports the missing obligation |
| DecisionPoint.PolicyDecisionPoint.EvaluateRequest | src/watchmyai/policy/evaluator.py:92-175 | one evaluation: notices a new generation, answers from the cache or decides and remembers |
| DecisionPoint.ChangedDefaultIff | src/watchmyai/policy/evaluator.py:78-104 | after activating a bundle that differs in its default effect only, a remembered request is answered rightly if and only if some rule matches it or the adapter's gap levels the two defaults |
| RollbackReuse.SecondIsAnsweredByFirst | src/watchmyai/policy/evaluator.py:78-104 | two bundles of one name, version and sequence, the second of which is answered for by the first for every request the adapter covers and mediates beforehand |
| DecisionPoint.IndistinguishableIff | src/watchmyai/policy/evaluator.py:39-68 | two requests get the same decision from every bundle if and only if rules observe them alike |
| DecisionPoint.CacheIsInvisible | src/watchmyai/policy/evaluator.py:92-175 | in every run whose requests the key discriminates and whose bundles of one version and sequence differ at most in the order of their rules, every answer is that of a fresh decision point |
| DecisionPoint.SharedKeyIff | src/watchmyai/policy/evaluator.py:92-104 | that hypothesis on requests is exactly what the key needs |
| DecisionPoint.AgentsShareKey | src/watchmyai/core/models.py:133-150 | two agents with one payload share a key, and some bundle answers the second wrongly |
| Runtime.PolicyEnforcementPoint.Enforce | src/watchmyai/enforcement/pep.py:60-116 | DENY blocks, REQUIRE_APPROVAL releases exactly on an allowed consumption, everything else is released |
| Runtime.FoundByMatches | src/watchmyai/runtime.py:88-101 | with nothing presented the lookup gives nothing, the one live match, or an error exactly when there are two |
| Runtime.LookUpFailsIff | src/watchmyai/runtime.py:88-101 | in a store of runtime requests the lookup raises if and only if nothing is presented and the live matches carry two policy sequences |
| Runtime.SettledRaisesIff | src/watchmyai/runtime.py:234-265 | a call raises if and only if it needs an approval, resumed none, and its action's key is held by a record with another binding |
| Runtime.SettledRaisesInRunIff | src/watchmyai/runtime.py:234-265 | over every run: if and only if the action's key was ever created for another binding |
| Runtime.SecondHeldCallRaises | src/watchmyai/runtime.py:234-265 | once an action was held, every later held call of it with another decision identifier raises, whatever became of the approval |
| Runtime.RetryRaises | src/watchmyai/runtime.py:88-265 | a retry that finds no live approval mints an identifier, finds the key taken and raises |
| Runtime.WatchMyAIRuntime.LookUp | src/watchmyai/runtime.py:88-106 | finds exactly the presented record or the one live match, and changes nothing |
| Runtime.WatchMyAIRuntime.Process | src/watchmyai/runtime.py:88-265 | one call: it resumes the record it found, gets the decision point's answer, leaves the store and the enforcement that answer calls for and the events in order; each error is raised exactly when its cause holds and leaves the store alone |
| Runtime.WatchMyAIRuntime.Execute | src/watchmyai/runtime.py:267-283 | the executor runs exactly when permitted, never on DENY, and under REQUIRE_APPROVAL only on an allowed consumption of this binding |
| EnforcementRuns.UndisturbedCall | src/watchmyai/runtime.py:234-265 | the interleaved steps of one call, taken without a step of anyone else, do to the store what `process` does |
| EnforcementRuns.DoKeepsInv | src/watchmyai/runtime.py:88-283 | every step of a run keeps: each executed call is warranted and no consumption backs two calls |
| EnforcementRuns.EveryReleaseIsWarranted | src/watchmyai/runtime.py:88-283 | in every run no executor ran on DENY, and each release under REQUIRE_APPROVAL has an earlier grant of the same session, task, agent, tool, payload, target, decision, bundle and sequence (and action and request where not blank) |
| EnforcementRuns.GrantsAreNotShared | src/watchmyai/runtime.py:88-283 | no grant releases two executions, so releases never outnumber grants |
| EnforcementRuns.AskRaisesIff | src/watchmyai/runtime.py:234-265 | in every run of interleaved calls, asking raises if and only if the action's key was created for another binding |
| ProcessRuns.DoKeepsLink | src/watchmyai/approval/service.py:130-141 | every step of every process and thread, crashes included, keeps calls and their transactions in step with a serial world, and is a step of it or none |
| ProcessRuns.ProcessesRunSerially | src/watchmyai/runtime.py:88-283 | to every run of calls in processes and threads on the shared store there is a serial run that ends in the same calls, executions and log |
| ProcessRuns.EveryReleaseIsWarranted | src/watchmyai/runtime.py:88-283 | so there too no executor runs on DENY, and each that runs under REQUIRE_APPROVAL has a grant of its own for exactly this action in the committed log |
| Evidence.EvidenceChain.Append | src/watchmyai/evidence/chain.py:57-92 | one row more for this session, linked to its last one; a missing session or repeated hash changes nothing |
| Evidence.EvidenceChain.Verify | src/watchmyai/evidence/chain.py:102-121 | accepts exactly the sound chains and otherwise names the first event at fault and why |
| Evidence.SessionsAreChains | src/watchmyai/evidence/chain.py:57-92 | however appends interleave, every session is its own chain with sequences 1 to n |
| Evidence.AppendedVerifiesIff | src/watchmyai/evidence/chain.py:57-121 | `verify` accepts what `append` wrote if and only if no event arrived with an event hash of its own |
| Evidence.OtherSessionsUntouched | src/watchmyai/evidence/chain.py:57-92 | an append leaves every other session alone |
| Evidence.LastHashDeterminesChain | src/watchmyai/evidence/chain.py:102-121 | two accepted chains with the same final hash are equal event for event, or exhibit a hash collision |
| Metadata.ValidFromCounts | src/watchmyai/distribution/metadata.py:134-166 | a key counts if and only if it is authorised and the first signature under its name is good |
| Metadata.AppendingKeepsCount | src/watchmyai/distribution/metadata.py:134-166 | appending signatures never lowers the count |
| Metadata.SignaturesVerifyIff | src/watchmyai/distribution/metadata.py:168-180 | verification succeeds if and only if a threshold of distinct authorised keys signed |
| Metadata.ForgedFirstBlocksKey | src/watchmyai/distribution/metadata.py:134-166 | a bad signature placed first keeps its key from counting |
| Metadata.RotationIsLinked | src/watchmyai/distribution/metadata.py:118-132 | a successful rotation over n roots ends at version old+n, every link signed by a threshold of its predecessor's and its own keys |
| Metadata.RotatedRootEnrolls | src/watchmyai/distribution/metadata.py:80-89 | the last root of an accepted chain is the trusted one, and a new process enrols it for as long as it has not expired |
| Metadata.RoleVerifier.CollectKeyids | src/watchmyai/distribution/metadata.py:134-166 | the loop with `seen` and `valid` collects the keys that count |
| Distribution.DistributionClient.RotateRoot | src/watchmyai/distribution/client.py:120-146 | a chain rotates as a whole and only once the new root was persisted; a state save that fails raises with the new root already trusted and the file as it was |
| Distribution.CommitLeaves | src/watchmyai/distribution/client.py:423-451 | a commit leaves every role's version at the accepted one and not lower, the highest sequence not lower and at least the bundle's, the bundle active, rollback in force exactly below the highest, the verified file's digest under its name and sequence, every other verified target as it was, and a fresh client |
| Distribution.DistributionClient.VerifyAndActivate | src/watchmyai/distribution/client.py:148-282 | one activation: the first failing check decides; staging and activation come last and succeed when the name is new, no temporary pointer is left over and the policy is healthy; then ACTIVE names a new state of exactly the release's files, otherwise it reads as before, and no earlier state changes; a state save that fails raises with ACTIVE switched, the memory moved on and the file as it was |
| Distribution.DistributionClient.OfflineState | src/watchmyai/distribution/client.py:453-487 | the answer, the new state, and that it is saved exactly when it changed under a trusted clock |
| Distribution.VerifiedRoles | src/watchmyai/distribution/client.py:326-335 | each accepted role is signed by a threshold, at or above its version, and at its version only with its digest |
| Distribution.GateIff | src/watchmyai/distribution/client.py:228-236 | the sequence gate opens if and only if the step is up, or level with the active bundle's name, or an authorised step down |
| Distribution.VersionsMonotone | src/watchmyai/distribution/client.py:190-282 | over every run, no role's accepted version decreases |
| Distribution.VersionHasOneDigest | src/watchmyai/distribution/metadata.py:91-116 | over every run, two accepted metadata of one role and version have one digest |
| Distribution.HighestIsMaximum | src/watchmyai/distribution/client.py:423-451 | over every run, the highest sequence seen is the greatest ever committed |
| Distribution.StepsDownAreAuthorized | src/watchmyai/distribution/client.py:390-421 | every commit below an earlier one carries a current authorisation naming exactly the active and the new sequence, with enough approvals |
| SequenceReuse.OneFilePerSequenceIff | src/watchmyai/distribution/client.py:228-236 | over every run, no two commits of one sequence carry different policy files if and only if every committed target had a sequence new to the client or the digest recorded under its name and sequence |
| SequenceReuse.OneBundlePerSequenceIff | src/watchmyai/distribution/client.py:423-451 | the same for bundles, both ways when a bundle has one file and in any case from the record to the bundles |
| SequenceReuse.PresentedBundlesShareNoVersion | src/watchmyai/policy/evaluator.py:78-104 | then the committed bundles meet what the decision point's cache assumes of bundles |
| SequenceReuse.RecordedTargets | src/watchmyai/distribution/client.py:423-451 | the record holds, for each name and sequence ever committed, the digest of the last file under it |
| SequenceReuse.TopNameIff | src/watchmyai/distribution/client.py:228-236 | over every run, the gate keeps the highest sequence to the name committed there if and only if the last commit carries that name |
| SequenceReuse.SameNameIff | src/watchmyai/distribution/client.py:228-236 | two commits at one sequence carry one name if and only if the gate asked the later one for the earlier one's name |
| SequenceReuse.GateIgnoresContent | src/watchmyai/distribution/client.py:228-236 | the gate gives the same answer whatever the version and the digest of a target |
| Distribution.RollbackOpensReuse | src/watchmyai/distribution/client.py:228-236 | after every committed rollback to another bundle, that bundle's name passes the gate at the highest sequence without authorisation |
| RollbackReuse.RootEnrolls | src/watchmyai/distribution/metadata.py:80-89 | the root of the runs below is one that a client enrols |
| RollbackReuse.RunThroughClient | src/watchmyai/distribution/client.py:148-282 | the client object, from that root and an empty store, goes through such a run: every release is accepted, saved and installed under its own state name |
| RollbackReuse.ReuseThroughClient | src/watchmyai/distribution/client.py:148-282 | so it does through the two runs below |
| RollbackReuse.SequenceIsReused | src/watchmyai/distribution/client.py:190-282 | a run of three accepted releases commits two different bundles at one policy sequence, the second without a rollback authorisation |
| RollbackReuse.SameVersionIsReused | src/watchmyai/distribution/client.py:190-282 | a run of two accepted releases commits two bundles of one name, version and sequence with different default effects |
| Distribution.StalenessGrows | src/watchmyai/distribution/client.py:453-479 | without an activation staleness only grows, and grace never outlives the target |
| ClientRecovery.ActivateObject | src/watchmyai/distribution/client.py:148-282 | what the client object does to state, file and ACTIVE in one activation is the step of the runs with deaths and restarts |
| ClientRecovery.NeverOpenIff | src/watchmyai/distribution/client.py:228-276 | over every run with failing saves, deaths and restarts, ACTIVE is never open to an unauthorised step down if and only if the saved state covers it at every restart and the memory does at every `activate` that raises after the switch |
| ClientRecovery.RecordsIff | src/watchmyai/distribution/client.py:90-118 | the state in memory names ACTIVE at every point if and only if it does at those |
| ClientRecovery.StepDownUnauthorizedIff | src/watchmyai/distribution/client.py:228-236 | a switch to a lower sequence went without authorisation if and only if the highest sequence in memory was not above it |
| ClientRecovery.StepsDownAuthorizedWhenCovered | src/watchmyai/distribution/client.py:390-421 | so in such runs ACTIVE only steps down with a current authorisation and enough approvals |
| ClientRecovery.StepsDownNameActive | src/watchmyai/distribution/client.py:390-421 | and, when the state names ACTIVE, with one that names exactly the sequence ACTIVE steps down from |
| ClientRecovery.SavedNeverFallsBack | src/watchmyai/distribution/client.py:106-118 | over every such run, the file's versions and highest sequence never decrease |
| ClientRecovery.RootNeverFallsBack | src/watchmyai/distribution/client.py:120-146 | over every such run in which each rotation has a persister, the trusted root's version never decreases |
| ClientRecovery.UnpersistedFallsBack | src/watchmyai/distribution/client.py:131-133 | without a persister the next process trusts the old root again |
| LostCommits.StepsDownUnauthorized | src/watchmyai/distribution/client.py:275-276 | a run in which the process dies between switch and save and the next one takes ACTIVE from sequence 7 down to 6 without authorisation |
| TwoSlotStores.TwoSlotStore.Stage | src/watchmyai/distribution/store.py:31-49 | a new directory with every file, or a refusal that leaves pointers and other states alone |
| TwoSlotStores.TwoSlotStore.Activate | src/watchmyai/distribution/store.py:51-70 | a healthy candidate becomes ACTIVE and the previous one LAST_KNOWN_GOOD; otherwise ACTIVE reads as before |
| TwoSlotStores.DoKeepsInv | src/watchmyai/distribution/store.py:21-83 | every small step of every process, staging, installing or activating any directory, and every crash keep sealed states intact and each staging at what it has written |
| TwoSlotStores.SealedForever | src/watchmyai/distribution/store.py:31-49 | a completely staged state never changes again |
| TwoSlotStores.ActiveCompleteIff | src/watchmyai/distribution/store.py:51-83 | over every interleaving with crashes, ACTIVE is at every point absent or complete if and only if every switch of it was to a completely staged state |
| TwoSlotStores.ActiveIsComplete | src/watchmyai/distribution/store.py:51-83 | so it is, and the state never changes after, when every bare `activate` is given a completely staged state |
| TwoSlotStores.InstallsAreComplete | src/watchmyai/distribution/client.py:248-275 | and without any assumption when processes only activate what they have just staged, as the client does |
| TwoSlotStores.HalfStagedIsActivated | src/watchmyai/distribution/store.py:51-54 | a run in which `activate` accepts a directory whose staging crashed, and ACTIVE names an empty policy |
| TwoSlotStores.SealingIsComplete | src/watchmyai/distribution/store.py:31-49 | a state is sealed only with every file in full |
| CodePoints.OrdersAgreeIff | src/watchmyai/distribution/canonical.py:94-102 | two keys sort alike by code point and by UTF-16 unit if and only if they do not cross |
| JsonText.ObjectOf | src/watchmyai/distribution/canonical.py:36-42 | the loop over pairs keeps them all, or refuses exactly when a key comes back |
| JsonText.Load | src/watchmyai/distribution/canonical.py:45-91 | whatever is loaded is accepted by the profile and has no duplicate member at any depth |
| JsonRoundTrip.IntRead | src/watchmyai/distribution/canonical.py:21-25 | an integer in range is read back from its decimal text |
| JsonRoundTrip.CharsRead | src/watchmyai/distribution/canonical.py:94-102 | every string is read back from its escaped form |
| JsonRoundTrip.ValueRead | src/watchmyai/distribution/canonical.py:45-102 | every accepted value is read back from its compact text, in any context |
| JsonRoundTrip.LoadPrint | src/watchmyai/distribution/canonical.py:45-102 | the strict loader reads back every accepted value, member order included |
| CanonicalJson.CanonMeaning | src/watchmyai/distribution/canonical.py:94-102 | sorting changes neither the value nor its acceptance |
| CanonicalJson.LoadCanonical | src/watchmyai/distribution/canonical.py:45-102 | the loader reads the canonical text back as the same value |
| CanonicalJson.EqualTextsIff | src/watchmyai/distribution/canonical.py:94-102 | canonical texts are equal if and only if the values are equal up to member order |
| CanonicalJson.CanonicalIsStable | src/watchmyai/distribution/canonical.py:45-102 | canonicalising what was loaded from a canonical text changes nothing |
| Rfc8785.CharsAre | src/watchmyai/distribution/canonical.py:94-102 | strings are written as section 3.2.2.2 of RFC 8785 lists it |
| Rfc8785.IntegerIs | src/watchmyai/distribution/canonical.py:21-25 | an integer has exactly one decimal text without leading zeros, and that is the one written |
| Rfc8785.TextIs | src/watchmyai/distribution/canonical.py:94-102 | the written text, and no other, is a text of the value in those forms with its members in the order given |
| CanonicalJson.JcsIs | src/watchmyai/distribution/canonical.py:94-102 | exactly one text is that of RFC 8785: members in UTF-16 order at every depth, in those forms |
| CanonicalJson.CanonicalIsJcsIff | src/watchmyai/distribution/canonical.py:1-6 | the canonical text is that one if and only if no object inside has two keys that cross |
| CanonicalJson.BasicPlaneIsJcs | src/watchmyai/distribution/canonical.py:94-102 | so it is whenever all keys stay in the basic plane |
| CanonicalJson.SomeAcceptedValueDiffers | src/watchmyai/distribution/canonical.py:1-6 | an accepted value for which it is not |
| KqlLexer.TokenizeQuery | detection-rules/scripts/rulelib.py:139-159 | the tokenizer loop yields the tokens of the written-out regular expression |
| KqlLexer.TokenizeJoin | detection-rules/scripts/rulelib.py:139-159 | printed tokens, joined by spaces, are exactly the tokens read back |
| KqlLexer.UnescapeEscape | detection-rules/scripts/rulelib.py:139-159 | every string literal is read back from its quoted form |
| KqlLexer.TrailingSpaceRefused | detection-rules/scripts/rulelib.py:139-159 | every text followed by any non-empty white space is refused |
| KqlParsing.KqlParser.Disjunction | detection-rules/scripts/rulelib.py:188-193 | the loop builds the left-associated tree the grammar gives, or fails with it |
| KqlParsing.KqlParser.Primary | detection-rules/scripts/rulelib.py:208-216 | a group or a condition, as the grammar says |
| KqlParsing.KqlParser.ParseQuery | detection-rules/scripts/rulelib.py:169-175 | terminates on every token list; succeeds exactly when the grammar consumes every token |
| KqlPrinting.TextRoundTrip | detection-rules/scripts/rulelib.py:139-236 | the text of every query of the grammar is tokenized to its tokens and parsed to its tree |
| KqlPrinting.TreeRoundTrip | detection-rules/scripts/rulelib.py:139-236 | every tree printed with parentheses is read back as itself |
| KqlGrammar.ParsesIff | detection-rules/scripts/rulelib.py:169-236 | a list of tokens parses to a tree if and only if it is, up to the spelling of words and marks, the tokens of a query of the grammar with that tree |
| KqlGrammar.SameTokensSameTree | detection-rules/scripts/rulelib.py:169-236 | the grammar is unambiguous |
| KqlEvaluation.EvaluationReadsFields | detection-rules/scripts/rulelib.py:239-271 | the verdict depends only on the event's values at the tree's fields |
| KqlEvaluation.ConditionsExact | detection-rules/scripts/rulelib.py:248-258 | `kql_conditions` has one entry per field with exactly the values the tree compares it with |
| SequenceMatching.MatchSequence | detection-rules/scripts/rulelib.py:300-332 | the nested loops say yes exactly when some start is matched greedily |
| SequenceMatching.SortInOrder | detection-rules/scripts/rulelib.py:303-303 | the events are taken in time order |
| SequenceMatching.TimelyRunIsFound | detection-rules/scripts/rulelib.py:306-331 | a timely increasing run of matches, one per stage, is always found |
| SequenceMatching.FoundMeansRun | detection-rules/scripts/rulelib.py:306-331 | yes means an increasing run of matches with the start's join value, one per stage |
| SequenceMatching.MatcherAnswer | detection-rules/scripts/rulelib.py:313-331 | exactly when the matcher says yes: as many stages as can be within the span, the rest on the events right after it |
| SequenceMatching.SpanIsNotAlwaysKept | detection-rules/scripts/rulelib.py:324-327 | the first event beyond the span is accepted if it matches, though no timely run exists |
| SequenceMatching.MatchThreshold | detection-rules/scripts/rulelib.py:290-299 | true exactly when some key occurs at least the minimum number of times |
| Wildcards.BuildParts | scripts/sigma/eql_eval.py:93-97 | the loop translates a pattern character by character |
| Wildcards.RegexIsGlob | scripts/sigma/eql_eval.py:93-97 | the generated expression accepts exactly what a recursive `*` and `?` matcher accepts |
| EqlLexer.UnquoteBody | scripts/sigma/eql_eval.py:52-65 | the unescaping loop, its errors included |
| EqlLexer.UnquoteQuote | scripts/sigma/eql_eval.py:52-65 | every string is read back from its quoted form |
| EqlLexer.TokenizeQuery | scripts/sigma/eql_eval.py:68-90 | the tokenizer loop yields the tokens of the written-out regular expression |
| EqlLexer.TokenizeJoin | scripts/sigma/eql_eval.py:68-90 | printed tokens, joined by spaces, are exactly the tokens read back |
| EqlCompiling.CollectValues | scripts/sigma/eql_eval.py:100-118 | the loop over the path gives the values a recursive walk gives, arrays flattened at the end |
| EqlCompiling.Parser.Disjunction | scripts/sigma/eql_eval.py:175-180 | the closure returned for a disjunction means what the tree of the consumed tokens means, and the fields grow by that tree's |
| EqlCompiling.Parser.Conjunction | scripts/sigma/eql_eval.py:182-187 | same, for a conjunction |
| EqlCompiling.Parser.Atom | scripts/sigma/eql_eval.py:197-214 | same, for a group or a comparison |
| EqlCompiling.CompileQuery | scripts/sigma/eql_eval.py:251-254 | compiles exactly the texts that parse, to a predicate with the tree's meaning and its fields |
| EqlPrinting.ParseDisjTokens | scripts/sigma/eql_eval.py:167-241 | the tokens of every query of the grammar parse to its tree |
| EqlPrinting.TextParses | scripts/sigma/eql_eval.py:68-241 | so does its text |
| EqlPrinting.DisjTreeMeans | scripts/sigma/eql_eval.py:121-142 | with string patterns for the wildcard operators, the tree never raises and means what the query says, operator by operator |
| EqlPrinting.CompileMeans | scripts/sigma/eql_eval.py:251-254 | compiling the text of any query of the grammar gives its direct meaning on every event, and its exact fields |
| EqlPrinting.NotNullIsVacuous | scripts/sigma/eql_eval.py:134-142 | `!= null` holds exactly when no null stands among the field's values, missing fields included |
| EqlPrinting.CompareRaisesIff | scripts/sigma/eql_eval.py:121-142 | a comparison of any literals raises if and only if its operator is a wildcard one, no literal is null, the event has a value there, and some literal is no string while the first value matches none before it |
| EqlGrammar.ParsesIff | scripts/sigma/eql_eval.py:167-241 | a list of tokens parses to a tree if and only if it is the tokens of a query of the grammar with that tree |
| EqlGrammar.SameTokensSameTree | scripts/sigma/eql_eval.py:167-241 | the grammar is unambiguous |
| ExportPipelines.SendsUntilSettled | src/watchmyai/exporters/base.py:105-116 | a batch is retried through exactly the retryable failures, at most max_retries times, and the last call decides |
| ExportPipelines.BackoffSum | src/watchmyai/exporters/base.py:105-116 | r retries sleep backoff_base * (2^r - 1) in all |
| ExportPipelines.FailingBatchCost | src/watchmyai/exporters/base.py:105-116 | a batch that keeps failing retryably costs max_retries + 1 sends and backoff_base * (2^max_retries - 1) asleep |
| ExportPipelines.PickInOrder | src/watchmyai/exporters/base.py:78-103 | the events with one fate are in arrival order, each at its own place, none missing |
| ExportPipelines.LostIffRaised | src/watchmyai/exporters/base.py:91-116 | events are lost exactly when the sink raises something other than an ExportError |
| ExportPipelines.ExportPipeline.Enqueue | src/watchmyai/exporters/base.py:78-89 | a full queue gives up its oldest event to the dead letters; unserializable events go straight there |
| ExportPipelines.ExportPipeline.SendWithRetry | src/watchmyai/exporters/base.py:105-116 | the retry loop ends, costs and delivers what the recursive account of it says |
| ExportPipelines.ExportPipeline.Flush | src/watchmyai/exporters/base.py:91-103 | the queue is drained batch by batch: fates, dead letters and costs in order, and the count of exported events |
| ExportPipelines.ExportPipeline.Conservation | src/watchmyai/exporters/base.py:78-124 | enqueued = exported + queued + overflowed + dead after retries + lost, each counted in the right dead letters |
| JsonlSinks.MoveKeeps | src/watchmyai/exporters/jsonl/writer.py:46-51 | a rename keeps everything that can be read, save what stood in the last slot |
| JsonlSinks.JsonlSink.RotateIfNeeded | src/watchmyai/exporters/jsonl/writer.py:42-51 | rotates exactly when the live file has reached the limit, moves each slot one up, and drops only the last one |
| JsonlSinks.JsonlSink.Send | src/watchmyai/exporters/jsonl/writer.py:23-40 | after every send, also one that failed halfway, slots `backups` to 1 and the live file are a suffix of everything written, and each file was empty or below the limit before its last write |
| JsonlSinks.SizeBound | src/watchmyai/exporters/jsonl/writer.py:42-44 | so a file holds less than the limit plus one batch, or one batch |

## Left out

- Aliasing of approval objects: the service hands out the records it keeps; here a returned record is a value.
- `get`, `get_by_ref` and `list_live` as steps of the concurrency model: they hold the same locks and change nothing. The lookup of a call is one step, taken while the file lock is free.
- More than one decision point in a run of processes: its decisions are arbitrary, but one cache serves all calls.
- Crashes inside the atomic replace, and file locks that fail to exclude: the replace and the locks are single steps.
- Telemetry payloads, audit events, schema validation, redaction and path resolution: `classify` is an uninterpreted function.
- SHA-256 and Ed25519: a collision-free function and a predicate; base64 and key encodings are not part of this model.
- Library calls: `fnmatch`, `casefold`, `lower`, `str` and case-insensitive character comparison are parameters.
- UTF-8: canonical JSON stops at code points, since encoding is injective and decoding undoes it; only its width enters the log sink.
- Recursion depth and the limit on integer digits in the JSON library.
- JSON booleans standing for integers in metadata numbers, and object keys that are not strings.
- Lone surrogates in KQL strings and non-ASCII digits in EQL numbers: characters here are Unicode scalar values, digits ASCII.
- Floats are reals: rounding of EQL numbers, expiry arithmetic and back-off sleeps is not modelled.
- Numeric attributes in policy conditions, and obligations outside the fixed list on rules built without the loader.
- Plain `query` fixtures, and rule payloads for Elastic.
- Stopping the process in the middle of one `write` of a dead letter, and a dead-letter file that cannot be written.
- RFC 3339 parsing, and the version and platform strings around an activation; whether a root or a state is kept is a parameter.
- ExportPipelines.ExportPipeline.Flush: asks for a batch size of at least one, because with less the source never ends.
- DecisionPoint.CacheIsInvisible: asks that the requests of the run be told apart by the cache key, because that is exactly what the key needs.
- ApprovalStore.ConsumedAtMostOnce: asks that tokens never repeat, because they are drawn at random.
- Runtime.SecondHeldCallRaises: asks the same of tokens, and that the two decision identifiers differ, because both are drawn at random.
- SequenceReuse.OneBundlePerSequenceIff: from one bundle per sequence back to the record it asks that a bundle has one file, because a re-encoded policy file has another digest.
- Distribution.VersionsMonotone: runs of one process; across restarts what is saved does not decrease (`ClientRecovery.SavedNeverFallsBack`), but versions whose save failed are forgotten.
- SequenceReuse.OneFilePerSequenceIff: runs of one process, for the same reason.
- ClientRecovery.RootNeverFallsBack: asks that each rotation has a persister, because without one the root is not kept.
- TwoSlotStores.ActiveIsComplete: asks that a bare `activate` is given a completely staged state, because that is exactly what completeness needs.
- Elastic, Kibana and HTTP clients, onboarding, command line, installers, packaging and the fixed-table checks over repository files.
