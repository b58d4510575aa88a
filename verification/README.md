# A verified model of the project store and the services on it

This project models, in Dafny 4.11, the part of the construction-project assistant that decides what is
stored and when: a versioned, transactional store partitioned by project, the audited mutation layer on
top of it, and the services that use both. It proves properties of whole runs: retries, conflicts,
failures at any step, interleavings and two-run comparisons.

`dafny verify dfyconfig.toml` checks everything.

## How it is built

- **Store.** `Models` holds the records, `Foundations` the shared small types, `Repository` is one request
  against the whole store as a value, `Sessions` lets any client (a function from the answers it has seen to
  its next move) run inside a transaction with nested single-collection transactions, and explains every
  reachable store by the history of its committed writes; `StoreOutcomes` says what every reachable record and
  every listing is. `InMemory` and `Transactions` are the same thing as objects that own nested dictionaries
  and take snapshots, proved to refine the value-level transaction for every client. Running out of fuel is an
  exception at that point, so "every client and every fuel" includes a failure at every step.
- **Authorisation.** `Access` is the wrapper that checks scope and role, with a two-run isolation theorem.
- **Mutations.** `Identifiers` and `SessionIds` are the framings whose digests name things. `Activity` is the
  audited mutation and its exactly-once theorem, `MutationOutcomes` what one call leaves and which later calls
  it answers or refuses, field by field, `ActivityServices` the object that performs it.
- **Approvals.** `Approvals`, `ApprovalEffects`, `ApprovalRuns` and `ApprovalRetry` decide an approval, move
  its material request and emit one outbox message, over any interleaving; `ApprovalProgress` says exactly
  when a decision goes through; `DecisionOutcomes` what it leaves in each record, and who may decide;
  `ApprovalServices` is the object, write by write, and `ApprovalExamples` has concrete stores on which a
  decision, a retry or a request's move fails.
- **Uploads.** `Attachments` is the upload protocol as a state machine with one program counter per client and
  storage inspection as a step of its own; `AttachmentSafety` has its invariant, `AttachmentOutcomes` what any
  run leaves in each record, grant and event, `AttachmentProgress` what an attempt achieves,
  `AttachmentServices` the two write transactions as methods.
- **Firestore.** `FirestoreCache`, `FirestoreTransactions` and `FirestoreRepositories` are the version cache
  and the buffered writes of one Firestore transaction, compared with the simple store, up to a database
  object whose transactions refine the simple ones; `FirestoreExamples` has two clients on which the two
  differ. `Machines` are clients as state machines and `Audits` is the audited mutation around one;
  `FirestoreRebuild`, `DecisionMachines` and `FirestoreDecisions` are the transactions of a rebuild and of a
  decision, request by request, proved to be the specified mutations on either store.
- **Algorithms.** `DependencyGraph` (depth-first validator), `RateLimits` and `RateLimitOutcomes` (sliding
  window), `Projections`, `ProjectionRebuild`, `ReportOutcomes`, `ReportSources` and `ProjectionExamples`
  (daily report), `EventValues` (JSON validator and freezing), `FrozenValues` (what can still be done to a
  frozen value), `EntityResolver` and `ResolverOutcomes` (reference resolution), `Lifecycles` (status tables),
  `Ordering` (sorting), `Texts` (required, folded and restricted text). The modules named `…Outcomes` state
  results by the fields and texts of the records alone. `Examples` is the project in which the concrete
  examples take place.

Times are whole milliseconds and one `run_transaction` is one atomic step, because the store's lock is held
throughout. SHA-256 is a function of which only injectivity is known.

## Where the code does not do what one would expect

Each item names the lemma that says exactly when the code does meet the property and, where there is one, the
lemma with a concrete input on which it does not.

- A decision fails when its notes are present but blank, although the command and the HTTP route accept
  them, and when the idempotency key has 250 to 256 characters, although such keys are legal: the event it
  emits refuses both, and the whole decision is rolled back. `DecisionOutcomes.DecidesIff` is the exact
  condition, `ApprovalProgress.BlankNotesFail` and `ApprovalProgress.LongKeyFails` the two families,
  `ApprovalExamples.EmptyNotesFail` a store on which the same decision without notes goes through.
- A retried decision is answered as a duplicate if and only if the causality read outside the transaction
  still reads the same and the confirmation it was made under still holds; otherwise it fails, and in both
  cases nothing changes (`ApprovalRetry.RetryIsDuplicate`). An agent run that appears between the two
  attempts makes the retry fail (`ApprovalExamples.LateRunRefusesRetry`). Sent twice in a row it always is
  answered (`ApprovalRetry.DecideTwice`).
- A decision moves a linked request only when the approval is for a purchase and the request is its only
  link (`ApprovalRuns.RequestMovesIff`); the request of a decided schedule change keeps awaiting approval
  (`ApprovalExamples.OtherApprovalLeavesRequest`). While two requests name a purchase approval, no decision
  of it ever succeeds (`ApprovalRuns.AmbiguousNeverDecided`).
- The approval service moves a proposed request straight to approved, which the lifecycle table does not
  allow; it follows the table exactly when the request awaited approval or the decision is a rejection
  (`Lifecycles.ServiceMoveFollowsTable`, with the run `Lifecycles.DecisionSkipsAwaiting`).
- Of two Firestore saves of one record against the same version, the second is refused if and only if the
  record is no project or the version is not 0, because project documents carry no version
  (`FirestoreTransactions.SecondSaveExactly`; both are accepted in
  `FirestoreTransactions.ProjectSavesNeverConflict`).
- A Firestore creation under an identifier in use is noticed only at commit and then loses the whole
  transaction (`FirestoreTransactions.CollisionIsFoundAtCommit`, `FirestoreExamples.CollisionExample`). A
  caught failure of a nested transaction keeps its writes in Firestore and undoes them in memory; the two
  agree exactly when nothing had been changed (`FirestoreTransactions.NestedFailureDiffers`,
  `FirestoreExamples.NestedFailureExample`).
- A rebuilt daily report loses the crew and weather summaries, work in progress, deliveries, inspections
  and photos of the stored one; they survive exactly when they were empty
  (`ProjectionRebuild.ExtrasDropped`, `ProjectionExamples.CrewSummaryIsLost`). No report can be rebuilt for
  a canonical project ID of more than 117 characters, because the report's own ID is then too long
  (`ProjectionRebuild.AppliedExactly`, `ProjectionExamples.LongProjectHasNoReport`).
- Resolving a reference raises when the answer breaks a field limit, such as an issue whose description is
  longer than the 300 characters of a candidate's name (`EntityResolver.ResolveFailsExactly`); such a record
  cannot be resolved even by its own ID (`EntityResolver.LongNameFails`).
- A frozen event value can still be changed. The frozen list overrides every mutating method of `list` but
  `clear`, so `payload["a"].clear()` empties the list of the payload `{"a": [1]}`
  (`FrozenValues.FrozenListIsCleared`), and freezing does not reach lists and dictionaries below a tuple,
  although the validator accepts tuples (`EventValues.FreezeReaches`, `EventValues.TupleHidesList`). No
  sequence of calls changes what a frozen value says if and only if every list that freezing reaches is empty
  and nothing changeable sits below a tuple or a foreign mapping (`FrozenValues.FrozenKeepsValue`); emptying
  lists is all that can be done to it if and only if no plain list or dictionary sits there
  (`FrozenValues.FrozenOnlyEmpties`).
- A rate-limited caller who waits as told can be refused again: with two units a minute and charges at 0 s and
  30 s, a request for two at 31 s is sent away for 29 s and then refused (`RateLimits.CostlyRetryIsRefused`).
  `RateLimits.RetryIsAdmitted` is the exact condition; for a request of cost 1 it is that no other dimension
  is full by then (`RateLimits.UnitRetry`).
- A rebuild whose report is deleted between the reading and the transaction fails with a version conflict when
  the report had been saved before (`ProjectionRebuild.VanishedConflicts`, on a concrete store
  `ProjectionExamples.DeletedReportConflicts`); in every other respect it does not matter how the store moves
  on in between (`ProjectionRebuild.AppliedExactly`).

## Model

| member | source | states |
|---|---|---|
| Repository.ApplyKeepsWellFormed | app/repositories/memory.py:58-84 | every accepted or refused request leaves every record under its own key, valid, and with its version field equal to the stored version |
| Repository.ApplyIsLocal | app/repositories/memory.py:42-109 | the answer to a request and what becomes of its collection depend on that collection only |
| Repository.ApplyKeepsOtherKinds | app/repositories/memory.py:58-104 | a request never touches another collection |
| Repository.CreateReadsBack | app/repositories/memory.py:58-68 | a creation is accepted exactly for a free key, a valid record and version 0, and then reads back as given at version 0 with nothing else changed |
| Repository.SaveReadsBack | app/repositories/memory.py:70-84 | a save is accepted exactly for a stored record, its current version and a valid result, and then reads back as given at the next version with nothing else changed |
| Repository.DeleteReadsBack | app/repositories/memory.py:86-104 | a deletion is accepted exactly for a stored record and its current version, and leaves nothing of it and everything else |
| Sessions.ReachableHasHistory | app/repositories/memory.py:229-265 | every store reachable by transactions of arbitrary clients is the replay of exactly the committed writes, in order |
| Sessions.ReachableVersions | app/repositories/memory.py:58-84 | in every reachable store a record's version is the number of committed saves since its creation and equals its own version field |
| StoreOutcomes.ReachableRecordsAreLawful | app/repositories/memory.py:58-84 | in every reachable store each record meets its own validator, lies under its own project and ID, and carries the version that the store counts |
| Sessions.VersionCountsSaves | app/repositories/memory.py:70-84 | over any accepted history, a stored version counts the saves since the last creation; a deletion starts over |
| Sessions.VersionGrows | app/repositories/memory.py:138-155 | while a record is not deleted its version never goes down |
| Sessions.NoLostUpdate | app/repositories/memory.py:138-155 | two accepted saves of one record against the same version have a deletion of that record between them |
| Sessions.UndoKind | app/repositories/memory.py:158-178 | putting one collection back to its snapshot gives the history without that collection's later writes |
| Sessions.NestedRollback | app/repositories/memory.py:158-178 | a caught failure of a nested transaction undoes exactly that collection's inner writes, whatever happened inside |
| Ordering.SortForgetsOrder | scripts/rebuild_projections.py:194-203 | sorting gives the same list for every arrangement of the same members when none are tied |
| Ordering.SortedIdsAscending | app/repositories/memory.py:53-56 | the identifiers of a listing are strictly ascending |
| StoreOutcomes.ListingIsExact | app/repositories/memory.py:53-56 | a listing shows exactly the records of the project in the collection, each once, by identifier |
| Ordering.TextLeqMeans | app/repositories/memory.py:53-56 | texts are ordered by the first character in which they differ, a prefix first |
| InMemory.InMemoryRepository.Get | app/repositories/memory.py:42-45 | answers what the store holds under the key and changes nothing |
| InMemory.InMemoryRepository.List | app/repositories/memory.py:53-56 | lists one project's records of the collection, in identifier order |
| InMemory.InMemoryRepository.VersionOf | app/repositories/memory.py:105-108 | answers the stored version, or none |
| InMemory.InMemoryRepository.Create | app/repositories/memory.py:58-68 | stores a new valid record at version 0, or refuses for an existing key, an invalid record or a non-zero version, in that order, and then changes nothing |
| InMemory.InMemoryRepository.Save | app/repositories/memory.py:70-84 | accepts exactly the current version, stores the record at the next one, and changes nothing when it refuses; no version given is always refused |
| InMemory.InMemoryRepository.Delete | app/repositories/memory.py:86-104 | removes the record at exactly the expected version |
| InMemory.MemoryTransaction.Enter | app/repositories/memory.py:163-167 | takes a snapshot of the collection's records |
| InMemory.MemoryTransaction.Exit | app/repositories/memory.py:168-178 | puts the snapshot back exactly when the block raised |
| InMemory.InMemoryRepositoryStore.Repository | app/repositories/memory.py:215-224 | hands out the one repository of an entity type, creating an empty one the first time |
| InMemory.InMemoryRepositoryStore.Perform | app/repositories/memory.py:208-224 | a request sent to its typed repository is that request on the whole store |
| Transactions.MemoryStoreTransaction.Enter | app/repositories/memory.py:242-250 | remembers which types exist and a snapshot of each |
| Transactions.MemoryStoreTransaction.Exit | app/repositories/memory.py:251-265 | after an exception every collection is its snapshot and collections first touched inside are forgotten; otherwise nothing is undone |
| Transactions.RunClient | app/repositories/memory.py:110-119 | any client's moves on the heap, nested transactions included, are its moves on the value-level session |
| Transactions.RunTransaction | app/repositories/memory.py:229-265 | for every client: same answers, same result and same store as the value-level transaction, and a store untouched collection by collection when it raises |
| Access.AuthorizedProjectRepository.Get | app/repositories/membership.py:162-164 | answers only for the context's own project and a role that may read |
| Access.AuthorizedProjectRepository.List | app/repositories/membership.py:170-172 | the same for listings |
| Access.AuthorizedProjectRepository.VersionOf | app/repositories/membership.py:192-194 | the same for versions |
| Access.AuthorizedProjectRepository.Create | app/repositories/membership.py:174-176 | writes only for the context's own project and a role with the mutation permission; otherwise changes nothing |
| Access.AuthorizedProjectRepository.Save | app/repositories/membership.py:178-180 | the same for saves |
| Access.AuthorizedProjectRepository.Delete | app/repositories/membership.py:182-190 | the same for deletions |
| Access.AuthorizedProjectRepository.RunTransaction | app/repositories/membership.py:196-209 | every client gets the guarded transaction; a raising one leaves the repository as it was, and no other project's record changes in any case |
| Access.ProjectIsolation | app/repositories/membership.py:150-217 | two runs of any wrapped client on stores that agree on its project give equal results and agree on it afterwards, and neither touches another project |
| Access.RoleDecides | app/domain/authorization.py:21-37 | a request of another project is forbidden, a read of the own one always served, and a write exactly for the roles, by name, that its permission does not shut out |
| Access.RoleCannotWrite | app/domain/authorization.py:21-37 | in any transaction of any client a viewer writes nothing, a foreman nothing that needs approving, and a manager nothing that needs managing |
| Identifiers.CutAtSeparator | app/domain/activity.py:121-128 | cutting at the first separator recovers both sides of a join |
| Identifiers.ActorTextInjective | app/domain/activity.py:124-127 | the text for "no actor" is never that of a canonical actor, and no actor text contains the separator |
| Identifiers.ActivityIdInjective | app/domain/activity.py:121-128 | an activity ID determines project, actor and idempotency key |
| Identifiers.DecisionMessageInjective | app/services/approvals.py:205-206 | a decision's message ID determines the approval and the outcome |
| Identifiers.AttachmentActivityInjective | app/services/attachments.py:306-318 | an upload event's ID determines the attachment and the action |
| Texts.WordsAreRestricted | app/domain/activity.py:164-186 | a text with any of the fourteen words in whatever case is restricted |
| Texts.BearerIsRestricted | app/domain/activity.py:180-186 | so is one that shows a bearer token of at least twelve characters |
| SessionIds.LengthPrefixInjective | app/agents/adk_runtime.py:57-57 | four big-endian bytes determine the length |
| SessionIds.DigestInputInjective | app/agents/adk_runtime.py:54-58 | the length-prefixed digest input determines the list of parts |
| SessionIds.DurableSessionId | app/agents/adk_runtime.py:37-59 | succeeds exactly for a legal namespace and non-empty parts below 2^32 bytes, and then feeds the digest the framed parts in order |
| SessionIds.SessionIdIdentifies | app/agents/adk_runtime.py:37-59 | an ID has at most 63 characters of the permitted alphabet and, barring a collision of these two inputs, names one namespace and one list of parts |
| Activity.ExactlyOnce | app/services/activity.py:42-81 | after any run of calls the domain records are those of the run with only the fresh calls, which are fresh and return the same values there; the log only grew |
| Activity.AtMostOncePerKey | app/services/activity.py:42-81 | in any run no two fresh calls share project, actor and idempotency key |
| Activity.RetryNeverReapplies | app/services/activity.py:64-79 | a call that was fresh once never changes a domain record again, however the store has moved on |
| Activity.ConflictChangesNothing | app/repositories/activity.py:70-84 | reusing a key with another fingerprint is refused and changes nothing; MutationOutcomes.KeyNamesOneMutation says which calls have another one |
| Activity.MutateAppends | app/services/activity.py:113-118 | a mutation never changes or removes a stored event |
| Activity.FreshStoresItsEvent | app/repositories/activity.py:43-68 | a fresh call's own event was not stored before and is the one built from its context and spec afterwards |
| Activity.NotFreshKeepsDomain | app/services/activity.py:64-79 | a duplicate, conflicting or raising call leaves every domain record alone |
| Activity.EventIdentifiesScope | app/domain/activity.py:121-128 | two valid contexts have the same event ID exactly when project, actor and key are equal |
| Activity.ActivityFreeIsLogBlind | app/services/activity.py:64-79 | every client that leaves the activity log alone, caught nested failures included, is a callback to which exactly-once applies |
| MutationOutcomes.KeyNamesOneMutation | app/domain/activity.py:118-149 | after a call was fresh, a later one of its project, actor and key is answered as a duplicate if and only if action, entity, summary, metadata, actor type, source event, agent run, request fingerprint and confirmation all agree; any difference is an idempotency conflict and changes nothing |
| MutationOutcomes.ConfirmedOnlyByItsClaim | app/services/activity.py:84-96 | a mutation that cites a claim succeeds only if the stored claim is "confirming" with the same actor, attempt and command, and otherwise changes nothing |
| MutationOutcomes.FreshEventSays | app/repositories/activity.py:43-68 | the event of a fresh call, field by field, with the key's digest and the confirmation in its metadata |
| MutationOutcomes.SuccessIsLogged | app/services/activity.py:64-81 | a mutation that went through has its own event and every additional one in the log, each recording the mutation that was asked for |
| MutationOutcomes.FreshDoesItsBody | app/services/activity.py:64-81 | a fresh call leaves the domain records of its callback and returns its value, which is the record the call names if it is a record |
| MutationOutcomes.IllScopedIsRefused | app/services/activity.py:42-63 | additional events of another project, or two events of one identifier, are refused before anything is read |
| ActivityServices.ActivityService.ValidateFence | app/services/activity.py:84-96 | a confirmation is honoured only while its claim is being confirmed by this actor, attempt and command |
| ActivityServices.ActivityService.MissingOrValidate | app/services/activity.py:99-110 | the additional events not stored yet, in order, or a conflict |
| ActivityServices.ActivityService.CreateMissing | app/services/activity.py:113-118 | creates the events in order, stopping at the first refusal |
| ActivityServices.ActivityService.Prepare | app/services/activity.py:64-70 | the standing of the log before the callback, read without changing the store |
| ActivityServices.ActivityService.Mutate | app/services/activity.py:42-81 | performs exactly the value-level mutation; when it raises, every collection is as it was |
| ApprovalEffects.DecideEffect | app/services/approvals.py:195-324 | a successful decision replaces the approval by the decided one at the next version, moves the sole awaiting request and nothing else, stores the decision message if absent, and only for the given current version |
| ApprovalEffects.ResolutionIsLogBlind | app/services/approvals.py:195-324 | the decision never depends on the activity log, so exactly-once applies to it |
| ApprovalProgress.DecideExactly | app/services/approvals.py:218-324 | deciding a pending approval succeeds exactly when its link is not ambiguous, the resolver may operate, the version is current, the times are in order, the notes are absent or have content, the key leaves room for its suffix and the request's event is free |
| ApprovalProgress.DecidesExactly | app/services/approvals.py:67-124 | an attempt decides if and only if the approval is pending and decidable, its description is permitted text, the confirmation holds and neither of its events exists yet |
| ApprovalProgress.DecidesNowMeans | app/services/approvals.py:67-124 | an attempt that decides leaves exactly the domain records of that decision |
| ApprovalProgress.BlankNotesFail | app/domain/events.py:273-286 | a decision whose notes are present but blank never goes through, on any store |
| ApprovalProgress.LongKeyFails | app/services/approvals.py:294-309 | a decision under a key of 250 characters or more never goes through |
| ApprovalExamples.EmptyNotesFail | app/services/approvals.py:294-309 | on a concrete store a decision goes through without notes, and fails with empty ones or with any key of 250 to 256 characters |
| ApprovalRuns.CommitCases | app/services/approvals.py:67-124 | an attempt either leaves all domain records alone or decides one pending approval |
| ApprovalRuns.DecisionMessages | app/services/approvals.py:293-322 | a decision stores its own message and touches no other outbox record |
| ApprovalRuns.OtherApprovalsKept | app/services/approvals.py:195-324 | a decision touches no other approval |
| ApprovalRuns.RequestMovesIff | app/services/approvals.py:218-291 | a request is moved if and only if the approval is for a purchase, the request is its only link and it was proposed or awaiting approval; it becomes approved or cancelled in agreement with the decision |
| ApprovalExamples.OtherApprovalLeavesRequest | app/services/approvals.py:218-253 | a concrete decision on a schedule change that leaves the request naming it as it was, awaiting approval |
| ApprovalRuns.ApprovalSafety | app/services/approvals.py:195-324 | over any run each approval is decided at most once, is pending exactly when it has no decision message, and otherwise has exactly one: of type APPROVAL_GRANTED if it is approved and APPROVAL_REJECTED if it is rejected, with that outcome's deduplication key and the approval's ID as payload |
| ApprovalRuns.RequestAgreement | app/services/approvals.py:218-291 | over any run the only request linked to a purchase approval is unchanged while the approval is pending and agrees with it once decided |
| ApprovalRuns.AmbiguousNeverDecided | app/services/approvals.py:221-228 | a purchase approval named by two requests is never decided |
| DecisionOutcomes.DecisionLeaves | app/services/approvals.py:195-324 | a decision leaves the approval with its outcome, resolver, time, notes and next version, the only waiting request of a purchase approved or cancelled, the message with its type, key and payload, and no other record changed but in the log |
| DecisionOutcomes.DecidesIff | app/services/approvals.py:67-124 | the exact condition of a decision in what a caller can check: role and project, pending status and version, order of times, notes, key length, permitted texts, confirmation, and free identifiers of its events |
| DecisionOutcomes.OnlyApproversDecide | app/services/approvals.py:67-83 | whoever is no manager or admin of the named project, or acts for another user, changes nothing and gets an error |
| DecisionOutcomes.ForemanDecidesNothing | app/domain/authorization.py:21-37 | a viewer or a foreman decides no approval on any store |
| DecisionOutcomes.AmbiguousIsNamedTwice | app/services/approvals.py:221-228 | the link is ambiguous exactly when two stored requests of the project name a purchase approval |
| DecisionOutcomes.DecisionIsLogged | app/services/approvals.py:84-124 | the event of a decision: who decided what, with which notes, for which request and why |
| DecisionOutcomes.MoveIsLogged | app/services/approvals.py:272-291 | the event of the request that a decision moves |
| DecisionOutcomes.SettledIsAnswered | app/services/approvals.py:207-217 | for an approval that is not pending: a version conflict first, then success with the message of its outcome if it agrees, otherwise an error, and nothing is written |
| DecisionOutcomes.DuplicateIsAnswered | app/services/approvals.py:326-340 | a duplicate is answered with the approval as stored and the message of its own outcome |
| DecisionOutcomes.CausalityIsRead | app/services/approvals.py:138-177 | a purchase decision is tied to the source event of the only request that names it and to the only run that this event triggered, unless the context names another run |
| DecisionOutcomes.RunlessIsTied | app/services/approvals.py:138-177 | a purchase whose request's event triggered no run is tied to that request alone |
| DecisionOutcomes.UnnamedIsNotTied | app/services/approvals.py:138-177 | a purchase that no request names keeps its context |
| DecisionOutcomes.OthersAreNotTied | app/services/approvals.py:138-177 | a decision that is no purchase keeps its context |
| DecisionOutcomes.NamedTwiceIsRefused | app/services/approvals.py:138-177 | a purchase that two requests name is an error before any transaction |
| DecisionOutcomes.TwoRunsAreRefused | app/services/approvals.py:138-177 | so is one whose request's event triggered two runs |
| ApprovalRetry.RetryIsDuplicate | app/services/approvals.py:326-340 | a retry at any later time changes nothing; it succeeds if and only if its causality reads the same and its confirmation still holds, and is then answered as a duplicate from the stored approval |
| ApprovalRetry.DecideTwice | app/services/approvals.py:67-124 | deciding twice in a row, under a confirmation or not, is deciding once, and the second answer reports the stored approval as a duplicate |
| ApprovalExamples.LateRunRefusesRetry | app/services/approvals.py:138-177 | a concrete decision whose retry is refused, without effect, because an agent run for the request's source event appeared in between |
| ApprovalRetry.DecisionKeepsEnrichment | app/services/approvals.py:138-177 | a decision does not change the causality that enriches it |
| ApprovalServices.ApprovalService.LinkedRequests | app/services/approvals.py:221-230 | the requests of the project's listing that name the approval |
| ApprovalServices.ApprovalService.MoveLinkedRequest | app/services/approvals.py:254-291 | saves the request under its current version and records the change, or fails as a whole |
| ApprovalServices.ApprovalService.DecidePending | app/services/approvals.py:218-324 | the writes of a decision, one after the other, are the value-level decision |
| ApprovalServices.ApprovalService.ApplyResolution | app/services/approvals.py:195-324 | the same for the whole resolution with its checks |
| ApprovalServices.ApprovalService.AnswerReplay | app/services/approvals.py:326-340 | a duplicate is answered from the stored approval and message without writing |
| ApprovalServices.ApprovalService.Commit | app/services/approvals.py:84-124 | the service's transaction is the value-level attempt, and leaves no trace when it raises |
| AttachmentSafety.StepKeeps | app/services/attachments.py:87-333 | every step of every client, crashes and other work included, keeps the protocol invariant and settles each attachment at most once |
| AttachmentSafety.UploadSafety | app/services/attachments.py:87-333 | between any two moments of any run each attachment is unchanged or was decided exactly once under the same contract |
| AttachmentOutcomes.UploadOutcomes | app/services/attachments.py:87-333 | after any run the requested, verified and rejected events exist exactly when the attachment exists, is verified, is rejected, and say so in their action, status and subject |
| AttachmentOutcomes.VerdictsAreJustified | app/services/attachments.py:185-243 | after any run an upload is at its project's path and within the limits, at version 0 exactly while initiated; it is verified only if storage, asked for that path and digest, showed an object of that path, content type and size, whose generation is noted, and rejected only if it showed none |
| AttachmentOutcomes.GrantsAreForTheUpload | app/services/attachments.py:113-154 | after any run every signed URL is for the path, type and size of the stored upload and a request for that upload, and every answer is the stored, verified record |
| AttachmentSafety.VerdictKeeps | app/services/attachments.py:185-243 | a verdict, late or not, keeps the invariant, and every attachment is as it was or settles for the first time |
| AttachmentProgress.CreateExactly | app/services/attachments.py:270-281 | a creation goes through exactly for an unused ID, and otherwise fails as already existing |
| AttachmentProgress.SaveExactly | app/services/attachments.py:283-304 | a verdict goes through exactly while the attachment is at version 0, and otherwise conflicts |
| AttachmentProgress.VerdictDecides | app/services/attachments.py:196-243 | a verdict on an undecided attachment is verified if storage showed its path, content type and size, with generation and time noted, and otherwise rejected; a late one changes nothing, and only a client that was shown that object goes on to confirm |
| AttachmentProgress.SigningSucceeds | app/services/attachments.py:87-154 | signing for an unused ID stores the record with the requested fields at its project's path and issues the grant for that path and request |
| AttachmentProgress.SigningStartsExactly | app/services/attachments.py:87-112 | a record is created exactly for a foreman, manager or admin and a request within the limits |
| AttachmentProgress.SigningAgain | app/services/attachments.py:113-118 | under an ID in use a client goes on to a grant exactly while the stored upload is undecided and is, field by field, the one it asks for |
| AttachmentProgress.RereadingDecides | app/services/attachments.py:136-147 | the same for a client whose own creation came too late |
| AttachmentProgress.VerifyingDecides | app/services/attachments.py:156-243 | verifying an undecided attachment ends verified if and only if storage showed its path, content type and size, and rejected otherwise |
| AttachmentProgress.VerifyingAgain | app/services/attachments.py:156-184 | a verified attachment is answered as stored, a rejected one refused, and a viewer verifies nothing; nothing is written |
| AttachmentProgress.UploadCompletes | app/services/attachments.py:87-243 | an undisturbed upload ends verified if and only if storage shows the path, content type and size of the request, and rejected otherwise |
| AttachmentServices.AttachmentService.CreateActivity | app/services/attachments.py:306-333 | records the event once, and takes losing a race for it as success |
| AttachmentServices.AttachmentService.CreateWithActivity | app/services/attachments.py:270-281 | stores event and attachment together or neither |
| AttachmentServices.AttachmentService.SaveWithActivity | app/services/attachments.py:283-304 | saves against version 0 together with its event, or neither |
| FirestoreCache.FireMirrors | app/repositories/firestore.py:152-337 | every request on a fresh identifier and no project record is answered as the simple store answers it, unless it would read after a write; cache and buffer keep standing for that store |
| FirestoreCache.SaveMirrors | app/repositories/firestore.py:284-311 | repeated saves accept the same expected versions and assign the same next ones as the simple store |
| FirestoreCache.CreateMirrors | app/repositories/firestore.py:182-200 | a fresh creation is cached at version 0 and agrees with the simple store |
| FirestoreCache.DeleteMirrors | app/repositories/firestore.py:313-337 | a deletion agrees with the simple store and forgets the cached version |
| FirestoreCache.CurrentVersionMirrors | app/repositories/firestore.py:248-259 | the cached or freshly read version is the simple store's version |
| FirestoreCache.DecodedPartitionIsStored | app/repositories/firestore.py:168-180 | a listing decoded from documents is the listing of the records |
| StoreOutcomes.FirestoreProjects | app/repositories/firestore.py:182-200 | a transaction creates no project, and only the document under its own ID is found as one |
| FirestoreTransactions.AnswerableExactly | app/repositories/firestore.py:248-337 | a request reads after a write exactly when there are buffered writes and its version is not cached |
| FirestoreTransactions.FireRefinesMemory | app/repositories/firestore.py:419-460 | for every client whose moves are portable the whole transaction has the same answers, result and store as in memory |
| FirestoreTransactions.CollisionIsFoundAtCommit | app/repositories/firestore.py:182-200 | an accepted creation dooms the commit exactly when the identifier is in use, whatever the client does afterwards |
| FirestoreExamples.CollisionExample | app/repositories/firestore.py:182-200 | a concrete client that returns normally in memory and whose Firestore transaction fails at commit |
| FirestoreTransactions.SecondSaveExactly | app/repositories/firestore.py:116-124 | of two saves of one record against one version in two transactions, the second is refused if and only if the record is no project or the version is not 0 |
| FirestoreTransactions.ProjectSavesNeverConflict | app/repositories/firestore.py:116-124 | two saves of a project against version 0 are both accepted, where the simple store refuses the second |
| FirestoreTransactions.NestedFailureDiffers | app/repositories/firestore.py:261-266 | after a caught nested failure the two agree exactly when the nested block had changed nothing |
| FirestoreExamples.NestedFailureExample | app/repositories/firestore.py:261-266 | a concrete client whose caught nested failure leaves nothing in memory and a record in Firestore |
| FirestoreRepositories.FirestoreRepository.Current | app/repositories/firestore.py:248-259 | uses the shared version dictionary before reading, and fills it when it reads |
| FirestoreRepositories.FirestoreRepository.Get | app/repositories/firestore.py:152-160 | reads the snapshot, remembers the version, decodes the document |
| FirestoreRepositories.FirestoreRepository.List | app/repositories/firestore.py:168-180 | the same for a partition |
| FirestoreRepositories.FirestoreRepository.VersionOf | app/repositories/firestore.py:248-259 | answers from the dictionary or the snapshot |
| FirestoreRepositories.FirestoreRepository.Create | app/repositories/firestore.py:182-200 | buffers a create and remembers version 0, with the refusals in the original's order |
| FirestoreRepositories.FirestoreRepository.Save | app/repositories/firestore.py:284-311 | buffers the next version and advances the dictionary, or refuses |
| FirestoreRepositories.FirestoreRepository.Delete | app/repositories/firestore.py:313-337 | buffers a deletion and drops the dictionary entry, or refuses |
| FirestoreRepositories.FirestoreRepositoryStore.Perform | app/repositories/firestore.py:419-440 | repositories of several entity types share one buffer and one dictionary |
| FirestoreRepositories.FirestoreDatabase.CommitWrites | app/repositories/firestore.py:457-460 | the buffered writes are applied in order, all of them or none; a creation of an existing document fails the commit |
| FirestoreRepositories.FirestoreDatabase.RunTransaction | app/repositories/firestore.py:442-460 | for every client the repositories over the shared buffer and dictionary run the value-level Firestore transaction, and for a portable client the result and the documents are those of the simple store |
| Machines.MachineOnFirestore | app/repositories/firestore.py:442-460 | a machine whose requests are portable from the start has the same result and documents in a Firestore transaction as on the simple store |
| Audits.AuditedIsMutate | app/services/activity.py:64-81 | reading the claim and the event, running the callback or its replay, and creating the event, one request at a time, is the specified mutation |
| Audits.AuditedOnFirestore | app/services/activity.py:64-81 | a mutation whose callback and replay are portable, and whose event stays free, does on Firestore exactly what it does on the simple store |
| FirestoreRebuild.RebuildOnFirestore | scripts/rebuild_projections.py:133-165 | on every store the rebuild's Firestore transaction is its transaction on the simple store |
| DecisionMachines.MachineResolves | app/services/approvals.py:195-324 | the resolution's reads and writes, one request at a time in the code's order, are the specified resolution |
| DecisionMachines.RecallReplays | app/services/approvals.py:326-340 | the reads of the replay are the specified replay |
| FirestoreDecisions.DecisionOnFirestore | app/services/approvals.py:84-124 | where the identifier of the request's event is free, an attempt to decide has the same result and leaves the same store on Firestore as on the simple store |
| FirestoreDecisions.DecidesOnFirestore | app/services/approvals.py:84-124 | every attempt that decides on the simple store decides on Firestore with the same effect |
| DependencyGraph.Search.Visit | app/domain/policies.py:152-163 | a visit terminates, expands each task at most once, extends a topological order, or has found a real cycle |
| DependencyGraph.OrderedIsAcyclic | app/domain/policies.py:130-166 | a graph with a topological order of all its tasks has no cycle |
| DependencyGraph.ValidateTaskDependencyGraph | app/domain/policies.py:130-166 | each error exactly when its condition is the first to fail: tasks of several projects, two of one ID, a dependency that is no task, a cycle of dependencies; accepts otherwise, with an order of the tasks in which each follows its dependencies |
| RateLimits.InMemoryRateLimiter.Prune | app/api/limits.py:86-88 | pops exactly the expired charges from the front of one deque |
| RateLimits.InMemoryRateLimiter.PrepareAll | app/api/limits.py:82-97 | prunes and tests the dimensions in order, stopping at the first that is full |
| RateLimits.InMemoryRateLimiter.ChargeAll | app/api/limits.py:99-100 | charges the cost to every dimension |
| RateLimits.InMemoryRateLimiter.Check | app/api/limits.py:56-113 | one check leaves the deques and gives the answer of the specification |
| RateLimits.RefusalChargesNothing | app/api/limits.py:89-95 | a refusal charges no dimension: each deque is as before or that with expired charges removed |
| RateLimits.DequeWithinLimit | app/api/limits.py:84-100 | no deque ever holds more than its limit, whatever the clock does |
| RateLimits.DequeRefinesHistory | app/api/limits.py:84-100 | with times that do not decrease, every deque is sorted and, pruned, is exactly the charges of the full history newer than the cutoff |
| RateLimits.AdmittedByHistory | app/api/limits.py:82-97 | a request is admitted exactly when the full history has room for its cost under every key |
| RateLimits.WindowBound | app/api/limits.py:84-102 | every half-open interval of the window's length holds at most the limit of admitted cost, for every key |
| RateLimits.RetryDelay | app/api/limits.py:89-95 | a refused caller whose cost could fit is told the shortest whole delay, at least one second and at most the window, after which the oldest charge of the full dimension has expired |
| RateLimits.RetryIsAdmitted | app/api/limits.py:82-97 | with nothing charged in between, the same request is admitted after the told delay exactly when enough earlier charges have left the window of every one of its keys by then |
| RateLimits.UnitRetry | app/api/limits.py:82-97 | a request of cost 1 is admitted after the told delay exactly when none of its other dimensions is full by then |
| RateLimits.CostlyRetryIsRefused | app/api/limits.py:82-97 | a concrete request that is refused, waits as told, and is refused again |
| RateLimits.AdmissionAnswer | app/api/limits.py:102-114 | an admission reports the room left in the current window and the moment its oldest charge leaves |
| RateLimitOutcomes.KeysAreFields | app/api/limits.py:68-76 | a request counts under a dimension and value exactly when that field holds that value and is not empty |
| RateLimitOutcomes.AdmittedExactly | app/api/limits.py:68-97 | a request is admitted exactly when its cost is positive, it names a user, project or address, and for each that it names there is room by all charges ever made to that value |
| RateLimitOutcomes.ChargesAreSpaced | app/api/limits.py:84-102 | of any limit + 1 consecutive charges to one user, project or address, the last is at least a window after the first |
| RateLimitOutcomes.AnswerKinds | app/api/limits.py:65-81 | a cost that is not positive is an error and a request without user, project and address is unlimited, exactly, and neither counts anywhere |
| RateLimitOutcomes.RefusalNamesFirstFull | app/api/limits.py:82-95 | a refusal names the first full dimension in the order user, project, address, with its limit |
| RateLimitOutcomes.AdmissionSays | app/api/limits.py:102-114 | an admission answers for the first dimension named: its limit, the room left by the charges within the window, and when the oldest of them leaves |
| Projections.SelectionIsSorted | scripts/rebuild_projections.py:186-209 | the slice is exactly the covered activities of the day, by time and ID |
| Projections.SelectionForgetsOrder | scripts/rebuild_projections.py:186-209 | every arrangement of the same activities gives the same slice |
| Projections.SelectionSkipsUncategorised | scripts/rebuild_projections.py:194-203 | an activity of no category can stand anywhere in the input unnoticed |
| Projections.Deduplicated | scripts/rebuild_projections.py:308-308 | the loop form of removing repeats keeps first occurrences |
| Projections.BuildFact | scripts/rebuild_projections.py:299-316 | the fact of one activity, with its source event before its own ID |
| Projections.BuildReport | scripts/rebuild_projections.py:282-332 | the single pass builds the report of the specification, whose fields ReportOutcomes.RebuiltReportSays states |
| Projections.OneFactEach | scripts/rebuild_projections.py:297-318 | with distinct IDs a category lists one fact per activity of it, in slice order |
| Projections.CategoriesPartition | scripts/rebuild_projections.py:297-318 | each activity's fact is in exactly the list of its category and the four lengths add up to the slice |
| Projections.UniqueIsFirstOccurrences | scripts/rebuild_projections.py:329-329 | the update IDs are the duplicate-free list of first occurrences, in order |
| ProjectionRebuild.RebuildDailyReport | scripts/rebuild_projections.py:66-183 | on the in-memory store the rebuild is the value-level rebuild |
| ProjectionRebuild.AppliedRebuild | scripts/rebuild_projections.py:93-165 | an applied rebuild, whatever happened to the store since the report was read, stores the report of the slice at exactly the next version with its status and creation time, appends its event, and changes no other record |
| ReportOutcomes.RebuiltReportSays | scripts/rebuild_projections.py:282-345 | the stored report of an applied rebuild: each of its four lists holds the facts of exactly the day's activities with that list's actions, each once and by time and ID, the updates are listed by first mention, the summary names their number in decimal, and the other fields are empty |
| ReportOutcomes.TooManyAreRefused | scripts/rebuild_projections.py:194-209 | more activities than allowed are refused and nothing is written |
| ReportOutcomes.RebuildIsLogged | scripts/rebuild_projections.py:101-131 | the event of a rebuild: its key by report and operation, its subject, number and operation |
| ReportSources.RebuildCites | scripts/rebuild_projections.py:105-131 | the event of a rebuild cites the last source event of the day's activities, or one named after the operation if there is none, and carries the digest of those activities |
| ReportSources.EvidenceCites | scripts/rebuild_projections.py:78-183 | the evidence of any rebuild carries the digest of the day's activities |
| ReportSources.DigestNamesSlice | scripts/rebuild_projections.py:352-357 | two lists of valid activities have one digest exactly when they have the same IDs, actions and source events in the same order |
| ReportOutcomes.EvidenceSays | scripts/rebuild_projections.py:78-183 | the evidence names the report and the number of activities; it is applied only if asked and changed, and otherwise nothing was written |
| ReportOutcomes.UnlawfulOrders | scripts/rebuild_projections.py:78-84 | an order with a limit outside 1 to 5000, without an operation ID to apply under, or with one that is too long or has a forbidden character is refused and changes nothing |
| ProjectionRebuild.RebuildTwice | scripts/rebuild_projections.py:86-98 | rebuilding from the same slice again reports no change and writes nothing |
| ProjectionRebuild.AppliedExactly | scripts/rebuild_projections.py:78-165 | a rebuild applies if and only if it is asked to, order and slice are acceptable, the report's ID is canonical and the operation's permitted text, something had changed when the report was read, its operation has not recorded an event before, and a report that had been saved has not been deleted since |
| ProjectionRebuild.VanishedConflicts | scripts/rebuild_projections.py:133-142 | a saved report that is deleted between the reading and the transaction makes the rebuild fail with a version conflict and write nothing |
| ProjectionExamples.DeletedReportConflicts | scripts/rebuild_projections.py:133-142 | a concrete report, saved any number of times before, whose rebuild conflicts when it is deleted after having been read |
| ProjectionRebuild.RebuildAfterRebuild | scripts/rebuild_projections.py:86-165 | the same when the rebuild's own event is among the activities, in any arrangement |
| ProjectionRebuild.OperationAppliesOnce | scripts/rebuild_projections.py:101-165 | an operation ID applies to a report at most once, whatever happens to the store in between |
| ProjectionRebuild.ExtrasDropped | scripts/rebuild_projections.py:322-345 | the fields the rebuild does not compute survive exactly when they were empty |
| ProjectionExamples.CrewSummaryIsLost | scripts/rebuild_projections.py:322-345 | a concrete stored report whose crew summary is gone after a rebuild |
| ProjectionExamples.LongProjectHasNoReport | scripts/rebuild_projections.py:348-349 | a project ID of more than 117 characters can never have its report rebuilt |
| ProjectionRebuild.RebuildForgetsOrder | scripts/rebuild_projections.py:86-98 | the order of the activities does not change what a rebuild does |
| EventValues.JsonValidation.Validate | app/domain/events.py:334-375 | accepts exactly the legal JSON values that fit the remaining depth and count, then has counted every node once; each refusal is justified by the value |
| EventValues.JsonValidation.ValidateMembers | app/domain/events.py:354-375 | the loop over a container's members accepts exactly when the whole container fits, and continues the count |
| EventValues.ValidateContainer | app/domain/events.py:314-331 | accepts exactly the legal values within depth 16, the node limit and the byte limit that the encoder knows |
| EventValues.LegalMeans | app/domain/events.py:334-375 | a value is legal exactly when no place in it holds a number that is not finite, a value of another type, or a mapping with a key that is no text |
| EventValues.HeightMeans | app/domain/events.py:334-375 | a value is nested at most n deep exactly when no place is more than n steps down |
| EventValues.FreezePreservesValue | app/domain/events.py:44-49 | freezing changes nothing of what a value says |
| EventValues.FreezeKeepsVerdict | app/domain/events.py:44-49 | a frozen value is legal, and has the same node count and depth, exactly as the original |
| EventValues.FreezeReaches | app/domain/events.py:44-49 | every list and dictionary gets the frozen class, at every depth, exactly when no plain one hides below a tuple or a foreign mapping; what that class still allows is the subject of FrozenValues |
| EventValues.PlainTreesFreezeFully | app/domain/events.py:44-49 | in trees of dictionaries and lists every container gets the frozen class |
| EventValues.TupleHidesList | app/domain/events.py:354-364 | a list inside a tuple passes the validator and keeps its plain class |
| EventValues.FreezeTwice | app/domain/events.py:44-49 | freezing again changes nothing |
| FrozenValues.FrozenKeepsValue | app/domain/events.py:28-49 | no sequence of mutating calls changes what a frozen value says, if and only if every list that freezing reaches is empty and nothing changeable sits below a tuple or a foreign mapping |
| FrozenValues.FrozenOnlyEmpties | app/domain/events.py:28-49 | every sequence of mutating calls leaves a frozen value with nothing but some lists emptied, if and only if no plain list or dictionary sits below a tuple or a foreign mapping |
| FrozenValues.FreezeSettles | app/domain/events.py:44-49 | a frozen value holds no plain container and no member in a list exactly under that condition on the original |
| FrozenValues.UnsettledChanges | app/domain/events.py:28-41 | any value with a plain container or a non-empty frozen list has a single call that changes what it says |
| FrozenValues.FrozenListIsCleared | app/domain/events.py:36-41 | the legal payload of one dictionary with one non-empty list, frozen at every depth, loses its list's member to clear |
| EntityResolver.ResolveForgetsOrder | app/services/conversation_entity_resolution.py:56-149 | the answer does not depend on the order of the records |
| EntityResolver.ResolveFailsExactly | app/services/conversation_entity_resolution.py:56-149 | a resolution fails if and only if the reference has no content or its answer breaks a field limit |
| EntityResolver.LongNameFails | app/domain/conversation.py:423-443 | a record whose name exceeds a candidate's limit cannot be resolved even by its own ID |
| EntityResolver.RankDecision | app/services/conversation_entity_resolution.py:97-114 | the ranking resolves exactly when some record reaches the threshold and beats every other by the margin, finds nothing exactly when all scores are below it, and otherwise names exactly the two or more records within the margin of the best |
| EntityResolver.ResolvedMeans | app/services/conversation_entity_resolution.py:71-120 | a resolution names one record of the project with the grounds of its method, and only a resolution may mutate |
| EntityResolver.FuzzyResolvesExactly | app/services/conversation_entity_resolution.py:97-114 | with no other match the answer is a resolution if and only if the reference fits its field and some record leads the ranking with a name that fits a candidate |
| EntityResolver.AmbiguousMeans | app/services/conversation_entity_resolution.py:83-149 | an ambiguous answer comes from at least two contenders and lists the first of them by name and ID, as many as allowed, each once |
| EntityResolver.NotFoundMeans | app/services/conversation_entity_resolution.py:97-120 | nothing is found exactly when no ID or name matches and every score is below the threshold |
| ResolverOutcomes.ContextThenId | app/services/conversation_entity_resolution.py:71-81 | a contextual ID that names a record is answered with it by context, and otherwise a reference that is an ID with that record, at full score |
| ResolverOutcomes.ExactNames | app/services/conversation_entity_resolution.py:83-87 | without an ID match, one record of the very name is the answer and several are the candidates, at full score |
| ResolverOutcomes.PartialNames | app/services/conversation_entity_resolution.py:89-96 | without an exact name, the same for names that hold or are held by the reference, at score 0.95 |
| ResolverOutcomes.Ranking | app/services/conversation_entity_resolution.py:97-120 | otherwise a record that is best by the margin is the answer with its own score, records close to the best are candidates with the best score, and nothing is found exactly below the threshold |
| ResolverOutcomes.CandidatesInOrder | app/services/conversation_entity_resolution.py:122-149 | candidates stand by display name without regard to case, then ID, and those left out would stand after them |
| Lifecycles.RequestPassedApproval | app/domain/policies.py:77-127 | a request that is submitted, confirmed, delayed or delivered awaited approval and was approved after that |
| Lifecycles.RequestTerminals | app/domain/policies.py:77-127 | rejected, delivered and cancelled requests never move again |
| Lifecycles.ServiceMoveFollowsTable | app/services/approvals.py:254-271 | the approval service's move follows the table exactly for a request awaiting approval or a rejection |
| Lifecycles.ApprovedInAnyRun | app/services/approvals.py:254-271 | with the service's moves included, a request beyond approval was still approved before |
| Lifecycles.DecisionSkipsAwaiting | app/services/approvals.py:254-271 | a run with a decision on a proposal that never awaits approval |
| Lifecycles.ApprovalMovesOnce | app/domain/policies.py:53-75 | after its first move an approval never moves again, and that move left pending |
| Lifecycles.TaskTerminals | app/domain/policies.py:12-51 | a completed task changes only by a human correction and a cancelled one never |
| Lifecycles.TaskWasPlanned | app/domain/policies.py:12-51 | a proposed task was planned before any work on it |
| Lifecycles.CompletionIsAccounted | app/domain/policies.py:12-51 | a task is completed only after work in progress or by a reconciled completion of a planned task |
| Lifecycles.ImportPassedReview | app/domain/project_import.py:50-101 | an import that is confirmed or later passed review and then confirmation, and an imported one then importing |
| Lifecycles.ImportNeverGoesBack | app/domain/project_import.py:50-101 | once confirmed, an import never returns to extraction, validation or review |
| Lifecycles.ImportTerminals | app/domain/project_import.py:94-101 | imported and cancelled end a run, and the table has no move to the same status |
| Lifecycles.RequestMoves | app/domain/policies.py:77-127 | the moves of a material request, listed |
| Lifecycles.TaskMoves | app/domain/policies.py:12-51 | the moves of a task, listed: a reported completion and a human correction add one each |
| Lifecycles.ImportMoves | app/domain/project_import.py:50-101 | the moves of an import, listed |

## Left out

- Hash collisions and truncation: SHA-256 and its truncated forms are injective here; for session IDs only the two inputs compared must not collide.
- `ApprovalService`'s publisher branch: best-effort delivery whose exception is swallowed.
- The outbox payload of a decision is reduced to the approval's ID; of the event built for it the three checks that can fail are modelled: it is not received before it occurred, its notes are absent or have content, and its key has at most 256 characters.
- Other writers of approvals, material requests and attachments: in the run theorems the rest of the system may add pending approvals without decision messages, requests linked to no existing approval, and anything else; records of these kinds that exist are written by the modelled operations only.
- Firestore, Cloud Storage, Pub/Sub and model services: storage answers arbitrarily; a Firestore transaction is a fixed snapshot plus buffered writes applied in order, and the library's automatic retries are not modelled.
- Firestore repositories outside a transaction: each save or delete there is a transaction of one request.
- FirestoreTransactions.FireRefinesMemory: covers clients that read before they write, create unused identifiers, touch no project record and catch no nested failure; outside those cases the two really differ, as the lemmas beside it show.
- `ConversationEntityResolver._records`: which names of a task, issue, material, member or report are searchable is an input, as are case folding, text normalisation and the similarity ratio; scores are integers.
- Concurrency inside a transaction: the store's lock makes each one a single step. The method ProjectionRebuild.RebuildDailyReport reads the report and runs its transaction without anyone else in between; the lemmas about a rebuild allow any store in between.
- FirestoreDecisions.DecisionOnFirestore: says nothing when the identifier of the request's event is in use; then the creation is refused in memory and found at commit on Firestore.
- Recursion limits: the dependency search and the JSON walk recurse as deep as their input, without Python's stack limit.
- Cyclic and shared Python containers: a JSON value is a finite tree, and a call on one container changes no other place of it. Calling a method of `list` or `dict` through the base class, or `__init__` again, is not among the mutating calls; a foreign mapping is not itself changed, and `remove` is given the position of the equal item.
- `json.dumps` beyond which containers it knows: the encoded length is a parameter.
- Typed payload checks of `ProjectEvent` for other event types, the unsafe-text checks of `ActivitySpec` other than those for a decision's texts and a rebuild's operation ID, string stripping and field lengths that no modelled branch reads.
- Case folding and word characters beyond ASCII: which other characters fold to what, and which count as part of a word, is left open where permitted text is checked.
- Loading activities from Firestore and the command line of the rebuild script; the calendar and time-zone arithmetic are parameters.
- Floating-point rounding: times are whole milliseconds.
- RateLimits.InMemoryRateLimiter.constructor: requires positive limits and window, for which the original raises; the time-zone check of a caller-supplied time is left out.
- Read URLs of attachments, the worker, outbox delivery, conversation memory, routers, logging and deployment: no property beyond their calls.
- Material ledger, task and site-update services: their sources are not part of this model.
