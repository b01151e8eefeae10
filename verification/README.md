# Verified model of the AgentLily runtime

A Dafny model of the parts of the runtime whose guarantees span many operations, processes or whole
runs, with proofs of those guarantees. `dafny verify dfyconfig.toml` checks everything.

| part | files |
|---|---|
| file stores | `LockFile` |
| task claims | `ClaimStore`, `ClaimFile`, `ClaimProtocol`, `ClaimSafety`, `ClaimTables`, `ClaimTheorems`, `ClaimHistory`, `ClaimConfirmation`, `ClaimCourses` |
| canonical JSON and the audit ledger | `Texts`, `JsonStrings`, `KeyOrder`, `Json`, `CanonicalJson`, `CanonicalTheorems`, `Digests`, `LineTexts`, `HashChain`, `AuditRecords`, `AuditVerifier`, `AuditLedger` |
| tool approvals | `PayloadText`, `PayloadHeap`, `PayloadSeal`, `ApprovalStore`, `ApprovalFile` |
| Stellar ids and payments | `Bits`, `Crc16`, `StellarAccount`, `StellarAccountId`, `StellarAmount`, `PaymentIntent` |
| memory, events, lifecycle | `MemoryStore`, `EventBus`, `RuntimeLifecycle` |

Common to all: JavaScript strings that are written or compared unit by unit are sequences of 16-bit
code units (`Texts.Text`), unpaired surrogates included. SHA-256 is an arbitrary function from texts
to 64 hexadecimal digits. No result assumes that it is injective, which no such function is; a result
that rests on it ends in "or these two concrete texts collide". Ids, instants, worlds between two
awaits and the answers of authorities are parameters.

## What is proved, and on which hypotheses

**Task claims.** Any number of processes share one claim store; crashes, timeouts, store failures and
tool settlements happen at any step. In every reachable state no two tool invocations of one task id
overlap, and between two invocations the trace holds a reason tied to the earlier claim generation;
`ClaimHistory` proves that such a reason is what the tool, the persistence or the authority really did.
`ClaimCourses` gives, for every outcome of a tool, the steps that follow it and the exact state they
leave: free again, or fenced until reconciled.
The hypotheses are: the reconciliation authority is sound (below); claim ids are fresh; and the timer
callback through the catch check (src/tasks/task-runner.ts:264-270, 362-374) is one step, because
nothing else can run between them. The in-flight guard of the runtime is not needed for this: direct
callers of the runner (`RunDirectly`) and reconciliations that bypass the guard are steps of the
machine too. What the guard promises is proved beside it: a task whose `run()` has timed out stays
reserved until its tool settles or the runtime's shutdown finishes.

A run is the *custodian* of its claim while its tool runs or may still start, or while it may itself
still reach the release by task id (`ClaimProtocol.Custodial`). The sound authority confirms a claim
only if no custodian is left, except a run that has already timed out in the reconciling process
itself: that one the runner's second local check sees (src/tasks/task-runner.ts:164-173).

*A finding.* The interface of the authority (src/tasks/task-outcome-reconciliation.ts:12-24) asks for
proof about the prior execution and its external effect, for example that its worker is terminal. That
is not enough: the run that created the claim releases it by task id, not by generation
(src/tasks/task-runner.ts:319-321). If the authority answers between the tool's settlement and that
release, a newer claim can be deleted and two invocations overlap.
`ClaimConfirmation.ToolOnlyAuthorityIsNotEnough` exhibits the run, and
`ClaimConfirmation.ConfirmationIsSafeExactly` gives the exact condition: in every reachable state,
confirming a claim leads to an overlap in some continuation, even with only sound confirmations from
then on, if and only if the claim has a custodian that the second local check does not see. So no
weaker demand on the authority will do.

A second one: a claim file edited by hand may hold a task id twice. A generation-bound release then
reports success and yet leaves the task fenced, exactly if it had more than one record
(`ClaimStore.MatchingReleaseFreesTask`; `ClaimStore.DuplicateRecordStaysFenced` is such a file).

**File stores.** The claim file and the approval file share one protocol: an in-process queue, a lock
directory, one read, a temporary file, one rename. `LockFile` proves once, for any contents and
operations, that over every interleaving, crash and I/O failure the file is the committed operations
in their order; that an operation whose turn it is gets in, gets its reply and frees the lock; and that
only crashes and failed removals strand it. `ClaimFile` and `ApprovalFile` draw the consequences for the two stores. The atomic
store steps of the claim protocol are what `ClaimFile` provides. The hypotheses are atomic mkdir and
atomic rename.

**Audit ledger.** The verifier's comparison `canonicalAuditJson(JSON.parse(line)) === line` accepts
exactly the texts the printer can produce; two ledgers that verify with one head digest are the same
text, or two of their records collide; every prefix of a good ledger verifies to exactly its complete
records; the verifier accepts exactly the texts a writer can leave; and whatever the writer appends, also with
torn or unsynced writes, verifying the file agrees with the writer.

**Approvals.** The payload encoder stops on every heap, cyclic ones included, accepts exactly unshared
trees of supported values, and gives two payloads one text exactly if they are the same type-tagged
tree. An approved payload is sealed: if a protected call is allowed, one record of the durable store was
spent and the tool sees the payload with that record's digest, whatever other code does to the heap
between awaits. Over all processes, interleavings and crashes of the lock protocol, approved callers
of the durable store name pairwise distinct records, each granted before for exactly the call's task,
agent, tool and payload and not revoked by then; used records stay used on disk, and the file on disk
is always one that the loader accepts. A call is approved exactly if some record grants it.

**Stellar.** The CRC-16 loop and the base-32 loop compute on numbers with bitwise operators; they are
proved equal to a register over GF(2), whose value is the remainder of a polynomial division, and to a
change of base. The accepted account ids are exactly the encodings of the 32-byte keys. No two differ only
in one character or only within two adjacent ones, also across the boundary of payload and checksum.
Amounts are exact: two strings give the same stroops exactly if they denote the same number.

**Memory, events, lifecycle.** See the tables. The event bus is proved under listeners that do
anything, re-entering the bus included. The lifecycle is a machine over every order of the runtime's
uninterrupted stretches, tool settlements and the drain timer, and the class with the runtime's fields
takes exactly its steps. The one stopped event of a run lists exactly the ids whose runs had not left
when the shutdown finished.

## Model

| member | source | states |
|---|---|---|
| ClaimStore.InMemoryTaskClaimStore.Claim | src/tasks/task-claim-store.ts:44-54 | an existing claim is kept and refused, otherwise the new generation is stored: the claim operation on maps |
| ClaimStore.InMemoryTaskClaimStore.Release | src/tasks/task-claim-store.ts:56-58 | removes whatever claim the task id has |
| ClaimStore.InMemoryTaskClaimStore.Has | src/tasks/task-claim-store.ts:60-62 | answers whether the task id is fenced, changing nothing |
| ClaimStore.InMemoryTaskClaimStore.Inspect | src/tasks/task-claim-store.ts:64-67 | finds the generation of a claim; a legacy record has none to find |
| ClaimStore.InMemoryTaskClaimStore.ReleaseIfMatches | src/tasks/task-claim-store.ts:69-76 | removes a claim exactly if it has the given generation |
| ClaimStore.JsonFileTaskClaimStore.Claim | src/tasks/task-claim-store.ts:257-277 | a task id with a record is refused, otherwise a record is appended |
| ClaimStore.JsonFileTaskClaimStore.Release | src/tasks/task-claim-store.ts:279-293 | every record of the task id is filtered out |
| ClaimStore.JsonFileTaskClaimStore.ReleaseIfMatches | src/tasks/task-claim-store.ts:321-342 | the first record of exactly this generation is spliced out |
| ClaimStore.FileOpRefinesMap | src/tasks/task-claim-store.ts:257-342 | on a file without duplicate ids, every operation on the array of records has the reply and the effect of the operation on maps, and rewrites the file exactly if something changes |
| ClaimStore.ClaimIsFound | src/tasks/task-claim-store.ts:44-76 | a claim is found with its generation and instant, refuses a second, and is released by its own generation or by task id, not by another generation |
| ClaimStore.MatchingReleaseFreesTask | src/tasks/task-claim-store.ts:321-342 | after a successful generation-bound release the task is free exactly if the file had one record of it |
| ClaimStore.DuplicateRecordStaysFenced | src/tasks/task-claim-store.ts:321-342 | a concrete file of two records on which the release answers true, rewrites the file and leaves the task fenced |
| LockFile.Refines | src/tasks/task-claim-store.ts:106-185 | over every interleaving, crash and I/O failure, that of reading the file included, the file is the committed operations in order, each reply belongs to one of them, failed operations left no trace, and at most one client is inside the lock |
| LockFile.LogGrows | src/tasks/task-claim-store.ts:147-185 | what has been committed stays committed, in its order |
| LockFile.OperationCompletes | src/tasks/task-claim-store.ts:106-185 | whenever the lock is free, a client whose turn it is has a path to exactly the atomic reply and effect, after which the lock is free |
| LockFile.SubmittedOperationCompletes | src/tasks/task-claim-store.ts:147-185 | the same from submission, on a fresh start and in every later state whose lock is free |
| LockFile.RemovalFreesLock | src/tasks/task-claim-store.ts:162-171 | after a removal that succeeds any other client whose turn it is can enter |
| LockFile.ErrorFails | src/tasks/task-claim-store.ts:147-171 | an error in reading, writing or renaming fails the operation, leaves file and log alone and frees the lock |
| LockFile.GiveUpFails | src/tasks/task-claim-store.ts:129-140 | giving up on the lock fails the operation and changes nothing else |
| LockFile.HolderCanLeave | src/tasks/task-claim-store.ts:147-185 | a holder whose process runs can always leave and free the lock, touching no other client |
| LockFile.CrashIsFinal | src/tasks/task-claim-store.ts:115-145 | no client of a crashed process takes a step |
| ClaimFile.FileStoreIsAtomicMap | src/tasks/task-claim-store.ts:147-185 | seen as a map, the claim file goes through atomic operations one by one with exactly their replies |
| LockFile.CorruptFileStays | src/tasks/task-claim-store.ts:344-388 | a file that does not parse is never overwritten and every operation on it fails |
| LockFile.StrandedLockBlocks | src/tasks/task-claim-store.ts:115-145 | a lock nobody will remove blocks for ever: the file no longer changes |
| LockFile.CrashInsideStrands | src/tasks/task-claim-store.ts:162-171 | a crash between mkdir and rm strands the lock |
| LockFile.FailedRemovalStrands | src/tasks/task-claim-store.ts:162-171 | so does a removal that fails, although the operation itself succeeds |
| ClaimSafety.StepKeepsInv | src/tasks/task-runner.ts:196-384 | every step of every process keeps: a run whose tool may run or that may still release finds its own generation in the store |
| ClaimSafety.CustodyIsExclusive | src/tasks/task-runner.ts:231-240 | two such runs never share a task id |
| ClaimSafety.RecheckKeepsInv | src/tasks/task-runner.ts:164-173 | after the second local check a confirmed claim has no custodian at all, also none that timed out in this process |
| ClaimTables.StepKeepsTables | src/tasks/task-runner.ts:342-353 | every step keeps: an unsettled invocation is in its runner's table, and an accepted task is reserved while its `run()` or its tool is under way |
| ClaimSafety.StepKeepsTrace | src/tasks/task-runner.ts:264-298 | every step keeps the trace accounted for: invocations of one id are separated by a reason |
| ClaimTheorems.InvocationsNeverOverlap | src/tasks/task-runner.ts:196-309 | no reachable state has two running invocations of one task id, given a sound authority |
| ClaimTheorems.RetriesHaveAReason | src/tasks/task-runner.ts:264-298 | between two invocations of an id the trace holds a rejection, a persisted result or a reconciliation of exactly the earlier generation |
| ClaimHistory.TraceTellsWhatHappened | src/tasks/task-runner.ts:256-307 | every event of a whole run has its cause in the steps: a rejection in that run's tool rejection or policy denial, a persisted result in its tool's resolution and the later successful append, a reconciliation in the authority's confirmation |
| ClaimHistory.RetriesFollowTheirCause | src/tasks/task-runner.ts:256-307 | an id is invoked again only after the earlier claim's own run saw its tool rejected, or resolved and then persisted, or after a confirmed reconciliation |
| ClaimHistory.TimeoutAndSettlementComeFirst | src/tasks/task-runner.ts:359-384 | over whole runs a tool settles at most once, and a timeout comes only before that |
| ClaimTheorems.ClaimDroppedOnlyForItsGeneration | src/tasks/task-runner.ts:123-184 | a claim disappears only by its own run's release or by a reconciliation of its own generation, so a stale reconciliation never deletes a newer one |
| ClaimTheorems.LegacyClaimNeverRemoved | src/tasks/task-claim-store.ts:203-212 | a record without a generation stays for ever and its task id is never invoked |
| ClaimTheorems.TimedOutTaskStaysReserved | src/runtime/agent-runtime.ts:353-381 | in every reachable state, while `run()` or its tool is under way the id is reserved (until shutdown finishes), and neither a second task of this id nor a reconciliation is accepted |
| ClaimTheorems.ReservationEndsOnlyAfterTool | src/runtime/agent-runtime.ts:353-381 | over whole runs a reservation goes only with the last step of the shutdown, or by its own run's release after `run()` has ended and the tool has settled |
| ClaimConfirmation.FreshRuntimeInvokes | src/runtime/agent-runtime.ts:249-330 | a fresh runtime can invoke any task id that has no claim, so the protocol does not achieve safety by never running |
| ClaimCourses.FreshTaskCompletes | src/tasks/task-runner.ts:231-309 | a fresh runtime runs an unclaimed task to its persisted end: store, tables and marker are as before, and the trace has the invocation and the persisted result |
| ClaimCourses.ResolvedTaskPersists | src/tasks/task-runner.ts:277-298 | from any state, a tool that resolves and whose result is persisted leaves the task without claim, marker or reservation |
| ClaimCourses.RejectedTaskIsReleased | src/tasks/task-runner.ts:264-272 | so does a tool that is rejected, or denied by the policy, before the deadline |
| ClaimCourses.TimedOutTaskStaysFenced | src/tasks/task-runner.ts:359-384 | after a timeout the claim stays and the task is marked, however the tool settles later |
| ClaimCourses.UnpersistedTaskStaysFenced | src/tasks/task-runner.ts:277-295 | a result that cannot be persisted leaves the claim and the marker |
| ClaimCourses.FailedReleaseStaysFenced | src/tasks/task-runner.ts:319-328 | a release that fails leaves the claim and the marker |
| ClaimCourses.FailedStoreEndsRun | src/tasks/task-runner.ts:231-248 | a store that fails before the claim ends `run()`: nothing was claimed, invoked or marked |
| ClaimCourses.MarkedRejectionKeepsClaim | src/tasks/task-runner.ts:264-270 | a rejection seen while the task is marked unknown does not release the claim |
| ClaimCourses.FencedTaskIsRefused | src/tasks/task-runner.ts:242-252 | a task with a claim is refused without touching the store, and marked |
| ClaimCourses.MarkedTaskIsRefused | src/tasks/task-runner.ts:231-240 | a marked task with a claim is refused after asking the store |
| ClaimCourses.StaleMarkerIsForgotten | src/tasks/task-runner.ts:231-240 | a marker without a claim goes, and the task may claim |
| ClaimCourses.ReconciliationFreesTask | src/tasks/task-runner.ts:89-184 | a confirmed reconciliation leaves no claim and no marker; a refused one changes nothing else |
| ClaimCourses.ReconciliationIsRefused | src/tasks/task-runner.ts:116-173 | a store failure, a missing or legacy claim, or an active local execution ends a reconciliation and changes nothing else |
| ClaimCourses.StaleReconciliationChangesNothing | src/tasks/task-runner.ts:174-181 | a reconciliation too late for its generation changes nothing |
| ClaimCourses.ShutdownOfProcess | src/runtime/agent-runtime.ts:91-197 | once a stop has begun the process accepts no task, and its end clears the reservations, once |
| ClaimCourses.CrashIsFinal | src/tasks/task-runner.ts:242-248 | a crashed process takes no step any more |
| ClaimCourses.CrashThenToolDies | src/tasks/task-runner.ts:242-246 | a crash only takes the process's volatile state out of play; its running tools die later |
| ClaimConfirmation.EarlyConfirmationOverlaps | src/tasks/task-runner.ts:264-328 | a claim about to be released while it has a custodian, of whatever kind, leads to overlapping invocations in some continuation |
| ClaimConfirmation.ConfirmationIsSafeExactly | src/tasks/task-runner.ts:143-184 | in every reachable state a confirmation lets invocations overlap in some continuation if and only if the claim has a custodian that the second local check does not see |
| ClaimConfirmation.ToolOnlyAuthorityIsNotEnough | src/tasks/task-outcome-reconciliation.ts:12-24 | a concrete run in which an authority that waits only for the tool lets two invocations overlap |
| JsonStrings.QuotedIsRead | src/audit/canonical-json.ts:28 | reading a written string literal gives the string back and leaves what follows, for every sequence of code units |
| JsonStrings.EscapesAreStandard | src/audit/canonical-json.ts:28 | the escapes of JSON.stringify one by one |
| Json.ParseUndoesRender | src/audit/runtime-audit-verifier.ts:84 | JSON.parse undoes JSON.stringify for every value, -0 being read back as 0 |
| Json.RenderIsClean | src/audit/canonical-json.ts:28 | written text has no control character and no unpaired surrogate |
| CanonicalJson.CanonicalAuditJson | src/audit/canonical-json.ts:6-151 | the recursive printer prints the canonical form, and fails exactly on values too deep or with too long a string |
| CanonicalJson.LimitsAreExact | src/audit/canonical-json.ts:11-27 | twelve levels below the root and strings of 16384 bytes are accepted, one more is not |
| Texts.Utf8LengthCountsBytes | src/audit/canonical-json.ts:22 | the byte length of a string is the number of bytes of its UTF-8 encoding |
| CanonicalTheorems.ParseUndoesCanon | src/audit/canonical-json.ts:6-151 | parsing a printed text gives the value back, keys sorted and -0 as 0 |
| CanonicalTheorems.PrintingIsFixed | src/audit/runtime-audit-verifier.ts:94-104 | printing what was parsed gives the same text |
| CanonicalTheorems.CheckAcceptsPrintedTexts | src/audit/runtime-audit-verifier.ts:80-104 | the verifier's comparison accepts a line exactly if some value prints to it |
| CanonicalTheorems.PrintedTextIsOneLine | src/audit/runtime-audit-verifier.ts:57-58 | a printed text has no newline and survives UTF-8 unchanged |
| CanonicalTheorems.SameTextIsSameValue | src/audit/canonical-json.ts:110-137 | two values print alike exactly if they are the same value, property order and the sign of zero aside |
| KeyOrder.SortIgnoresOrder | src/audit/canonical-json.ts:117 | sorting by name forgets the order in which properties were defined |
| AuditRecords.CheckedRecord | src/audit/runtime-audit-schema.ts:110-182 | a canonical record that passes is exactly its event, its place in the chain and its digest, and the digest covers the first two |
| AuditRecords.HashedTextIsInjective | src/audit/runtime-audit-schema.ts:162-168 | one digested text belongs to one event, one sequence number and one previous digest |
| AuditVerifier.CheckLine | src/audit/runtime-audit-verifier.ts:63-130 | the checks of one line, in order, are the abstract line check |
| AuditVerifier.VerifyRuntimeAuditLedger | src/audit/runtime-audit-verifier.ts:51-143 | the loop over lines gives the chain walk's verdict, count and head, with early returns and truncated tail |
| AuditVerifier.HeadDeterminesLedger | src/audit/runtime-audit-verifier.ts:54-143 | two texts that verify with one head digest are equal, or two of their records collide |
| AuditVerifier.CheckpointDeterminesPast | src/audit/runtime-audit-verifier.ts:119-130 | a ledger whose n-th head is an earlier ledger's head begins with that ledger, or records collide |
| AuditVerifier.PrefixOfLedger | src/audit/runtime-audit-verifier.ts:54-143 | every prefix of a good ledger verifies to its complete records and their last digest, and is good exactly if it ends at a record boundary |
| AuditLedger.NewLinePasses | src/audit/runtime-audit-ledger.ts:130-147 | every line the writer produces passes the verifier in its place with the writer's digest |
| AuditLedger.OrdinaryEventIsRecorded | src/audit/runtime-audit-schema.ts:21-32 | every event of the nine names, its properties in whatever order and its payload within the limits, is recorded after any head unless its line is too long |
| AuditLedger.VerifiesExactlyWhatIsWritten | src/audit/runtime-audit-verifier.ts:54-143 | the verifier accepts a text exactly if some sequence of events, recorded by the writer, leaves that text |
| AuditLedger.JsonlRuntimeAuditLedger.Open | src/audit/runtime-audit-ledger.ts:63-107 | opening succeeds exactly on ledgers that verify, and starts from their count and head |
| AuditLedger.JsonlRuntimeAuditLedger.Append | src/audit/runtime-audit-ledger.ts:119-167 | a successful append adds exactly the new line; any failure adds nothing, a part or the unsynced line, and closes the ledger for good |
| AuditLedger.VerifierAgreesWithWriter | src/audit/runtime-audit-verifier.ts:54-143 | at any time the verifier's verdict on the file is the writer's view: good with exactly its count and head while healthy, and after a failure at most one record more |
| AuditLedger.JsonlRuntimeAuditLedger.Close | src/audit/runtime-audit-ledger.ts:191-217 | closing never changes the file, and an unsynced close leaves the ledger unhealthy |
| PayloadText.TextDeterminesShape | src/policies/tool-approval-policy.ts:77-192 | one text, one type-tagged tree: 0 and -0, 1 and "1" and 1n, a missing and an undefined property all differ |
| PayloadText.ScalarTextsByExample | src/policies/tool-approval-policy.ts:77-103 | the tagged text of each kind of scalar |
| PayloadText.CompositeTexts | src/policies/tool-approval-policy.ts:111-192 | how the texts of parts make up those of arrays and objects |
| PayloadHeap.AcceptedExactlyUnsharedTrees | src/policies/tool-approval-policy.ts:104-109 | a payload is accepted exactly if it unfolds to a finite tree of supported values that meets no object twice |
| PayloadHeap.SameTextExactlySameShape | src/policies/tool-approval-policy.ts:77-192 | two accepted payloads, in any heaps, have one text exactly if they are the same tree up to key order |
| PayloadHeap.CanonicalizePayload | src/policies/tool-approval-policy.ts:77-192 | the recursion with its growing set of visited objects ends on every heap and gives the tree's text or refuses |
| PayloadSeal.FreezeApprovedPayload | src/policies/hardened-tool-approval-policy.ts:65-92 | freezing an accepted payload succeeds, whatever the order of its properties, and freezes exactly its objects |
| PayloadSeal.SealHolds | src/policies/hardened-tool-approval-policy.ts:101-108 | a frozen payload keeps its digest whatever other code does |
| PayloadSeal.Evaluate | src/policies/hardened-tool-approval-policy.ts:125-220 | a base denial spends nothing; a protected call is allowed exactly if the payload had one digest throughout and a record of the durable store grants exactly this task, agent, tool and payload now; then exactly one such record is consumed and the payload is sealed |
| PayloadSeal.ToolSeesApprovedPayload | src/actions/action-executor.ts:98-119 | the tree the tool sees has the shape of the tree the store digested, or their texts collide |
| ApprovalStore.LoadState | src/policies/json-file-tool-approval-store.ts:119-213 | a state loads exactly if every record is valid and no id appears twice |
| ApprovalStore.JsonFileToolApprovalStore.Approve | src/policies/json-file-tool-approval-store.ts:322-378 | adds one open record with a new id, or refuses and writes nothing |
| ApprovalStore.JsonFileToolApprovalStore.Revoke | src/policies/json-file-tool-approval-store.ts:380-411 | marks an open record revoked, or changes nothing |
| ApprovalStore.JsonFileToolApprovalStore.Consume | src/policies/json-file-tool-approval-store.ts:431-523 | consumes the first usable record for the call, or changes nothing |
| ApprovalStore.ApproveGrantsExactly | src/policies/json-file-tool-approval-store.ts:322-378 | an approval is granted exactly for a complete request with a new id and an expiry still to come, as one open record with the request's values |
| ApprovalStore.RevokeWorksExactly | src/policies/json-file-tool-approval-store.ts:380-411 | a revocation works exactly on an open record of that id, not before its grant, and marks only that record |
| ApprovalStore.ApprovedExactlyIfGranted | src/policies/json-file-tool-approval-store.ts:431-523 | a call is approved exactly if an open, started, unexpired record has its runtime, task, agent, tool and payload; one such record alone is consumed |
| ApprovalStore.TamperedRecordIsRefused | src/policies/json-file-tool-approval-store.ts:119-213 | a valid record changed against any one of its rules no longer loads |
| ApprovalStore.EveryWrittenStateLoads | src/policies/json-file-tool-approval-store.ts:533-585 | every state written in any run is accepted by the loader |
| ApprovalStore.ConsumedAndRevokedAreFinal | src/policies/json-file-tool-approval-store.ts:393-408 | over any run a consumed or revoked record never changes again, and no record is dropped |
| ApprovalStore.ApprovalsAreDistinct | src/policies/json-file-tool-approval-store.ts:478-514 | no two approved calls, of whatever processes, were approved by one record |
| ApprovalStore.ApprovedWereUsed | src/policies/json-file-tool-approval-store.ts:505-513 | the record an approved call names stays consumed |
| ApprovalStore.UsesAreGranted | docs/tool-approvals.md:77 | calls approved for the caller's task, agent, tool and payload are exactly the records consumed for it and never outnumber the approvals granted for it |
| ApprovalStore.ApprovedFollowsGrant | src/policies/json-file-tool-approval-store.ts:478-514 | over any run, a call is approved only under an earlier approval, not revoked before, granted for exactly its task, agent, tool and payload |
| ApprovalStore.GrantCanBeUsed | src/policies/json-file-tool-approval-store.ts:478-514 | a granted approval that was neither revoked nor used approves a call for it in time |
| ApprovalFile.LogIsRun | src/policies/json-file-tool-approval-store.ts:245-278 | the operations committed under the lock are one run of the store, with exactly the replies that callers get |
| ApprovalFile.WritesExactlyChanges | src/policies/json-file-tool-approval-store.ts:322-523 | an operation rewrites the file exactly if it added or changed a record |
| ApprovalFile.FileAlwaysLoads | src/policies/json-file-tool-approval-store.ts:533-585 | whatever crashes, the file on disk is always one that the loader accepts |
| ApprovalFile.UsedStaysUsedOnDisk | src/policies/json-file-tool-approval-store.ts:431-523 | between any two moments no record is dropped from the file and no consumed or revoked one changes |
| ApprovalFile.ApprovedClientsAreDistinct | src/policies/json-file-tool-approval-store.ts:478-514 | over every interleaving of clients and processes with crashes, no two approved clients were approved by one record |
| ApprovalFile.ApprovedClientsAreGranted | docs/tool-approvals.md:77 | the clients whose calls for a task, agent, tool and payload were approved never outnumber the approvals granted for it |
| ApprovalFile.ApprovedClientFollowsGrant | src/policies/json-file-tool-approval-store.ts:478-514 | over every interleaving, a client is approved only if another was granted, earlier, the approval it names for exactly its task, agent, tool and payload, and none had revoked it by then |
| Crc16.CrcLinear | src/actions/payment-prep-action.ts:137-151 | the checksum of a difference is the difference of the checksums |
| Crc16.ZerosKeepZero | src/actions/payment-prep-action.ts:137-151 | zero bits neither create nor erase a difference: the step is invertible |
| Crc16.BurstLeavesTrace | src/actions/payment-prep-action.ts:137-151 | no burst of at most sixteen bits goes unnoticed |
| Crc16.TurnIsShift | src/actions/payment-prep-action.ts:142-147 | one turn of the inner loop on numbers is one shift of the register |
| Crc16.Crc16Xmodem | src/actions/payment-prep-action.ts:137-151 | the nested loops compute the checksum of the bytes' bits |
| Crc16.ChecksumIsRemainder | src/actions/payment-prep-action.ts:137-151 | the checksum is the one remainder of the message times x^16 on division by x^16 + x^12 + x^5 + 1 |
| StellarAccount.DecodeBase32 | src/actions/payment-prep-action.ts:109-135 | decoding succeeds exactly on base-32 strings with zero left-over bits and regroups their bits into bytes |
| StellarAccount.LoopIsBaseChange | src/actions/payment-prep-action.ts:114-127 | after every character the bytes' value times 2^bitCount plus the buffer is the digits' value, and the buffer is below 2^bitCount |
| StellarAccount.DecodeThenEncode | src/actions/payment-prep-action.ts:109-135 | on lengths divisible by eight decoding succeeds and encoding inverts it |
| StellarAccount.EncodeThenDecode | src/actions/payment-prep-action.ts:109-135 | decoding inverts encoding |
| StellarAccount.DigitIsIndexOf | src/actions/payment-prep-action.ts:14-14 | the digit of a character is its place in the alphabet, and no other character has one |
| StellarAccountId.IsValidStellarAccountId | src/actions/payment-prep-action.ts:153-178 | an id is valid exactly if it is the encoding of some 32-byte key |
| StellarAccountId.AcceptedAreIdsOfKeys | src/actions/payment-prep-action.ts:151-178 | pattern, version and checksum tests together accept exactly the base-32 forms of byte 48, a key and the checksum of both with its low byte first; different keys have different ids |
| StellarAccountId.AdjacentErrorsDetected | src/actions/payment-prep-action.ts:153-178 | two accepted ids that agree outside two adjacent places are the same id |
| StellarAccountId.OneCharacterErrorDetected | src/actions/payment-prep-action.ts:153-178 | changing one character of an accepted id makes it unacceptable |
| StellarAccountId.TranspositionDetected | src/actions/payment-prep-action.ts:153-178 | so does swapping two different neighbours |
| StellarAmount.ParseIsExact | src/policies/payment-intent-policy.ts:67-83 | exactly the decimals of one stroop up to 2^63-1 stroops are accepted, with exactly their number |
| StellarAmount.NormalizeIsExact | src/actions/payment-prep-action.ts:84-107 | the tool's parser accepts the same amounts as exactly, and keeps their text |
| StellarAmount.DecimalsAreExactly | src/policies/payment-intent-policy.ts:67-70 | a decimal is one or more digits, perhaps with a point and one to seven more |
| StellarAmount.StroopsCompareAsNumbers | src/actions/payment-prep-action.ts:84-107 | two amounts are equal or ordered exactly as the numbers they denote |
| StellarAmount.LimitIsExact | src/policies/payment-intent-policy.ts:385-393 | what the tool prepared always parses again in the policy, and passes exactly if its number is at most the configured one |
| PaymentIntent.IntentTextIsInjective | src/actions/payment-prep-action.ts:202-227 | one intent text, one intent: task, wallet, recipient, asset, issuer, stroops and memo all agree |
| PaymentIntent.IntentTextIsRead | src/actions/payment-prep-action.ts:215-227 | reading the text gives an array with every field in its place |
| PaymentIntent.StubIdIdentifiesIntent | src/actions/payment-prep-action.ts:228-234 | one stub id serves two intents only if their texts collide, dashes in ids notwithstanding |
| PaymentIntent.AmountIdentity | src/actions/payment-prep-action.ts:211-217 | two spellings of one amount make one intent text and two amounts never do |
| PaymentIntent.AssetIdentityIsInjective | src/policies/payment-intent-policy.ts:100-105 | the policy's asset key separates assets |
| MemoryStore.InMemoryMemoryStore.Append | src/memory/memory-store.ts:160-197 | one append evicts as specified, keeps both capacities, keeps every cached count exact and keeps of every agent a suffix of its history |
| MemoryStore.InMemoryMemoryStore.CountByAgent | src/memory/memory-store.ts:208-210 | the cached count is the true count |
| MemoryStore.InMemoryMemoryStore.Clear | src/memory/memory-store.ts:221-224 | clearing empties entries, counts and history |
| MemoryStore.AppendedKeepsSuffix | src/memory/memory-store.ts:160-197 | an append keeps of every agent a suffix of what it had with the new entry |
| MemoryStore.EvictsOnlyWhenFull | src/memory/memory-store.ts:170-190 | within the limits an append evicts at most one entry and only when it must: the agent's oldest if the agent is full, else the oldest of all |
| MemoryStore.SelectMemoryEntries | src/memory/memory-store.ts:78-107 | the loop with its two counters is filter, drop the offset, take the limit |
| MemoryStore.PagesConcatenate | src/memory/memory-store.ts:78-107 | consecutive pages concatenate, up to the whole list |
| MemoryStore.FileAppend | src/memory/memory-store.ts:433-472 | the splicing and shifting loops compute the trimmed entries |
| MemoryStore.StoresAgreeOverRuns | src/memory/memory-store.ts:160-197 | over any run of appends from contents within the limits both stores keep the same entries |
| MemoryStore.FileAppendRestoresLimits | src/memory/memory-store.ts:445-468 | from a file above its limits an append restores the overall limit and the appending agent's |
| MemoryStore.FileAppendDropsOnlyExcess | src/memory/memory-store.ts:445-468 | and it drops no more than they demand: first the agent's oldest, then the oldest overall |
| EventBus.ListenerTable.On | src/events/runtime-events.ts:174-194 | a listener is added once and never beyond the limit |
| EventBus.ListenerTable.Off | src/events/runtime-events.ts:210-229 | removes the listener itself, or else the first wrapper around it |
| EventBus.AddedIsLast | src/events/runtime-events.ts:174-194 | adding keeps the others in order, puts a new listener last, and fails exactly on a full set |
| EventBus.RemovedIsSpliced | src/events/runtime-events.ts:210-229 | removing takes exactly the listener, or else the first wrapper around it, and keeps all others in order |
| EventBus.RegisteringAddsLast | src/events/runtime-events.ts:174-208 | in a running bus, `on` and `once` change one event's listeners only, and a wrapper was never seen before |
| EventBus.RemovingTakesOne | src/events/runtime-events.ts:210-244 | in a running bus, `off` takes one listener of one event, `clear` takes all |
| EventBus.EmitDispatchesToRegistered | src/events/runtime-events.ts:246-262 | `emit` dispatches to exactly the listeners registered at that moment |
| EventBus.StepKeepsInv | src/events/runtime-events.ts:246-341 | whatever listeners and observers do, every step keeps the bus consistent |
| EventBus.OnceAtMostOnce | src/events/runtime-events.ts:196-208 | a `once` callback runs at most once over a whole run, re-entrant emits included |
| EventBus.DispatchFollowsSnapshot | src/events/runtime-events.ts:246-274 | a dispatch calls only listeners of its snapshot, in order and none twice |
| EventBus.DispatchTakesEveryTurn | src/events/runtime-events.ts:255-262 | a dispatch that is over has called every listener of its snapshot, except those already removed when their turn came |
| EventBus.InternalErrorsNeverNest | src/events/runtime-events.ts:285-313 | bus-originated internal error dispatches never nest, and neither do observer notifications |
| EventBus.FailureIsHandled | src/events/runtime-events.ts:263-272 | a listener that throws or rejects later has its failure handled, and nothing else happens |
| EventBus.ObserverIsTold | src/events/runtime-events.ts:315-341 | the observer is told of a failure unless it is being told of one already, and may fail itself |
| EventBus.ErrorIsPublished | src/events/runtime-events.ts:285-313 | the error event is emitted unless the failure was in one or one is being emitted; then what was below goes on |
| EventBus.FlagsComeDown | src/events/runtime-events.ts:298-311 | once the stack has unwound both flags are down, whatever was thrown |
| EventBus.ListenersWithinLimit | src/events/runtime-events.ts:184-186 | listener counts never exceed the limit |
| RuntimeLifecycle.StepKeepsInv | src/runtime/agent-runtime.ts:91-382 | every step keeps reservations, promises, the runner's table and the published events consistent |
| RuntimeLifecycle.ActiveTaskIsReserved | src/runtime/agent-runtime.ts:353-381 | in every reachable state, while a task's `run()` or its tool is under way, also long after a timeout, its id is reserved by that very run and not accepted again |
| RuntimeLifecycle.ReservationEndsOnlyAfterTool | src/runtime/agent-runtime.ts:353-381 | an id is given back only by the finish of the shutdown or by its own run after `run()` has settled and with its tool not active |
| RuntimeLifecycle.InFlightExactlyHeld | src/runtime/agent-runtime.ts:283-290 | an id is in flight exactly while a run of it has not left, and no two such runs share one id |
| RuntimeLifecycle.ToldExactlyOnce | src/runtime/agent-runtime.ts:293-352 | over whole runs every accepted task is received once, and afterwards completed or failed once if it has settled |
| RuntimeLifecycle.CompletedOnlyAfterTool | src/runtime/agent-runtime.ts:312-334 | a task is reported completed only after its tool has settled |
| RuntimeLifecycle.StartsExactlyOnce | src/runtime/agent-runtime.ts:64-89 | the runtime can be started exactly until it has been |
| RuntimeLifecycle.TaskCompletes | src/runtime/agent-runtime.ts:249-382 | from every reachable started state a task whose id is free runs to its end: received, reported as it settled, its id free again |
| RuntimeLifecycle.TimedOutTaskIsGivenBackLate | src/runtime/agent-runtime.ts:353-381 | a task that times out is reported failed at once and comes free once its tool has settled |
| RuntimeLifecycle.StopsOnce | src/runtime/agent-runtime.ts:91-197 | one started and at most one stopped event, after which nothing is in flight and nothing is accepted |
| RuntimeLifecycle.StopBeginsExactly | src/runtime/agent-runtime.ts:91-110 | a stop begins exactly while started, with no timeout or one between 0 and 2^31 - 1 |
| RuntimeLifecycle.StopReports | src/runtime/agent-runtime.ts:130-189 | a stop without a drain reports nothing, one with no time to drain reports exactly the held ids, any other waits |
| RuntimeLifecycle.DrainReportsStranded | src/runtime/agent-runtime.ts:137-189 | the end of a drain publishes one stopped event with exactly the ids whose runs have not left, each once |
| RuntimeLifecycle.StoppedEventIsExact | src/runtime/agent-runtime.ts:130-189 | over whole runs, the one stopped event lists exactly the ids held at the step that finished the shutdown, or none without a drain |
| RuntimeLifecycle.DrainEndsExactlyWhenGivenBack | src/runtime/agent-runtime.ts:397-415 | a drain ends of itself exactly when every task has given its id back, so only the timer strands tasks |
| RuntimeLifecycle.DrainCanSucceed | src/runtime/agent-runtime.ts:130-189 | no reservation leaks: from every draining state some continuation ends the drain with nothing stranded |
| RuntimeLifecycle.AgentRuntime.Start | src/runtime/agent-runtime.ts:64-89 | starting works once and announces itself |
| RuntimeLifecycle.AgentRuntime.Accept | src/runtime/agent-runtime.ts:249-304 | a task is accepted exactly while started with its id free, and is reserved before it is announced |
| RuntimeLifecycle.AgentRuntime.CallTool | src/tasks/task-runner.ts:330-353 | the tool's promise is entered into the runner's table |
| RuntimeLifecycle.AgentRuntime.ForgetTool | src/tasks/task-runner.ts:349-353 | a settled tool's entry goes, unless it is no longer its own |
| RuntimeLifecycle.AgentRuntime.Settle | src/runtime/agent-runtime.ts:312-352 | the step by which a run's outcome is published |
| RuntimeLifecycle.AgentRuntime.Leave | src/runtime/agent-runtime.ts:353-381 | the finally block is the leaving step: at once without an active execution in the runner's table, else waiting for the one found there |
| RuntimeLifecycle.AgentRuntime.LeaveLate | src/runtime/agent-runtime.ts:376-380 | the callback on that execution is the late release |
| RuntimeLifecycle.AgentRuntime.ReleaseTask | src/runtime/agent-runtime.ts:354-369 | an id is given back and its promise resolved only if the reservation is still this run's own |
| RuntimeLifecycle.AgentRuntime.Stop | src/runtime/agent-runtime.ts:91-128 | stopping begins once, refuses a bad timeout without effect, waits for the promises there are or finishes at once |
| RuntimeLifecycle.AgentRuntime.DrainEnds | src/runtime/agent-runtime.ts:137-177 | the stranded ids are exactly those still reserved; nothing is in flight afterwards |
| RuntimeLifecycle.AgentRuntime.MayReconcile | src/runtime/agent-runtime.ts:204-217 | a reconciliation passes both guards exactly if the runtime is started and every run of the id has left, and then none of its tools is active |

## Left out

- JSON numbers with a fraction or an exponent: the reader refuses them and the printers have integers and -0 only; the rendering of doubles is not modelled. Integers are not rounded to 53 bits.
- Numeric amounts (`normalizeNumericAmount`), which are floating point; string amounts are modelled in full.
- Cycles in audit values: values are trees there, so the printer's guard against cycles has nothing left to refuse. Approval payloads are graphs and their cycles are modelled.
- Proxies, accessors, prototypes, symbols and holes: in approval payloads such objects are exotic nodes and refused; in audit values they do not occur.
- `TaskRunner` and the claim operations of `AgentRuntime` are a step machine on values, not a class: their guarantee is about interleavings of many processes at every await. The machine's per-process tables are updated as the source's fields are.
- `RuntimeEventBus` dispatch is a machine over an explicit stack, because listeners re-enter it; the listener table itself is a class.
- The records of the memory file are a value that a method returns, not an array changed in place; the file is replaced by one rename in any case.
- Real file systems: only atomic mkdir, atomic rename, whole-file reads, torn appends and crashes are modelled. src/policies/hardened-json-file-tool-approval-store.ts is not part of this model.
- The shape check of records read from claim and memory files: a file is corrupt or holds well-formed records.
- `InMemoryToolApprovalStore`, a simpler form of the durable store.
- The other rules of the payment policy (recipient and asset lists, memo), each one lookup.
- SHA-256, UUID generation, clocks, date formatting, error texts, logging, `AgentInstanceManager`, `ToolRegistry`, the allowlist policies and the providers.
- PayloadSeal.Evaluate: an approval store that returns no record, which the interface allows, is not modelled; the shipped stores return one.
- AuditLedger.JsonlRuntimeAuditLedger.Append: requires a record count below 2^53-1, above which JavaScript could no longer count records.
- RuntimeLifecycle: direct callers of the runner are not steps there, so every tool is a task's; they are in `ClaimTables`. The optional clearing of listeners and the tool-call budgets are left out.
