# Agent protocols and settings, verified

This project models the hard parts of the host agent (signed-job gate, heartbeat
delivery, event queue, desired-state policy store and several smaller algorithms)
and of the backend's typed settings, and proves what they promise over every
input, every run and every crash.

| file | what it models |
|---|---|
| `Delivery.dfy` | the heartbeat loop and the job goroutines as interleaved atomic steps |
| `Backoff.dfy` | the retry delay computed with wrapping 64-bit shifts |
| `EventQueue.dfy`, `EventRuns.dfy` | the bounded priority queue as a value, and whole runs of it with history |
| `EventQueueImpl.dfy` | the queue and the flusher on an array, each method proved to do what the value does |
| `Capabilities.dfy` | the capability registry and the substring scan over serialised workflow steps |
| `StepScan.dfy` | what that scan finds, in terms of the steps before they were serialised |
| `BrokerRouting.dfy` | the shell line of a workflow job that goes to the broker, against what the gate demands for it |
| `Replay.dfy` | the table of consumed nonces, pruned on every insert |
| `JobGate.dfy` | the cascade of checks on a job, as a verdict function and as the methods that run it |
| `GateReasons.dfy` | each reason of the gate with its exact condition, and what it leaves in the replay memory |
| `ReplayWindow.dfy` | whole runs of the gate under a clock that never goes back |
| `PolicyDisk.dfy` | the two policy files on a disk where each operation may fail or lose power |
| `PolicyManager.dfy` | verify, apply, health check, commit |
| `PolicyHistory.dfy` | any number of successive processes over one store |
| `PackageOwner.dfy` | attributing a CVE to the longest known package name |
| `LogRing.dfy` | the log ring buffer |
| `StepExecutors.dfy` | the two sequential executors |
| `BrokerGuard.dfy` | the concurrency counter of the privileged broker |
| `Settings.dfy` | the typed settings round trip |

`dafny verify dfyconfig.toml` checks everything.

How the parts connect: a class or method works step by step as the original does
and its `ensures` ties it to a specification function; the main results are lemmas
about that function. `BoundedQueue` and `Flusher` refine `EventQueue`,
`ValidateAndAuthorize` refines `Judge`, and `RunHistory` shows that every run of
the policy classes on a failing disk is a history in the sense of
`PolicyHistory.IsHistory`.

## What the code does not do

Findings of the proofs; where a comment in the repository says otherwise, the
code is what is modelled.

- The replay memory covers envelopes of a lifetime up to 25 h - 30 s and no
  longer (`ReplayableExactlyWhen`): a longer one can pass twice, because the
  refused second presentation prunes the nonce it was refused for. `replay.go:18-21`
  says 25 h leave room for 24 h plus the skew, which the proof confirms.
- The gate consumes the nonce of an approval claim before it checks the claim's
  signature (`VerifyApprovalClaim`), and a claim has no lower bound on its issue
  time. The memory keeps its nonce for 25 h and no longer: carried by a second
  signed envelope, a claim that is still in date is honoured again exactly when
  more than 25 h have passed (`ClaimHonouredTwiceExactlyWhen`).
- `capabilities.go:96-98` says that unknown step types demand EXEC_BASH. They do
  so exactly when some step mentions `command` in a key or text, or none mentions
  another known type (`UnknownTypeDemandsBashExactlyWhen`, for all lists). So they
  do not, for instance, beside a package step (`HiddenByPackageExactlyWhen`), or
  when they are a known type but for its case, such as `Service`
  (`MiscasedTypeDemandsAnother`). The executor refuses unknown types anyway
  (`UnknownStepFailsJob`).
- With the broker configured, the shell line of a workflow job is that of its first
  step, and then EXEC_BASH is always demanded; or, when there is no first step that
  is an object, that of the job itself, and then it is demanded except when the
  steps mention another step type and not `command` (`ShellWithoutBashExactlyWhen`,
  `ShellBesidePackage`).
- The policy verifier compares with the version read at the start of the process
  only. Inside one process the stored version goes down exactly when an offer
  above the start version and below the stored one replaces the metadata
  (`VersionDropsExactlyWhen`, `OfferCanLowerExactlyWhen`). A start that cannot
  read the files takes version 0, so that downgrades pass
  (`DowngradeRefusedExactlyWhenRead`). Start versions never decrease exactly when
  no such start comes after one from a positive version
  (`StartsNeverDecreaseExactlyWhen`).
- A failed health check leaves the store alone but not the narrowed collector
  registry (`DesiredPolicyManager.Apply`).
- The queue does not compare an incoming record with the one it evicts, so a LOW
  push can evict a HIGH record; the exact rule is `PushIsRejectedExactlyWhen`.
- The heartbeat backoff is monotone exactly for intervals up to five minutes
  (`BackoffNeverShortens`). It is the exact capped exponential for these and for
  the longer ones of which no doubling below the 30th wraps to a short delay
  (`BackoffIsExactExactlyWhen`), which some do (`LongIntervalCanWrap`).
- The broker can refuse a call while fewer than two execute
  (`RefusedExactlyWhen`, `CanRefuseBelowLimit`).

## Model

| member | source | states |
|---|---|---|
| `Delivery.StartsExactlyWhenSlotIsFree` | agent/internal/agent/manager.go:144-159 | a waiting job can start exactly when fewer goroutines hold a slot than are configured, or than two if the configured number is not positive |
| `Delivery.NoSpuriousWakeUp` | agent/internal/agent/manager.go:333-346 | in every run there are at most as many early wake-ups as nudges, and apart from the first heartbeat no more heartbeats than timer and nudge wake-ups, so a failed send waits |
| `Delivery.TokenQueuedExactlyWhen` | agent/internal/agent/manager.go:714-717 | a wake-up token is queued exactly when no early wake-up has come since the last nudge |
| `Delivery.StoppedIsFinal` | agent/internal/agent/manager.go:334-338 | a stopped loop delivers, removes and starts nothing any more |
| `Delivery.ResultsAreConserved` | agent/internal/agent/manager.go:414-416 | in every interleaving of gate rejections, finishing jobs, failed and successful sends: all results so far are those removed followed by those pending, in order, and a result is removed only after a successful send |
| `Delivery.SendDeliversSnapshot` | agent/internal/agent/manager.go:469-489 | a successful send delivers exactly the results that existed at its snapshot, whatever was appended since |
| `Delivery.WakeUpIsNeverLost` | agent/internal/agent/manager.go:333-346 | a result no heartbeat has snapshotted has a nudge queued, or its producer has still to nudge, or the loop is on its way to the next snapshot |
| `Delivery.StepLosesNoWakeUp` | agent/internal/agent/manager.go:658-664 | every single step keeps the wake-up invariant |
| `Delivery.LoopConserves` | agent/internal/agent/manager.go:485-489 | every step of the loop keeps the conservation invariant, the prefix drop included |
| `Delivery.JobsAreExclusive` | agent/internal/agent/manager.go:674-690 | no two live goroutines hold one job id, the in-flight set is exactly the ids held (or about to be), and no more goroutines hold slots than are configured |
| `Delivery.WorkerKeepsOwners` | agent/internal/agent/manager.go:686-690 | a goroutine's step, its final delete included, keeps each live id with its one goroutine |
| `Delivery.WorkerKeepsSlots` | agent/internal/agent/manager.go:692-695 | acquiring and freeing keeps the slot count equal to the goroutines that hold one |
| `Delivery.EndedJobReportedOnce` | agent/internal/agent/manager.go:685-718 | a goroutine whose id left the in-flight set appended exactly one result for its job, or none if the context ended before it got a slot |
| `Delivery.ReportedAsEnded` | agent/internal/agent/manager.go:697-712 | for every job that ends in a run there is exactly one result of its goroutine, with its job id and the exit code it ended with, and in a finished state it is delivered |
| `Delivery.NoJobVanishes` | agent/internal/agent/manager.go:631-681 | every job of every response is still to be looked at or has exactly one outcome of its own: a rejection with its own result, its own goroutine, or a skip because of a goroutine started for an earlier job of that id; every goroutine and gate result belongs to one received job |
| `Delivery.SkippedExactlyWhenHeld` | agent/internal/agent/manager.go:674-681 | a job is skipped exactly when it is admitted and a live goroutine holds its id |
| `Delivery.DropIsAlwaysPossible` | agent/internal/agent/manager.go:485-489 | the prefix drop after a send never runs past the queue |
| `Delivery.WorkersNeverDeadlock` | agent/internal/agent/manager.go:102-105 | a job over the limit waits but is never stuck: while a goroutine lives, some goroutine can step |
| `Delivery.WorkersFinish` | agent/internal/agent/manager.go:685-718 | the steps the goroutines can take on their own are bounded |
| `Delivery.QuietMeansReported` | agent/internal/agent/manager.go:685-718 | when no goroutine can step, no id is left in flight and, without cancellation, every dispatched job has reported |
| `Delivery.DeliveryCanFinish` | agent/internal/agent/manager.go:333-346 | from every reachable state whose loop has not stopped, a bounded number of loop steps with successful sends delivers everything produced |
| `Delivery.EverythingCanFinish` | agent/internal/agent/manager.go:102-105 | every such state can go on to one in which every goroutine has ended, every result is delivered and no received job waits |
| `Delivery.FinishedMeansReported` | agent/internal/agent/manager.go:645-718 | there, without cancellation, every received job that was not skipped has exactly one result, and it is delivered; its exit code is that of `ReportedAsEnded` |
| `Backoff.BackoffIsExactExactlyWhen` | agent/internal/agent/manager.go:351-360 | for every positive interval: the wrapping shift gives the exact capped exponential for all failure counts exactly when the interval is at most five minutes or none of its first 30 doublings wraps to a short delay |
| `Backoff.BackoffDoubles` | agent/internal/agent/manager.go:349-360 | for intervals up to five minutes: the interval for up to three failures, then each failure doubles the delay up to five minutes |
| `Backoff.ShiftIsDoubling` | agent/internal/agent/manager.go:355 | the 64-bit shift by k is k doublings of a wrapping register, also beyond its width |
| `Backoff.BackoffNeverShortens` | agent/internal/agent/manager.go:349-360 | the delay is non-decreasing in the failure count exactly when the interval is at most the five-minute cap |
| `Backoff.BackoffIsBounded` | agent/internal/agent/manager.go:130-131 | the delay stays between the interval and five minutes |
| `Backoff.LateWrapExceedsCap` | agent/internal/agent/manager.go:355-358 | after 30 doublings a wrapped delay of any interval is caught by the test, since it is a multiple of 2^39 ns |
| `Backoff.EarlyWrapExceedsCap` | agent/internal/agent/manager.go:355-358 | so is every earlier overflow of an interval up to 300 s |
| `Backoff.LongIntervalCanWrap` | agent/internal/agent/manager.go:355-358 | an interval that does wrap short: 47279 s waits 94.5 s after 27 failures |
| `EventQueue.VictimIsWorst` | agent/internal/eq/queue.go:80-88 | the scan finds the lowest-priority, then oldest non-critical item, and none exactly when all are critical |
| `EventQueue.PushIsRejectedExactlyWhen` | agent/internal/eq/queue.go:66-94 | a push is turned away exactly when the queue is full of critical items, and then only the dropped count changes |
| `EventQueue.PushAppendsWhenRoom` | agent/internal/eq/queue.go:79-98 | with room left the record is appended and nothing is evicted |
| `EventQueue.PushEvictsExactlyWhenFull` | agent/internal/eq/queue.go:79-98 | a push evicts exactly when the queue is full and holds a non-critical item; it is the one of the lowest priority, oldest first, and the others keep their order |
| `EventRuns.EvictsOnlyWhenFull` | agent/internal/eq/queue.go:79-94 | over any run every eviction happens at full capacity and takes the worst item |
| `EventRuns.FlushSendsLongest` | agent/internal/eq/batch.go:79-100 | what a flush sends is the longest prefix of what it drained that fits, or the first record alone; the rest is trimmed |
| `EventQueue.PushKeepsForm` | agent/internal/eq/queue.go:79-98 | a push keeps insertion order, numbering and capacity |
| `EventQueue.SortedSorts` | agent/internal/eq/queue.go:120-131 | the leaving order is strictly sorted by (priority, number) and has the same elements |
| `EventQueue.SortedIsUnique` | agent/internal/eq/queue.go:125-131 | the comparison leaves the library sort no choice: sorted sequences of the same items are equal |
| `EventQueue.DrainTakesTheFirst` | agent/internal/eq/queue.go:110-154 | a drain takes as many as it may, or all; what it takes is in order of priority and age and precedes everything kept, nothing is lost, and the rest keeps its order |
| `EventQueue.SortedAfterDrain` | agent/internal/eq/queue.go:145-151 | what is left after a drain leaves in the order it would have left |
| `EventQueue.DrainsCompose` | agent/internal/eq/queue.go:110-154 | draining a then b returns and leaves what draining a + b does |
| `EventRuns.KeptIsLongest` | agent/internal/eq/batch.go:87-97 | for any size function the batch sent is non-empty and the longest prefix that fits, or the first record alone |
| `EventRuns.DrainSplits` | agent/internal/eq/queue.go:133-151 | a drain splits the queue into taken and kept, as multisets |
| `EventRuns.EveryRecordIsAccountedFor` | agent/internal/eq/queue.go:75-154 | over any run each accepted record is in exactly one of handed out, sent, trimmed, evicted, queued; none is sent twice; rejected pushes equal the dropped count; the length stays within capacity |
| `EventRuns.EvictionKeepsTiers` | agent/internal/eq/queue.go:80-93 | the evicted item is the oldest of its tier, so it leaves in turn |
| `EventRuns.TiersLeaveInPushOrder` | agent/internal/eq/queue.go:66-154 | over any run each priority tier leaves in push order, across all drains and flushes and also across these and the evictions together; no accepted critical record is evicted |
| `EventQueueImpl.SortOrder` | agent/internal/eq/queue.go:120-131 | the indices of all items in the order they leave |
| `EventQueueImpl.SortOrderIsSorted` | agent/internal/eq/queue.go:120-142 | sorting indices gives the leaving order of the items |
| `EventQueueImpl.BoundedQueue.constructor` | agent/internal/eq/queue.go:59-64 | an empty queue of the given or the default capacity |
| `EventQueueImpl.BoundedQueue.FindVictim` | agent/internal/eq/queue.go:80-88 | the scan in place finds the item the value model evicts |
| `EventQueueImpl.BoundedQueue.CloseGap` | agent/internal/eq/queue.go:93 | the splice removes one item and keeps the order of the others |
| `EventQueueImpl.BoundedQueue.Push` | agent/internal/eq/queue.go:75-99 | the push on the array is the push on the value, with its eviction rule and accepted flag |
| `EventQueueImpl.BoundedQueue.Compact` | agent/internal/eq/queue.go:145-151 | the in-place compaction keeps exactly the untaken items in insertion order |
| `EventQueueImpl.BoundedQueue.Drain` | agent/internal/eq/queue.go:112-154 | the drain on the array is the drain on the value, records in leaving order |
| `EventQueueImpl.Flusher.constructor` | agent/internal/eq/batch.go:41-52 | non-positive limits are replaced by the defaults |
| `EventQueueImpl.Flusher.FlushIfDue` | agent/internal/eq/batch.go:79-100 | the trim loop ends and sends the kept prefix of what one drain returned, or nothing when the queue is empty |
| `Capabilities.RegistryIsConsistent` | agent/internal/security/capabilities.go:45-59 | all job types of one capability agree on its risk |
| `Capabilities.StepsNeedWhatJobsNeed` | agent/internal/modules/workflow_steps_executor.go:36-59 | a workflow step needs the capability of the job type that runs the same executor |
| `Capabilities.RiskFor` | agent/internal/security/capabilities.go:67-75 | every order in which the map is walked gives the same risk, and none exactly for unknown names |
| `Capabilities.WorkflowStepCapabilities` | agent/internal/security/capabilities.go:99-125 | the six searches with their marks list each demanded capability once |
| `Capabilities.DemandIsVisible` | agent/internal/security/capabilities.go:99-119 | different step types demand different capabilities |
| `Capabilities.SomethingIsDemanded` | agent/internal/security/capabilities.go:80-85 | the scan of a text never comes back empty, so the static entry is used only without steps |
| `StepScan.MarshalHits` | agent/internal/agent/manager.go:648-653 | for any escaping, a quoted word occurs in the serialised form of a JSON value exactly when one of its keys, texts or numbers contains it |
| `StepScan.ScanFindsMentions` | agent/internal/security/capabilities.go:93-119 | the scan finds a step type in the serialised form of any JSON value exactly when the value mentions it |
| `StepScan.WordMentionsItself` | agent/internal/security/capabilities.go:102-117 | a lower-case text, escaped, quoted and lower-cased again, matches its own word and no other |
| `StepScan.TypeIsMentioned` | agent/internal/agent/manager.go:648-653 | the type of every step is mentioned, wherever it stands and whatever else the list holds |
| `StepScan.ScanCoversDispatch` | agent/internal/security/capabilities.go:77-125 | the scan demands the capability of every step type the executor can dispatch, for every list of steps |
| `StepScan.DemandedExactlyWhenMentioned` | agent/internal/security/capabilities.go:93-119 | for every JSON value it demands exactly the capabilities of the step types the value mentions, and EXEC_BASH also when it mentions none of the other five |
| `StepScan.ScanIsExact` | agent/internal/security/capabilities.go:93-119 | for steps that mention no step type but their own, that is exactly the capabilities of the types that occur, and EXEC_BASH also when none of the other five does |
| `StepScan.RunnableCommandOwnsItsWords` | agent/internal/modules/workflow_steps_executor.go:38-43 | command steps with their `command` parameter are among these, if the shell line mentions no other type |
| `StepScan.UnknownTypeDemandsBashExactlyWhen` | agent/internal/security/capabilities.go:96-119 | where an unknown type occurs, in any list, EXEC_BASH is demanded exactly when some step mentions `command` or none mentions another known type; for steps that own their words, when a command step occurs or no other known type does |
| `StepScan.HiddenByPackageExactlyWhen` | agent/internal/security/capabilities.go:96-119 | beside a package step, a step of any type in any spelling demands EXEC_BASH exactly when the type mentions `command` |
| `StepScan.UnknownTypeCanGoUnnoticed` | agent/internal/security/capabilities.go:96-98 | so a package step and a step of any unknown lower-case type, serialised in any way, do not demand EXEC_BASH |
| `StepScan.MiscasedTypeDemandsAnother` | agent/internal/security/capabilities.go:105-117 | a type that is a known one but for its case, alone in the list, demands the capability of the known one and not EXEC_BASH |
| `StepScan.ServiceWithCapital` | agent/internal/security/capabilities.go:105-107 | the unknown type `Service` alone demands SERVICE_CONTROL and not EXEC_BASH |
| `Replay.ReplayStore.MarkJobSeen` | agent/internal/storage/sqlite.go:93-106 | insert-or-ignore: the row count tells a new nonce from a known one, and a failed read of it leaves the row inserted |
| `Replay.MarkedRows` | agent/internal/security/replay.go:28-37 | row by row, what a marking leaves: nothing new if the insert fails, and after the prune the rows of the last 25 hours |
| `Replay.ReplayStore.PruneSeenJobs` | agent/internal/storage/sqlite.go:112-116 | exactly the entries older than the cutoff go |
| `Replay.ReplayStore.MarkSeen` | agent/internal/security/replay.go:28-37 | marks, then prunes by 25 h unless the insert failed; a failed prune is ignored |
| `JobGate.CopyOuter` | agent/internal/agent/job_validation.go:91-96 | the keys are all but `_envelope` and `_approval_claim`, the values those of the job, in any order of the walk |
| `JobGate.BindingIsDecided` | agent/internal/agent/job_validation.go:90-112 | the payload binding holds exactly when, for the parameters without those two keys, the canonical payload is their canonical form, or the empty object if there are none |
| `JobGate.CoversDecides` | agent/internal/agent/job_validation.go:128-131 | the capability check holds exactly when the request names the capability of the job type, or, for a workflow, those its steps mention |
| `JobGate.HighRiskExactly` | agent/internal/security/policy.go:106-111 | seven capabilities, by name, need a rule of the local policy |
| `JobGate.ObservedExactlyWhen` | agent/internal/agent/job_validation.go:63-85 | without enforcement only an envelope that is there and cannot be read is rejected, and no nonce is consumed |
| `JobGate.MissingCapabilities` | agent/internal/agent/job_validation.go:188-200 | exactly the required capabilities the request lacks |
| `JobGate.VerifyDecides` | agent/internal/security/envelope.go:177-213 | verification succeeds exactly for a known, unretired key, a valid signature, this agent and a clock inside the window with its 30 s skew |
| `JobGate.EvaluateDecidesPolicy` | agent/internal/security/policy.go:102-130 | no refusal exactly when every HIGH or CRITICAL capability has an enabled rule no older than 24 h, and an approval where one is required |
| `JobGate.EvaluateAuthorizations` | agent/internal/security/policy.go:106-130 | the loop returns the first refusal in request order |
| `JobGate.VerifyApprovalClaim` | agent/internal/security/approval_claim.go:69-119 | the claim is accepted exactly when it binds job, payload, agent and capabilities, is fresh and signed; a claim that binds has its nonce consumed even if its signature then fails |
| `JobGate.AfterNonceDecides` | agent/internal/agent/job_validation.go:128-180 | after the nonce: accepted exactly when capabilities are covered, the claim holds and the policy allows |
| `JobGate.AdmittedExactlyWhen` | agent/internal/agent/job_validation.go:52-186 | under enforcement a job is admitted exactly when every check holds, each stated from the raw fields, among them that the canonical parameters that run equal the signed payload |
| `GateReasons.StructuralReasons` | agent/internal/agent/job_validation.go:65-117 | unsigned, malformed envelope, malformed parameters, payload mismatch, unknown type: each exactly when it is the first of these to fail |
| `GateReasons.SignatureReasons` | agent/internal/security/envelope.go:177-213 | unknown signer, expired, not yet valid, wrong agent, malformed, bad signature: each exactly when it is the first of these to fail |
| `GateReasons.RefusalReasons` | agent/internal/security/policy.go:106-130 | missing policy, stale policy, disabled capability, approval required: each with its exact condition for one capability |
| `GateReasons.FirstRefusalIsReported` | agent/internal/security/policy.go:107-130 | the reason for a request is that of the first capability refused |
| `GateReasons.GrantReasons` | agent/internal/agent/job_validation.go:128-162 | capability gap, malformed and invalid approval, each exactly when; a claim's nonce is consumed exactly when the claim is for this job |
| `GateReasons.StagesInOrder` | agent/internal/agent/job_validation.go:115-127 | the stages in their order; nothing is consumed before the signature stage is passed, and from then on the envelope's nonce is |
| `JobGate.AdmittedWorkflowIsCovered` | agent/internal/agent/manager.go:648-656 | the signed request of an admitted workflow names the capability of every dispatchable step in the `steps` parameter that will run |
| `JobGate.CheckGrants` | agent/internal/agent/job_validation.go:128-180 | the second half of the cascade gives the specified verdict and replay table |
| `JobGate.ValidateAndAuthorize` | agent/internal/agent/job_validation.go:52-186 | the whole cascade, with its early returns and consumed nonces, gives the verdict and replay table that the lemmas on admission, reasons and stages are about, enforced or not |
| `ReplayWindow.AdmittedPasses` | agent/internal/agent/job_validation.go:118-127 | an admitted job has passed the signature and nonce stage |
| `ReplayWindow.CallRetains` | agent/internal/security/replay.go:28-37 | any other call keeps a consumed nonce remembered until its retention is over |
| `ReplayWindow.RunRetains` | agent/internal/security/replay.go:10-21 | so does any run of calls under a non-decreasing clock |
| `ReplayWindow.PassingIsRemembered` | agent/internal/storage/sqlite.go:93-106 | when a passing call ends its nonce is remembered with its insertion time, or the retention is over already |
| `ReplayWindow.PassesAtMostOnce` | agent/internal/security/replay.go:18-21 | in every run an envelope of a lifetime of at most 25 h - 30 s passes the signature and nonce stage at most once |
| `ReplayWindow.LateReplayPassesTwice` | agent/internal/storage/sqlite.go:108-116 | with one second more, a run that lets it pass twice |
| `ReplayWindow.ReplayableExactlyWhen` | agent/internal/security/envelope.go:192-197 | an envelope that is valid at some time can pass twice in some run exactly when its lifetime exceeds 25 h - 30 s |
| `ReplayWindow.AdmittedHonoursClaim` | agent/internal/agent/job_validation.go:133-162 | a job admitted with a claim has had that claim honoured |
| `ReplayWindow.ClaimHonouredOncePerRetention` | agent/internal/security/approval_claim.go:105-109 | in every run one approval claim is honoured again, under whatever envelope, only more than 25 h later |
| `ReplayWindow.ClaimHonouredTwiceExactlyWhen` | agent/internal/security/approval_claim.go:105-109 | two jobs that carry one claim, each ready at its own second, both have it honoured exactly when these are more than 25 h apart |
| `PolicyDisk.NamesAreDistinct` | agent/internal/policy/store.go:37-43 | no temporary file is a live file |
| `PolicyDisk.Disk.AtomicWrite` | agent/internal/policy/store.go:42-60 | at every failure and every loss of power the file is wholly the old or, on success, wholly the new one, and the other live file is untouched; it succeeds when no operation fails |
| `PolicyDisk.Disk.Commit` | agent/internal/policy/store.go:72-78 | after a commit, broken off anywhere: both files old, or the payload new, or both new |
| `PolicyDisk.Disk.CurrentVersion` | agent/internal/policy/store.go:80-108 | the version of the stored metadata, and 0 for a missing file, an unreadable file or torn metadata |
| `PolicyManager.AcceptedExactlyWhen` | agent/internal/policy/verify.go:43-79 | every verdict with its exact condition: accepted is genuine, newer and parsable; duplicate is genuine and of the start version; downgrade is genuine and older; bad hash, unknown signer and bad signature likewise |
| `PolicyManager.Filter` | agent/internal/agent/desired_policy.go:188-197 | the loop keeps the enabled collectors in order |
| `PolicyManager.FilterKeepsEnabled` | agent/internal/agent/desired_policy.go:188-197 | exactly the enabled collectors of the pristine list remain |
| `PolicyManager.FilterSplits` | agent/internal/agent/desired_policy.go:188-197 | each collector is kept or left out by itself, in the order of the list |
| `PolicyManager.DesiredPolicyManager.HealthCheck` | agent/internal/agent/desired_policy.go:109-124 | succeeds exactly when an enabled domain has a snapshot or the agent is stopping, in any order of the probe |
| `PolicyManager.DesiredPolicyManager.Apply` | agent/internal/policy/apply.go:36-65 | nothing is stored unless the health check succeeds; then one commit, whole or broken off; the registry is narrowed either way |
| `PolicyManager.DesiredPolicyManager.HandleEnvelope` | agent/internal/agent/desired_policy.go:63-131 | an envelope that will not be applied changes neither store nor registry; success is reported only for a genuine document of the start version or one the store now holds, and, when no file operation fails, exactly for these and the healthy new ones; every other report names its reason |
| `PolicyManager.Start` | agent/internal/agent/desired_policy.go:35-59 | the verifier's version is what the store says at the start, or 0 when it cannot be read; a start changes no live file, even if the power goes |
| `PolicyHistory.RunProcess` | agent/internal/agent/desired_policy.go:51-131 | every life of a process on a failing disk is a process of the history model; a power loss during its start leaves the live files alone |
| `PolicyHistory.RunHistory` | agent/internal/agent/desired_policy.go:51-131 | every sequence of processes, crashes and restarts is a history |
| `PolicyHistory.HandlingKeepsFloor` | agent/internal/policy/verify.go:67-72 | no offer takes the stored version below the start version, and metadata only changes to the offered, higher version |
| `PolicyHistory.ProcessKeepsFloor` | agent/internal/policy/verify.go:67-72 | at every moment of a process the stored version is at least its start version |
| `PolicyHistory.StartsNeverDecrease` | agent/internal/agent/desired_policy.go:51-58 | across any offers, failed writes, crashes and restarts the version read at a start never decreases, as long as the files can be read |
| `PolicyHistory.StartsNeverDecreaseExactlyWhen` | agent/internal/policy/store.go:104-108 | over any history start versions never decrease exactly when no start that cannot read the files comes after one from a positive version |
| `PolicyHistory.EveryCommitExceedsStart` | agent/internal/policy/verify.go:67-72 | whatever replaces the metadata carries the offered version, above the one its process started from |
| `PolicyHistory.ChangesAreWhole` | agent/internal/policy/store.go:72-78 | whatever one offer changes in a live file is its own whole document or its own whole metadata record |
| `PolicyHistory.LiveFilesAreWhole` | agent/internal/policy/store.go:42-78 | at every moment of every history each of the two live files holds what was there at first or the whole document, or metadata record, of one genuine offer made earlier |
| `PolicyHistory.ReadErrorLetsStartsDecrease` | agent/internal/policy/store.go:104-108 | a history with one unreadable start in which start versions decrease |
| `PolicyHistory.VersionDropsExactlyWhen` | agent/internal/policy/verify.go:67-72 | an offer lowers the stored version exactly when it replaces the metadata by one of a version above the start version and below the stored one |
| `PolicyHistory.OfferCanLowerExactlyWhen` | agent/internal/policy/verify.go:67-72 | some outcome of handling an offer lowers the stored version exactly when the offer is complete, genuine, parsable and healthy and its version lies between the two |
| `PolicyHistory.VersionsCanDropInsideAProcess` | agent/internal/policy/verify.go:67-72 | one process that commits a version and then a lower one |
| `PackageOwner.OwnerIsLongest` | agent/internal/modules/package_manager.go:534-538 | the owner is the longest known name that starts the NEVRA with a dash after it, or nothing |
| `PackageOwner.BestOwner` | agent/internal/modules/package_manager.go:558-563 | every order of the map walk ends at that owner |
| `PackageOwner.AttributedExactlyWhen` | agent/internal/modules/package_manager.go:529-569 | a CVE of name-version-release goes to `name` exactly when `name` is known and `name-version` is not, whatever other names are prefixes |
| `PackageOwner.RefExactlyWhen` | agent/internal/modules/package_manager.go:542-557 | a line counts exactly when it has three fields, a CVE id first, and a known severity word marked `/Sec.` second |
| `PackageOwner.SeverityKeepsRank` | agent/internal/modules/package_manager.go:511-516 | the four severity words map to the four grades in their order |
| `PackageOwner.RefsSplit` | agent/internal/modules/package_manager.go:541-567 | references are collected line by line, in order |
| `PackageOwner.ParseDnfCves` | agent/internal/modules/package_manager.go:539-569 | each package gets exactly its own CVE references, in listing order, and no other key appears |
| `LogRing.OverwriteShifts` | agent/internal/agent/logbuffer.go:68-72 | overwriting at the cursor drops the oldest entry and appends the new one |
| `LogRing.CountsPartition` | agent/internal/agent/logbuffer.go:118-137 | the three counts add up to the window and each counts its own kind |
| `LogRing.LogRingBuffer.Handle` | agent/internal/agent/logbuffer.go:51-80 | an entry is added to the history, and reported exactly when it is at error level or above |
| `LogRing.LogRingBuffer.Ordered` | agent/internal/agent/logbuffer.go:93-103 | after any n entries: the last min(n, size) in chronological order |
| `LogRing.LogRingBuffer.Lines` | agent/internal/agent/logbuffer.go:105-116 | the lines of that window |
| `LogRing.LogRingBuffer.Counts` | agent/internal/agent/logbuffer.go:122-137 | the counts of that window |
| `BrokerGuard.StepKeepsInv` | agent/internal/broker/operations.go:29-34 | every step keeps the counter equal to executing calls plus refused ones still to decrement |
| `BrokerGuard.GuardHolds` | agent/internal/broker/operations.go:17-34 | in every interleaving at most two operations execute, and the counter is zero when no call is active |
| `BrokerGuard.RefusedExactlyWhen` | agent/internal/broker/operations.go:30-33 | a call is refused exactly when executing and refused calls together fill the limit |
| `BrokerGuard.EachCallOnce` | agent/internal/broker/operations.go:29-34 | in every run a call is counted once and taken off once, executed or refused, and never comes back |
| `BrokerGuard.CanRefuseBelowLimit` | agent/internal/broker/operations.go:30-33 | a run after which one operation executes and the next call is refused |
| `StepExecutors.SortBySequence` | agent/internal/modules/workflow_steps_executor.go:74-76 | some permutation of the steps in sequence order |
| `StepExecutors.AttemptedIsShortest` | agent/internal/modules/workflow_steps_executor.go:82-102 | the attempted steps are the shortest prefix that ends at the first failure, or all of them |
| `StepExecutors.OutputsAre` | agent/internal/modules/workflow_steps_executor.go:86-92 | the output lists each attempted step that gave some, labelled, in order, and nothing else |
| `StepExecutors.DispatchesExactlyWhen` | agent/internal/modules/workflow_steps_executor.go:36-63 | a step reaches its runner exactly when its type is known and a command or playbook it must carry is there; otherwise it fails without output |
| `StepExecutors.RunnerExactly` | agent/internal/modules/remediation_executor.go:76-108 | real runs of a brokered provider go to the broker, the others to the host, dry runs in check mode |
| `StepExecutors.RemediatesExactlyWhen` | agent/internal/modules/remediation_executor.go:135-150 | an action runs exactly when its trimmed body is not empty and its provider has a runner, and then gives what that runner gives |
| `StepExecutors.Execute` | agent/internal/modules/remediation_executor.go:114-178 | for any outcomes: exactly those steps are attempted, the exit code is 0 exactly when all succeeded, otherwise it is the failing step's own or 1 if it has none, the error is that step's, and the output is that of the attempted steps |
| `StepExecutors.SuccessMeansSupported` | agent/internal/modules/remediation_executor.go:76-145 | a plan succeeds only if every action has a body and a known provider, and a dry run only uses check mode |
| `StepExecutors.WhatRunsIsDemanded` | agent/internal/modules/workflow_steps_executor.go:36-63 | a step whose outcome depends on a runner has a type whose capability the scan demands |
| `BrokerRouting.FirstStepCommandExactly` | agent/internal/agent/broker_routing.go:63-70 | the shell line of a first step is the text under `command` in the object under `params` |
| `BrokerRouting.OuterCommandExactly` | agent/internal/agent/broker_routing.go:71-72 | without a first step that is an object it is the text under `command` outside |
| `BrokerRouting.FirstStepMentionsCommand` | agent/internal/agent/broker_routing.go:63-70 | a first step whose shell line is not empty mentions `command`, whatever type it claims |
| `BrokerRouting.BashIsDemandedExactlyWhen` | agent/internal/agent/manager.go:648-656 | for a workflow job EXEC_BASH is demanded except when its steps mention another step type and not `command` |
| `BrokerRouting.ShellWithoutBashExactlyWhen` | agent/internal/agent/broker_routing.go:44-73 | a shell line goes to the broker without EXEC_BASH having been demanded exactly when it is the job's own, no first step being an object, and the steps mention another step type and not `command` |
| `BrokerRouting.ShellBesidePackage` | agent/internal/agent/broker_routing.go:63-73 | the steps `["package"]` and a command beside them are such a job |
| `BrokerRouting.AdmittedShellIsCovered` | agent/internal/agent/broker_routing.go:44-47 | that case aside, the signed request of an admitted job names EXEC_BASH for its shell line |
| `Settings.ScanUndoesPrint` | backend/lokilinux/settings_schema.py:129-140 | reading a printed natural gives it back |
| `Settings.CastUndoesStringify` | backend/lokilinux/settings_schema.py:124-140 | casting a stored value of the right type gives it back |
| `Settings.PartitionUndoesFullKey` | backend/lokilinux/settings_schema.py:195-201 | splitting a full key at the first dot finds its group and key |
| `Settings.EffectiveOfRow` | backend/lokilinux/settings_schema.py:124-134 | what every kind of row reads as; no row, or an integer that cannot be read, gives the default |
| `Settings.ShownExactly` | backend/lokilinux/settings_schema.py:160-163 | a secret that is set shows as the mask, one that is not and any other setting as it is |
| `Settings.SecretsLookAlike` | backend/lokilinux/settings_schema.py:161-162 | any two tables that have a secret set show the same for it |
| `Settings.SettingsStore.GetAllSettings` | backend/lokilinux/settings_schema.py:143-164 | every key of every wanted known group, with the mask for each secret that is set and the effective value otherwise |
| `Settings.UpdatedRows` | backend/lokilinux/settings_schema.py:173-190 | a known key that is really sent gets its text and the kind of the schema and is reported, in stars if secret; any other key keeps its row and is not reported |
| `Settings.ForeignRowsStay` | backend/lokilinux/settings_schema.py:173-178 | a row outside the schema is never touched |
| `Settings.SettingsStore.UpdateSettings` | backend/lokilinux/settings_schema.py:167-192 | exactly the known keys sent are upserted, masked secrets excepted, in any order; exactly these are reported, with their text, or stars for a secret |
| `Settings.SettingsStore.UpdateGroup` | backend/lokilinux/settings_schema.py:173-190 | the same for one group |
| `Settings.SettingsStore.UpsertKey` | backend/lokilinux/settings_schema.py:176-190 | one known key gets its row and its report, and no other key changes |
| `Settings.SettingsStore.GetSettingValue` | backend/lokilinux/settings_schema.py:195-206 | the effective value of a known key, nothing for an unknown one |
| `Settings.EchoChangesNothing` | backend/lokilinux/settings_schema.py:143-192 | writing back everything shown leaves every effective setting as it was, for any stored rows |
| `Settings.WrittenIsReadExactlyWhen` | backend/lokilinux/settings_schema.py:180-206 | a typed value written is the value read, except the mask sent to a secret that is not itself the mask |
| `Settings.OthersAreUntouched` | backend/lokilinux/settings_schema.py:167-192 | settings that are not sent keep their effective value |

## Left out

- Signatures, hashes, JSON, gzip and base64: given functions, about which only
  the round trip of stored policy metadata is assumed. `NewVerifierSet` and
  `ParseLocalPolicy` only decode.
- The file system beyond create, write, sync, close, rename and read: a completed
  rename is taken as atomic and lasting, without a directory sync.
- Whole-pair atomicity of the two policy files, and bindings the gate does not
  compare (the outer job id and type against the envelope's): the code has none.
- `DesiredPolicyManager` without a runner, which skips filter and probe; the
  clearing of a report once it is sent; the duration of reports.
- gRPC, SQLite, systemd-run and the executors' processes: foreign calls whose
  outcomes are parameters.
- Telemetry collection, reconnects, resync domains, certificate renewal and the
  policy report of the heartbeat; entries of a response that are not jobs; the
  job dispatch by type, which always reports back.
- The counting of heartbeat failures: the failure count is a parameter.
- `Flusher.Run`: its polling and interval bookkeeping only decide when to flush.
- Wrap-around of the 64-bit sequence and drop counters, and saturation of a
  policy age beyond 292 years.
- The library sorts are written as insertion sorts; callers rely only on a sorted
  permutation, which for the queue is unique.
- `Backoff.LateWrapExceedsCap`: says nothing of overflows before the 30th
  doubling; those of intervals up to 300 s are in `EarlyWrapExceedsCap`.
- `Backoff.BackoffIsExactExactlyWhen`: intervals that are not positive or do not
  fit 64 bits in nanoseconds are not covered, nor are they in
  `BackoffNeverShortens`.
- `LogRing.LogRingBuffer.constructor`: excludes size zero, where the original
  divides by zero; child handlers, which have cursors of their own.
- `BrokerRouting.Param`: steps that cannot be serialised read as missing; for these
  the gate demands EXEC_BASH whatever the broker runs.
- The broker's checks of the arguments of its operations.
- Splitting a listing into lines and white-space fields, and the apt and security
  marking parsers next to it.
- The entries of the settings schema (every well-formed schema is covered),
  library lower-casing beyond the words `true` and `false`, and integer texts that
  are not plain decimals.
- The frontend, the remaining backend and the compliance collectors.
