# Agent Trail in Dafny

Agent Trail runs coding agents on tasks: a task is queued, claimed by a runner, driven through its stages,
published as a pull request, reviewed, and possibly revised in further attempts. This project models the
parts of that system whose correctness depends on many callers, on crashes, or on text read back from
somewhere else, and proves what they keep:

- **The task store** (`TaskStore`, `TaskSpec`, `TaskHistory`, `TaskRuns`, `TaskTheorems`, `TaskOutcomes`, `Revisions`,
  `KeyText`): a task row, its attempts and its event log, changed by transactions. The class `TaskStore.Store`
  works on the shared `Storage.Database` step by step; each method is proved equal to a function of the old
  tables, and `TaskHistory.Inv` is proved of every run of every operation by anyone. Its centre is
  `Chronicle`: the recorded transitions *are* the ideal history of laps, then at most one terminal move.
- **Leases and executors** (`RunnerSpec`, `RunnerStore`, `Leases`, `Fleet`, `FleetTheorems`, `StaleExecutors`,
  `LeaseRuns`, `Itinerary`, `Executor`, `Recovery`): runs of claims, extensions and releases; any number of
  executors, crashed and superseded ones included, each fencing before it writes, interleaved with all other
  calls; and the executor's own code, killed, stopped or out of time at any call, with what it leaves on the log.
- **Publishing** (`Publish`, `Publisher`): the pull request and the check run of an attempt, with every call
  possibly refused, cut off, or lost after it took effect, and any number of reruns.
- **The event stream** (`Decimal`, `Stream`, `StreamClient`, `StreamProgress`, `StreamOrder`): cursor texts, batches, and a
  state machine from the store's log over breaking connections to the list a browser shows. The server side
  follows server-sent events with `Last-Event-ID` (section 9.2 of the WHATWG HTML Living Standard).
- **Conflicts between tasks** (`Hunks`, `SortedStrings`, `Overlap`, `ConflictStore`): the diff reader, the
  overlap decision, and the symmetric pair table.
- **Branch names** (`Branch`).

One state, `Records.Tables`, is shared by the stores, the executors and the stream.

What turned out not to hold as promised is proved with its exact condition, and for the first four with inputs
that reach it:

- An executor of a superseded attempt is locked out of every stage from provisioning to review. Its completion
  of the task still gets through, exactly while its runner holds the lease on that older attempt and the newer
  attempt is in review or about to be revised (`StaleExecutors.SupersededAdvance`); superseding does not touch the lease, so its fence
  keeps passing (`SupersededStillFences`). `StaleCompletionHappens` gives a run: an owner opens the pull request and
  dies, a runner without publishing takes over and stalls in review, and a comment on the pull request starts
  the attempt that it then completes. Failing and timing out get through exactly while the lease is held, the
  key is new and the move is legal (`SettleEffect`).
- After every run of what executors do, crashes included, a task is completed or can be claimed, except exactly one
  with a repository in review (`CrashNeverStrands`). When its executor had no publishing target and died there,
  no executor ever moves it again (`StrandingHappens`, `StrandedForGood`); `Executor.Executor.Drive` says that this is
  the only way a cut-off drive leaves a task unclaimable.
- An event appended to an attempt that a later event is already past is the only thing that puts the log out of
  order (`StreamOrder.OnlyLateAppends`). In any reachable state a logged event can still be shown exactly when it
  is shown already or lies beyond the last one shown (`StreamProgress.StillShowable`), and `StreamOrder.LateEventLost`
  gives a run that loses one: cleaning up after a superseded attempt while the browser shows the next one.
- The check-run upsert reads one page of a hundred in an order the service chooses. Repeating it is harmless for
  every order exactly when the commit's runs of that name fit on one page (`Publish.ReplaySafeIffRoom`). The final
  commit of an attempt has few; the base commit that `publishNoChange` reports on collects a run of every
  attempt that changed nothing there, and from the hundred and first on a rerun can report twice
  (`Publish.HundredAndFirstDuplicates`).
- Removing a line that starts with `-- ` ahead of another change to the same file makes a diff unreadable
  (`Hunks.RemovedCommentRejected`); for one file the round trip holds exactly when no body but the last ends, as
  far as its header-like lines go, on another path (`Hunks.FileRoundTripIffSteady`).
- A line range is well formed exactly when its last line fits 64 bits (`Hunks.RangeOrdered`).

Fence and write fit inside the lease for every lease that can be configured (`Leases.ConfiguredLeaseFits`), so in every
run a fenced write is made while its runner holds the lease (`LeaseRuns.FencedWritesHoldLease`).

## Model

| member | source | states |
|---|---|---|
| Lifecycle.NonTerminalMoves | apps/api/internal/task/status.go:73-104 | among the non-terminal statuses the graph is one line with one loop back to the queue |
| TaskStore.Store.Create | apps/api/internal/task/store.go:43-105 | a new task is its row, attempt 1 and first event, already queued |
| TaskStore.Store.Transition | apps/api/internal/task/store.go:186-208 | one transaction: the new tables or the refusal, and on refusal nothing changed |
| TaskStore.Store.RequestRevision | apps/api/internal/task/store.go:212-286 | both moves of a revision or, after any failure in between, the tables as they were |
| TaskStore.Store.Cancel | apps/api/internal/task/store.go:288-317 | cancelling again is accepted and changes nothing; an unfinished task ends cancelled, a task that ended otherwise is refused |
| TaskStore.Store.EnsureGitContext | apps/api/internal/task/store.go:125-144 | base and branch keep their first values, the version grows, and the caller gets what is stored |
| TaskStore.Store.AppendAttemptEvent | apps/api/internal/task/store.go:427-467 | one more event on that attempt, or an error and no change |
| TaskStore.Store.AppendEvent | apps/api/internal/task/store.go:470-502 | one more event on the active attempt, or an error and no change |
| TaskStore.Store.ApplyTransition | apps/api/internal/task/store.go:700-819 | order of the guards, the no-op of a replayed key, and the whole new state |
| TaskStore.Store.MoveAttempts | apps/api/internal/task/store.go:744-777 | what a move does to the attempts and which attempt records it |
| TaskStore.Store.MoveTask | apps/api/internal/task/store.go:779-797 | every column of the task row after a move |
| TaskStore.Store.InsertRevisionAttempt | apps/api/internal/task/store.go:822-851 | the new attempt inherits the brief's base commit, or nothing |
| TaskStore.Store.InsertEvent | apps/api/internal/task/store.go:854-868 | the event is numbered one past the attempt's highest |
| TaskHistory.ActiveIsLast | apps/api/internal/task/store.go:734-742 | in every sound state the active attempt is the last one, and there is none exactly when the task is over |
| TaskHistory.AppendKeeps | apps/api/internal/task/store.go:854-868 | an append keeps numbering and key uniqueness and adds an edge only for a move |
| TaskHistory.ChronicleGrows | apps/api/internal/task/store.go:730-801 | a legal move extends the ideal history by its next edge or ends it |
| TaskHistory.MoveKeeps | apps/api/internal/task/store.go:734-818 | a move keeps the whole invariant: attempt structure, row marks, numbering, keys and history |
| TaskHistory.TransitionKeeps | apps/api/internal/task/store.go:700-819 | every accepted transition keeps the invariant |
| TaskRuns.CreateSucceeds | apps/api/internal/task/store.go:43-105 | creation always succeeds, at version 2, with one recorded move |
| TaskRuns.RevisionKeeps | apps/api/internal/task/store.go:212-286 | an accepted revision keeps the invariant |
| TaskRuns.CallKeepsInv | apps/api/internal/task/store.go:125-502 | every store call, lease and column writes included, keeps the invariant |
| TaskRuns.RunKeepsInv | apps/api/internal/task/store.go:43-819 | attempts numbered 1..n, all but the last superseded, the last active exactly while the task is unfinished; phase, completed and cancel marks follow the status; after every run |
| TaskTheorems.TransitionCount | apps/api/internal/task/store.go:700-819 | transitions number 8(attempts-1)+rank while unfinished, and lie between two bounds when over |
| TaskTheorems.VersionAccount | apps/api/internal/task/store.go:125-144 | version is 1 + transitions + git-context calls, after every run |
| TaskTheorems.LogReplays | apps/api/internal/task/store.go:803-816 | the recorded moves chain from created to the stored status, each legal, attempts never falling |
| TaskTheorems.NumberedFromOne | apps/api/internal/task/store.go:854-862 | the sequence numbers of an attempt are 1, 2, 3, ... in commit order |
| TaskTheorems.SequenceNumbersDense | apps/api/internal/task/store.go:709-723 | dense numbering and no key twice, after every run |
| TaskTheorems.ReplayStaysNoOp | apps/api/internal/task/store.go:709-723 | the log only grows, so a used key stays a no-op whatever happens later |
| TaskTheorems.GitContextStable | apps/api/internal/task/store.go:125-144 | every later owner gets the base and branch the first one fixed |
| Revisions.RevisionOutcome | apps/api/internal/task/store.go:212-286 | accepted exactly when complete, new, within the limit and in review; the refusal otherwise; the second replay check never decides |
| Revisions.RevisionBound | apps/api/internal/task/store.go:226-255 | attempts are 1 + accepted revisions and never exceed the limit, in every interleaving |
| Revisions.TriggerAddsOneAttempt | apps/api/internal/task/store.go:226-244 | one trigger key adds at most one attempt |
| TaskOutcomes.TransitionTable | apps/api/internal/task/status.go:73-104 | every pair of statuses between which a move is legal |
| TaskOutcomes.PhaseTable | apps/api/internal/task/status.go:51-71 | the statuses of each phase, and the ones that end a task |
| TaskOutcomes.TransitionAnswers | apps/api/internal/task/store.go:700-732 | in every sound state the answer of a transition: unknown source, replay, stale version, illegal move, or the new status at the next version |
| TaskOutcomes.CancelSucceeds | apps/api/internal/task/store.go:288-317 | in every sound state cancelling succeeds exactly on a task that is unfinished or cancelled already, and leaves it cancelled |
| TaskOutcomes.FailSucceeds | apps/api/internal/task/status.go:92-94 | a fresh failure is accepted exactly from provisioning, planning, executing, validating and publishing |
| TaskOutcomes.TimeoutSucceeds | apps/api/internal/task/status.go:95-97 | a fresh timeout is accepted exactly from those five and from review |
| TaskOutcomes.MoveStores | apps/api/internal/task/store.go:744-816 | every column of row, attempts and event after an accepted move |
| TaskOutcomes.StageStored | apps/api/internal/runner/executor.go:1017-1034 | a stage is on the log under its own key, by the runner, on the current attempt; the completion of an unpublished task by the system |
| TaskOutcomes.FailureStored | apps/api/internal/runner/executor.go:1043-1062 | a failure stores its code and message, each in its own column, on task and attempt |
| TaskOutcomes.TimeoutStored | apps/api/internal/runner/executor.go:456-464 | a passed deadline stores its own code |
| TaskOutcomes.CancelStored | apps/api/internal/task/store.go:288-317 | who cancelled, why, and when it was asked for |
| TaskOutcomes.CreateStores | apps/api/internal/task/store.go:43-105 | every column of a new task, its attempt and its two events |
| TaskOutcomes.CompleteTable | apps/api/internal/task/store.go:212-222 | what a revision must bring along, down to the forty lower-case hexadecimal digits of its base commit |
| TaskOutcomes.RevisionStores | apps/api/internal/task/store.go:252-284 | both events of an accepted revision with reason and key, the superseded attempt, and the new one with the brief |
| TaskOutcomes.GitContextStores | apps/api/internal/task/store.go:125-144 | base and branch each in their own column: the first call's argument, whatever later calls say |
| TaskOutcomes.RecordStores | apps/api/internal/runner/store.go:294-325 | base, final commit and pull request of one attempt keep their first value; no other column or attempt changes |
| TaskOutcomes.FirstRecordStays | apps/api/internal/runner/store.go:294-325 | a later record with another value changes nothing |
| TaskOutcomes.NoteStores | apps/api/internal/task/store.go:427-467 | a note is accepted exactly for an attempt of the task and a known source, and stored as given |
| TaskOutcomes.ActiveNoteStores | apps/api/internal/task/store.go:470-502 | without an attempt it goes to the last one, exactly while the task is unfinished |
| TaskOutcomes.ClaimAnswers | apps/api/internal/runner/store.go:203-257 | in every sound state a claim is granted exactly on the last attempt in a status that waits for a runner, with the lease free or run out; only that lease changes |
| TaskOutcomes.ExtendAnswers | apps/api/internal/runner/store.go:345-363 | an extension is granted exactly to the owner before expiry; only that lease changes |
| TaskOutcomes.ReleaseAnswers | apps/api/internal/runner/store.go:365-381 | a release is granted exactly to the owner; only that lease changes |
| KeyText.TextInjective | apps/api/internal/runner/executor.go:1023-1029 | the idempotency key texts are as distinct as the keys they stand for |
| KeyText.KeyTexts | apps/api/internal/runner/executor.go:1027-1054 | the texts of the keys, attempt, stage and code in their places |
| RunnerStore.Store.ClaimAttempt | apps/api/internal/runner/store.go:203-257 | a claim is granted exactly on an active attempt, a claimable task and a free or lapsed lease |
| RunnerStore.Store.ExtendLease | apps/api/internal/runner/store.go:345-363 | extended only by the owner and strictly before expiry |
| RunnerStore.Store.ReleaseLease | apps/api/internal/runner/store.go:365-381 | released only by the owner |
| RunnerStore.Store.RecordFinalCommit | apps/api/internal/runner/store.go:305-314 | the first recorded commit stays |
| RunnerStore.Store.RecordPullRequest | apps/api/internal/runner/store.go:316-325 | the first recorded pull request stays |
| RunnerStore.Store.FenceLeaseOwnership | apps/api/internal/runner/executor.go:244-275 | the first answered try before the deadline decides; a refusal is final; a try whose answer was lost may have renewed the lease |
| RunnerStore.FenceRenewsOwn | apps/api/internal/runner/executor.go:244-275 | however its tries fare a fence changes nothing but its runner's own lease, and when it passes that lease runs from a try in time |
| RunnerStore.FirstAnswerDecides | apps/api/internal/runner/executor.go:258-274 | however many tries before it stay unanswered, the first one answered in time decides, on the lease as the lost ones left it |
| RunnerStore.GivesUpIffSilent | apps/api/internal/runner/executor.go:258-274 | a fence gives up exactly when no try is answered in time |
| Leases.TenanciesDisjoint | apps/api/internal/runner/store.go:203-257 | over every run no instant lies in the stays of two holders |
| Leases.EveryGrantBooked | apps/api/internal/runner/store.go:203-257 | every granted claim begins one of those stays, its own runner's at its own time |
| Leases.OldOwnerLocked | apps/api/internal/runner/store.go:345-381 | who does not hold the lease is refused and changes nothing until it claims again |
| Leases.ExpiredStaysExpired | apps/api/internal/runner/store.go:344-350 | an expired lease is revived by nothing but a claim |
| Leases.GrantHolds | apps/api/internal/runner/store.go:241-251 | a grant holds until the owner's release or expiry, against every other call |
| Leases.GrantsApart | apps/api/internal/runner/store.go:203-257 | another runner's next grant comes only after the first one's lease ran out |
| Leases.OperationTimeoutIs | apps/api/internal/runner/executor.go:236-242 | a third of the lease rounded down, at most five seconds, and five where a third is nothing |
| Leases.OperationFitsLease | apps/api/internal/runner/executor.go:236-242 | twice the operation timeout is less than the lease exactly when it lasts three nanoseconds or more |
| Leases.ConfiguredLeaseFits | apps/api/internal/config/config.go:178-189 | so it fits every lease that can be configured, a whole number of seconds |
| Leases.WriteInsideLease | apps/api/internal/runner/executor.go:244-275 | at every position up to a fenced write the lease is the writer's and outlasts the write |
| Leases.WriteBeforeOtherGrants | apps/api/internal/runner/executor.go:244-275 | no claim or extension gives the lease to anybody else between a fence and its write |
| Leases.FencedWritesExclusive | apps/api/internal/runner/executor.go:244-275 | fenced writes of two runners never fall inside each other's lease: each inside its own, the first before the other is granted anything |
| LeaseRuns.CallIsLeaseCall | apps/api/internal/runner/store.go:203-381 | every store call does to an attempt's lease what a lease call, or nothing, does to it |
| LeaseRuns.RunIsLeaseRun | apps/api/internal/runner/store.go:203-381 | along every run of the stores an attempt's lease is what its lease calls alone make of it |
| LeaseRuns.RunTenanciesDisjoint | apps/api/internal/runner/store.go:203-257 | so over every run of the stores the stays of two holders of one attempt never overlap |
| LeaseRuns.StepGuards | apps/api/internal/runner/executor.go:244-275 | behind a passed fence the lease stays the executor's until it would have run out, against every step of anyone |
| LeaseRuns.FencedWritesHoldLease | apps/api/internal/runner/executor.go:236-275 | in every run on one clock with one lease duration, a write within two operation timeouts of its fence is made while its runner holds the lease |
| Fleet.EdgesUpToLaps | apps/api/internal/task/store.go:803-816 | which moves the log of any sound state holds |
| Fleet.ReachedIff | apps/api/internal/task/store.go:803-816 | an attempt was moved to a stage exactly when the history got that far |
| FleetTheorems.KeyIffReached | apps/api/internal/runner/executor.go:1023-1029 | a stage key is recorded exactly when that attempt reached that stage |
| FleetTheorems.UnsettledWhileUnfinished | apps/api/internal/runner/executor.go:1043-1055 | while a task is unfinished the key of no failure or timeout is recorded, so none is taken for a replay |
| FleetTheorems.FreshStageIsCurrent | apps/api/internal/runner/executor.go:1017-1034 | a stage transition that is not a replay comes from the current attempt with an exact belief |
| FleetTheorems.StepSound | apps/api/internal/runner/executor.go:472-554 | every fence, write and crash of every executor and every other caller keeps keys honest and beliefs true |
| FleetTheorems.RunSound | apps/api/internal/runner/executor.go:472-554 | so does every interleaving |
| FleetTheorems.StageKeyIffReached | apps/api/internal/runner/executor.go:1017-1034 | in every interleaving the key of a driven stage is recorded exactly when the attempt reached it |
| FleetTheorems.BeliefNeverAhead | apps/api/internal/runner/executor.go:1032-1033 | the status an executor carries on with is never ahead of the durable one |
| StaleExecutors.SupersededPassedAll | apps/api/internal/task/store.go:757-768 | a superseded attempt went through every driven stage |
| StaleExecutors.ExtendIffHeld | apps/api/internal/runner/store.go:345-363 | a fence passes exactly for the holder of an unexpired lease, whatever the attempt's status |
| StaleExecutors.SupersededStillFences | apps/api/internal/task/store.go:757-768 | a revision leaves the superseded attempt's lease and its owner's fence as they were |
| StaleExecutors.FenceOutcome | apps/api/internal/runner/executor.go:244-275 | a fence passes exactly for the holder, renews that lease and changes nothing else |
| StaleExecutors.SupersededStage | apps/api/internal/task/store.go:709-723 | whatever happens between fence and write, a superseded executor changes nothing in a driven stage |
| StaleExecutors.SupersededAdvance | apps/api/internal/runner/executor.go:1017-1034 | fence and write change the task exactly when the lease is held, the write is the completion and the newer attempt is in review; otherwise only that lease |
| StaleExecutors.SettleEffect | apps/api/internal/runner/executor.go:441-469 | fence and settlement change the task exactly while the lease is held, the key is new and the move is legal; otherwise only that lease |
| StaleExecutors.StrideApplies | apps/api/internal/runner/executor.go:1017-1034 | the current owner's fence passes, its move applies, and its lease is renewed for the next |
| StaleExecutors.LoneExecutorCompletes | apps/api/internal/runner/executor.go:472-554 | an undisturbed lease holder completes from any claimable status in as many fenced moves as ranks remain |
| StaleExecutors.RecoveryCompletes | apps/api/internal/runner/executor.go:472-554 | whatever crashed before, a lapsed lease in a claimable status is claimed and the fenced drive under it completes |
| StaleExecutors.PublishersNeverComplete | apps/api/internal/runner/executor.go:541-547 | published work waits for a human: however executors that publish are interleaved and cut off, none of them completes the task |
| StaleExecutors.CrashNeverStrands | apps/api/internal/runner/store.go:57-62 | every run of what executors do (start, fence, move, append, record, release, crash) leaves the task completed or claimable, except exactly in review with a repository |
| StaleExecutors.StrandedForGood | apps/api/internal/runner/store.go:57-62 | with its executors dead such a task stays there whatever any executor does; starts, fences and moves change nothing at all |
| StaleExecutors.StrandingHappens | apps/api/internal/runner/executor.go:540-548 | a run that strands a task: no publishing target, driven to review, dead before its completion |
| StaleExecutors.StaleCompletionHappens | apps/api/internal/runner/executor.go:540-548 | a reachable run in which a superseded executor, its lease still in force, completes the task under the newer attempt |
| Executor.Executor.Transition | apps/api/internal/runner/executor.go:1017-1034 | for any attempt: accepted leaves the stage's key, the task moves legally or stays, a superseded attempt changes nothing in a driven stage, the current one reaches its next stage exactly when accepted; accepted only from the holder of a lease in force |
| Executor.Executor.FailTask | apps/api/internal/runner/executor.go:1043-1063 | for any attempt and status: the task ends failed by a legal move, with the code on its row, or its row is untouched; an unfinished task told to be failed is |
| Executor.Executor.TimeoutTask | apps/api/internal/runner/executor.go:441-469 | the deadline's settlement: timed out by a legal move, with its code, or the row untouched; a finished task is left alone, and a cancelled one is not a failure |
| Itinerary.SessionPlanIs | apps/api/internal/runner/executor.go:632-666 | what a session records, by position: the notes, and the move behind the first plan when entered in planning |
| Itinerary.ValidationPlanIs | apps/api/internal/runner/executor.go:675-712 | what validation records, event by event |
| Itinerary.PublishPlanIs | apps/api/internal/runner/publish.go:204-270 | what publishing from a workspace records, event by event, for each way it can go |
| Itinerary.DriveFromQueue | apps/api/internal/runner/executor.go:472-554 | all that a queued task records until it is in review or completed |
| Executor.Executor.RunSession | apps/api/internal/runner/executor.go:632-666 | the log gains one note per agent event in order, with the move out of planning right behind the first plan; cut off, a part of that from its beginning |
| Executor.Executor.AgentStages | apps/api/internal/runner/executor.go:607-712 | from a ready workspace to the end of validation the log gains the plan of those stages, whole unless cut off, and then a part of it from its beginning; a failed session fails the task with its code |
| Executor.Executor.ValidateStage | apps/api/internal/runner/executor.go:675-712 | what the log records, in order: the end of planning, validation with one event per check and its evidence, and only then the move to publishing |
| Executor.Executor.PublishFromWorkspace | apps/api/internal/runner/publish.go:204-270 | the recorded events say how far commit, push and GitHub got, whether the stage succeeded or failed the attempt |
| Executor.Executor.PublishStage | apps/api/internal/runner/executor.go:716-724 | the events of publishing, then the removed workspace, then review; a failure is settled with its code before the workspace goes |
| Executor.Executor.CleanUp | apps/api/internal/runner/executor.go:726-753 | a workspace is removed and noted unless the process died or, for a git one, its lease is gone |
| Executor.Executor.RecoverValidation | apps/api/internal/runner/executor.go:501-519 | a validation whose workspace is gone: its missing result and evidence are noted before publishing begins |
| Executor.Executor.PublishRecovered | apps/api/internal/runner/publish.go:274-340 | worktree, pushed branch, nothing pushed, unreachable or unrecorded: the events of each, and review or an attempt failed with the code of each |
| Executor.Executor.RunAgentStages | apps/api/internal/runner/executor.go:556-753 | the stages that need the workspace: their whole plan on the log unless cut off; a temporary directory goes however they ended |
| Executor.Executor.ReachPublishing | apps/api/internal/runner/executor.go:472-519 | resolves the publishing target and runs exactly the stages missing from the claimed status, each of whose events is on the log unless cut off |
| Executor.Executor.FinishPublishing | apps/api/internal/runner/executor.go:521-540 | recovered or skipped, the task ends in review with the events of that way on the log, or it broke before |
| Executor.Executor.Drive | apps/api/internal/runner/executor.go:472-554 | the log gains the whole plan of the claimed status, a part of it from its beginning when cut off; without faults review or completion; unclaimable exactly in review with a repository and no publishing target |
| Executor.Executor.Execute | apps/api/internal/runner/executor.go:86-220 | entry fence, drive, settlement of a passed deadline, release: the log gains what the drive records and the timeout if there is one; a passed deadline times the task out unless the lease is lost or provisioning never began; once entered, who is not killed and did not lose its lease gives it back, however the drive ended |
| Recovery.ClaimAndExecute | apps/api/internal/runner/executor.go:86-220 | a claim after the lease lapsed, then the execution, with or without a repository: done with the lease given back, failed or timed out by its own doing, claimable again, or stranded in review |
| Recovery.OutliveCrashes | apps/api/internal/runner/store.go:57-62 | any number of executions killed or stopped anywhere, then one that is not: in review where there is a repository, completed where there is none |
| Publish.CheckConclusion | apps/api/internal/runner/publish.go:710-730 | failure exactly when a trusted check failed; success exactly when there are trusted checks and all passed |
| Publish.Forge.FindPullRequestByHead | apps/api/internal/github/client.go:328-345 | the newest pull request of the branch in any state, or none |
| Publish.UpsertPullUnique | apps/api/internal/runner/publish.go:356-389 | one pull request per branch, the branch's own with the new body, the others untouched |
| Publish.UpsertPullReplay | apps/api/internal/runner/publish.go:356-389 | publishing a branch again leaves what the later publish alone would leave |
| Publish.UpsertRunUnique | apps/api/internal/runner/publish.go:670-695 | the commit has exactly one run of this name and attempt, with the conclusion it was given; the others are untouched |
| Publish.UpsertStored | apps/api/internal/runner/publish.go:670-695 | whichever page was seen, the run with its commit, name, attempt and conclusion is there, and no other run changed |
| Publish.UpsertRunReplay | apps/api/internal/runner/publish.go:670-695 | upserting again, with the same or another conclusion, leaves what the later upsert alone would leave |
| Publish.PageMatches | apps/api/internal/github/client.go:297-312 | a run found on any page of the listing is this attempt's, and it is found exactly when the page shows it |
| Publish.PageDecides | apps/api/internal/runner/publish.go:670-695 | for every page: the upsert is the full one, and uniqueness kept, exactly when the page shows the run there is |
| Publish.RoomIsEnough | apps/api/internal/runner/publish.go:670-695 | with room for the commit's runs on one page every upsert is the full one, whatever the order |
| Publish.ReplaySafeIffRoom | apps/api/internal/runner/publish.go:670-695 | repeating the upsert keeps one run for every order of the listing exactly when the runs fit on one page |
| Publish.RerunDuplicates | apps/api/internal/runner/publish.go:670-695 | without room some pages give the commit a second run of the attempt |
| Publish.NoChangeReached | apps/api/internal/runner/publish.go:562-577 | attempts that change nothing add one run each to their base commit |
| Publish.HundredAndFirstDuplicates | apps/api/internal/runner/publish.go:562-577 | after a hundred and one of them a rerun of the last can report twice |
| Publish.HundredFit | apps/api/internal/runner/publish.go:562-577 | with a hundred of them it never does |
| Publisher.Publisher.PublishPullRequest | apps/api/internal/runner/publish.go:356-403 | found or created, then recorded; what each cut leaves behind |
| Publisher.Publisher.UpsertCheckRun | apps/api/internal/runner/publish.go:670-695 | the run with this attempt's external id on the page is updated, otherwise one is created; what each cut leaves behind |
| Publisher.Publisher.PublishNoChange | apps/api/internal/runner/publish.go:554-577 | a run on the base commit that concludes neutral, and no pull request |
| Publisher.Publisher.PublishToGitHub | apps/api/internal/runner/publish.go:343-441 | the check run only after the pull request; answered, the branch's pull request has the body and the commit a run that concludes what the report says; what each cut leaves behind |
| Publisher.PublishAcrossLives | apps/api/internal/runner/publish.go:342-441 | after any number of cut-off executions with whatever bodies and reports, GitHub and the attempt row are as if only the last had run: one pull request with its body, one run of the attempt that fails or succeeds exactly when its checks do |
| Publisher.RecordReplay | apps/api/internal/runner/store.go:316-325 | recording again keeps the first number |
| Decimal.FormatValue | apps/api/internal/httpapi/stream.go:27-29 | a printed number is digits that read back as that number |
| Decimal.ParseFormat | apps/api/internal/httpapi/stream.go:36-43 | printing then parsing gives the number back exactly when it fits 64 bits |
| Decimal.ParseCounts | apps/api/internal/httpapi/stream.go:36-43 | the texts that are read as a number that is not negative |
| Stream.CursorRoundTrip | apps/api/internal/httpapi/stream.go:27-45 | a printed cursor parses back exactly when both parts fit 64 bits |
| Stream.AcceptedCursorIsPrintable | apps/api/internal/httpapi/stream.go:47-60 | every accepted request names a cursor the server would print and accept again |
| Stream.HeaderOutranksQuery | apps/api/internal/httpapi/stream.go:47-60 | a cursor in the header decides whatever the query says, the query's serves without a header, and neither means the beginning |
| Stream.RequestsAccepted | apps/api/internal/httpapi/stream.go:31-60 | which requests are accepted, and as what cursor |
| Stream.MalformedHeaderRefused | apps/api/internal/httpapi/stream.go:47-60 | a header that is not two numbers with a colon is refused, even beside a good query |
| Stream.BatchLimit | apps/api/internal/task/store.go:372-402 | a batch is the first rows beyond the cursor: as many as asked for, 500 if not said, at most 1000 |
| Stream.TimelineSorted | apps/api/internal/task/store.go:393-402 | the ordered query shows the whole log, each row once, in cursor order |
| Stream.BeyondRow | apps/api/internal/task/store.go:400-401 | beyond a row's cursor lies exactly the rest of the rows |
| Stream.BatchAdvances | apps/api/internal/httpapi/stream.go:141-152 | after a batch exactly the undelivered rows are left |
| Stream.Connection.StreamDrain | apps/api/internal/httpapi/stream.go:138-163 | writes exactly what lies beyond the cursor, in order, once; terminates by the undelivered rows |
| Stream.EdgesInTimelineOrder | apps/api/internal/task/store.go:393-402 | ordering by attempt and number leaves the moves in the order they happened |
| Stream.TimelineFaithful | apps/api/internal/task/store.go:372-424 | so after every run of the store |
| StreamClient.NewestIsSorted | apps/api/internal/httpapi/stream.go:21-29 | appending to the newest attempt and appending in cursor order are the same |
| StreamClient.BatchIsNextRows | apps/api/internal/httpapi/stream.go:141-155 | in an ordered log a batch is the next stretch of rows |
| StreamClient.BatchEffect | apps/api/internal/httpapi/stream.go:102-155 | what one batch writes, and when the stream is closed instead |
| StreamClient.ReceiveKeeps | apps/web/lib/useTaskStream.ts:42-56 | a replayed event is dropped, the next one is shown, and both cursors name shown rows |
| StreamClient.StepKeeps | apps/api/internal/httpapi/stream.go:63-135 | every step of store, server, network and browser keeps delivery exact |
| StreamClient.ExactDelivery | apps/web/lib/useTaskStream.ts:35-80 | for every schedule of disconnects the shown list is a prefix of the log; once done it includes the final move |
| StreamClient.ConnectsBehindLastReceived | apps/web/lib/useTaskStream.ts:35-80 | in every run a connection whose header arrives starts exactly behind the last event received, one without it behind the last received when the hook last opened a source |
| StreamProgress.NothingInventedOrRepeated | apps/web/lib/useTaskStream.ts:15-21 | with appends in any order only logged events are shown, sorted, once each |
| StreamProgress.PlayTracks | apps/web/lib/useTaskStream.ts:30-77 | in every reachable state the browser resumes at a row it is not short of, and nothing follows a closing frame |
| StreamProgress.PassedForGood | apps/web/lib/useTaskStream.ts:49-54 | a row the browser has passed is never shown, whatever happens later |
| StreamProgress.DoneForGood | apps/web/lib/useTaskStream.ts:58-67 | a browser that was told the stream is done shows nothing more |
| StreamProgress.DrainsAll | apps/api/internal/httpapi/stream.go:138-163 | batches always reach the end of what is due, in any log |
| StreamProgress.CatchesUp | apps/web/lib/useTaskStream.ts:66-76 | from every reachable state some schedule shows everything ahead of the browser, and closes the stream exactly when the task is over |
| StreamProgress.StillShowable | apps/web/lib/useTaskStream.ts:49-56 | for any order of appends an event can still be shown exactly when it is shown or lies beyond the last one shown |
| StreamOrder.OnlyLateAppends | apps/api/internal/task/store.go:427-467 | of all store calls only an append to an attempt that a later event is past puts the log out of order |
| StreamOrder.OrderDecides | apps/web/lib/useTaskStream.ts:49-54 | a browser that has shown an ordered log can be shown the next event exactly when it is on no older attempt |
| StreamOrder.ShowsEverything | apps/web/lib/useTaskStream.ts:66-76 | with events in order some schedule always shows the whole log |
| StreamOrder.LateEventLost | apps/web/lib/useTaskStream.ts:49-54 | a reachable run whose late event no schedule ever shows |
| Hunks.ParseHunks | apps/api/internal/gitworkspace/conflictops.go:144-184 | the scan's result, errors included, for every text |
| Hunks.RangeOrdered | apps/api/internal/gitworkspace/conflictops.go:176-179 | a range is well formed exactly when its last line fits 64 bits |
| Hunks.ParsedRangesOrdered | apps/api/internal/gitworkspace/conflictops.go:144-184 | every range read from any text is well formed if its header's numbers are |
| Hunks.MatchRendered | apps/api/internal/gitworkspace/conflictops.go:22 | the header pattern reads back both numbers, or the start alone |
| Hunks.MatchesIffRendered | apps/api/internal/gitworkspace/conflictops.go:22 | and no other line is a hunk header |
| Hunks.RoundTrip | apps/api/internal/gitworkspace/conflictops.go:144-184 | reading a printed diff gives every base-side range under its file's path, in order |
| Hunks.PlainRoundTrip | apps/api/internal/gitworkspace/conflictops.go:144-184 | so for every diff whose bodies never look like file headers |
| Hunks.FileRoundTripIffSteady | apps/api/internal/gitworkspace/conflictops.go:148-156 | for one file exactly when no body but the last ends, by its last header-like line, on another path |
| Hunks.RemovedCommentRejected | apps/api/internal/gitworkspace/conflictops.go:157-160 | a removed line starting with two dashes and a space makes the next header an error |
| SortedStrings.SortStrict | apps/api/internal/conflict/detect.go:125-132 | sorting distinct strings gives a strictly sorted list of the same strings |
| SortedStrings.StrictUnique | apps/api/internal/conflict/detect.go:125-132 | there is only one such list |
| SortedStrings.LeqMeans | apps/api/internal/conflict/detect.go:125-132 | the order: a prefix first, otherwise the smaller character at the first difference |
| Overlap.Intersect | apps/api/internal/conflict/detect.go:82-96 | the paths both sides list, each once, sorted |
| Overlap.RangesAdjacent | apps/api/internal/conflict/detect.go:98-107 | true exactly when some pair of ranges is close |
| Overlap.MigrationPaths | apps/api/internal/conflict/detect.go:109-123 | exactly the SQL files below a migrations directory |
| Overlap.SortedKeys | apps/api/internal/conflict/detect.go:125-132 | the keys, sorted, whatever order the map gives them in |
| Overlap.FindOverlap | apps/api/internal/conflict/detect.go:37-80 | the kinds in their order and the sorted files, from the two sets of paths and ranges |
| Overlap.KindsMean | apps/api/internal/conflict/detect.go:37-80 | each kind is listed exactly when its reason is there, in their order, and which files are |
| Overlap.FileBelow | apps/api/internal/conflict/detect.go:63-123 | a manifest or migration below any directories is told by its last component and the directories before it |
| Overlap.OverlapSymmetric | apps/api/internal/conflict/detect.go:37-80 | both directions give the same lists, element by element |
| Overlap.KindsIffFiles | apps/api/internal/conflict/detect.go:37-80 | there are kinds exactly when there are files |
| Overlap.AdjacentIffLines | apps/api/internal/conflict/detect.go:98-107 | on well-formed ranges, exactly when lines of the two sides are at most three apart |
| ConflictStore.Store.Wanted | apps/api/internal/conflict/store.go:57-63 | the last detection for a task wins; an empty kind list refuses the call |
| ConflictStore.Store.DeleteStale | apps/api/internal/conflict/store.go:97-107 | exactly the task's pairs that were not detected again disappear |
| ConflictStore.Store.UpsertAll | apps/api/internal/conflict/store.go:108-154 | every desired pair is stored, each column from its detection, or some constraint refused one |
| ConflictStore.Store.Reconcile | apps/api/internal/conflict/store.go:56-158 | accepted exactly when every detection can be stored; then the task's pairs are exactly the detected ones, each column from the last detection of its task, and no other pair changed; otherwise nothing changed |
| ConflictStore.Store.ListForTask | apps/api/internal/conflict/store.go:161-210 | the unfinished other sides of an unfinished task's pairs |
| ConflictStore.LastDetectionWins | apps/api/internal/conflict/store.go:57-63 | of several detections for one task the last is kept |
| ConflictStore.LastDetectionStored | apps/api/internal/conflict/store.go:108-154 | its kinds, files, evidence, severity, explanation and times, each in its own column |
| ConflictStore.AcceptedIff | apps/api/internal/conflict/store.go:56-154 | when a reconcile is accepted, in terms of its detections |
| ConflictStore.StorableTable | apps/api/migrations/00008_semantic_conflicts.sql:2-20 | the kinds, severities and semantic fields the table lets in |
| ConflictStore.NamedIffDesired | apps/api/internal/conflict/store.go:57-63 | the desired set is exactly the tasks the detections name |
| ConflictStore.ListingSymmetric | apps/api/internal/conflict/store.go:161-210 | one task lists another exactly when that one lists it, with the same content |
| ConflictStore.ReconcileReplay | apps/api/internal/conflict/store.go:56-158 | reconciling again changes nothing but the time of the update |
| ConflictStore.TableIsLastWord | apps/api/internal/conflict/store.go:56-158 | over every run, each unordered pair once, stored exactly when the last of the two to reconcile named the other |
| Branch.SanitizedIsValid | apps/api/internal/gitworkspace/branch.go:17-33 | every answer is a valid branch, and there is none exactly when the text has no letter or digit |
| Branch.ValidBranchShape | apps/api/internal/gitworkspace/branch.go:16-37 | the shape of a branch, character by character |
| Branch.LowerTable | apps/api/internal/gitworkspace/branch.go:22-24 | which characters become which small letters |
| Branch.FixedPoints | apps/api/internal/gitworkspace/branch.go:22-33 | a text is its own slug exactly when it is letters and digits with single dashes between, at most 100 long |
| Branch.SanitizeTwice | apps/api/internal/gitworkspace/branch.go:22-38 | the branch without its prefix gives the same branch again |
| Branch.SanitizedIsWords | apps/api/internal/gitworkspace/branch.go:22-33 | for every text the branch is its lower-cased words joined by dashes, shortened to the first hundred characters without a trailing dash; none exactly when there are no words |

## Left out

- SQL, drivers, connection errors and transactions that abort for other reasons: each store method is one atomic step, its error path leaves the tables unchanged, and the clock is a parameter.
- Anything across tasks: the order in which claims pick tasks and skip locked rows, at most one active task per issue, unknown ids, task lists and dashboards, dispatching and marking runners lost.
- Payloads of events, feedback, requester columns and trigger check runs of a revision.
- Goroutines, timers and contexts of an execution: the heartbeat is one lease extension before every store call; a deadline, a stop and a kill are the cuts of an execution's `Fate`, and cancellation by another caller is a stop.
- The agent, the workspace, validation and evidence: an execution's `Fate` says whether each works, and an agent's event is recorded as `agent.event` whatever its type.
- git and GitHub themselves: `Publish.Forge` keeps pull requests and check runs in the order they were made and lists a page of its own choice; posting comments (which a crash can repeat) is not modelled.
- Publisher.Publisher.PublishToGitHub: the events appended between the calls are calls that may fail, but their text is not kept here; conflict detection, the trigger check run and comments around them are not modelled.
- Executor.Executor.Drive: assumes that the executor's attempt is the current one; superseded executors are module StaleExecutors, and Executor.Executor.Transition for a single call.
- LeaseRuns.FencedWritesHoldLease: assumes of its run what `Orderly` lists, among it that a runner releases an attempt only once no execution of its own stands behind a passed fence.
- ConflictStore.Store.ListForTask: the order of the list, latest detection first, is not modelled.
- Executor.Executor.Execute: the trigger check run and a leftover workspace of a finished task, settled between drive and release, are not modelled.
- Executor.Executor.PublishFromWorkspace: what the calls write to GitHub and to the attempt row is module Publisher; a rerun's `updated` in place of `created` and the events of detected conflicts, comments and trigger check runs are not modelled.
- Stream.Connection.StreamDrain: reads one state of the log; growth between batches is in StreamClient.
- StreamClient.ExactDelivery: a frame that fails to parse in the browser, and task switching on one page, are not modelled; the order in which events reach the newest attempt is its assumption.
- Stream.CursorRoundTrip: the browser's numbers lose digits above 2^53, which is not modelled.
- Hunks.RoundTrip: paths that git would quote, or print with a trailing tab, are not modelled; git's output comes without its final newlines.
- Overlap.MigrationPaths: paths are taken as git prints them, without empty, `.` or `..` components, so that cleaning them changes nothing.
- Overlap.FindOverlap: merge conflicts found by git and semantic assessment are added by callers and are not part of this model.
- ConflictStore.Store.Reconcile: ids are numbers in the order of the database's ids, and membership of the repository is a parameter.
- OAuth, sessions, configuration, metrics, tracing and the web interface.
