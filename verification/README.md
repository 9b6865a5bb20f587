# Verification of the open careers runtime's core logic

This project models the parts of the repository whose correctness depends on more than one function: the
process protocols of the managed runtime, the accounting of processes and browsers, the month arithmetic of a
candidate's chronology, the graph and tree traversals behind release checks and document extraction, the scan of
paged job feeds, the planning of form answers, and the final submit action with its crash recovery.

Each module follows one component. Code that changes state step by step is a class or a method, proved against a
specification function or predicate; what the source promises is then proved about the specification, for all
inputs, all runs or all interleavings. `dafny verify dfyconfig.toml` checks everything.

| module | component |
|---|---|
| `RuntimeMutex` | launcher mutual exclusion: port, control record, stale-record recovery, every kill and interleaving |
| `EventLog` | log rotation with a kill between any two file-system calls |
| `RuntimeSupervisor` | sliding-window restart budget, backoff, line framer |
| `OwnedProcesses` | ownership of a process tree over repeated censuses |
| `BrowserResources` | capacity counters under interleaved launches, closes and disconnects |
| `Chronology` | union of month intervals and the chronology built on it |
| `SubmissionDb`, `SubmissionProtocol`, `SubmissionRecovery` | the submit transactions, every run of workers and employer over them, reconciliation and late arrivals |
| `SubmissionQueue`, `SubmissionFences`, `SubmissionCapacity`, `SubmissionRules` | exclusive leases, what their fences name, how many there are, and what each transaction needs |
| `SubmissionCrash`, `SubmissionOutcome`, `SubmissionDoubt` | what an abandoned lease left, what recovery makes of it, and how doubt about it ends |
| `SubmissionWitness` | runs that show the failures stated below |
| `ReleaseSbom` | bill-of-materials validation, reachability, canonical form |
| `BundleVerification` | manifest parsing, bounded tree walk, exactness of a verified bundle |
| `PollSource`, `Breezy` | paged feed scan; board scan with its stack traversal of vacancy pages |
| `Docx`, `DocxContent` | document walk, locators, collector limits; what an extraction must hold, element by element |
| `FieldPlan` | form field planning and the evidence guard |
| `Outcome`, `Collections`, `Sorting`, `TextOrder` | shared results, sequence facts, a stable sort, string order |

Results that differ from what one might expect of the code:

- A launcher killed, or failing, between creating and filling the control record leaves an empty file that no later launcher can recover (`RuntimeMutex.WedgesExactlyWhen`, `WedgedForever`); `ClaimableWhen` says exactly when an idle installation can be claimed.
- A kill inside a log rotation can cost an archive, so that less than three full ones remain after something was dropped; `EventLog.PromiseSurvivesExactly` says which kills are harmless.
- A clock that is set back can break the spacing of restarts; `RuntimeSupervisor.SpacedExactlyWhen` says exactly when.
- A permit is checked before the button is pressed, so an application can still arrive after the permit ran out, after its worker was killed and after a reconciliation found nothing; `SubmissionWitness.RecordArrivesAfterReview` is such a run, and `SubmissionRecovery.SilenceIsFinalWhenLanded` says exactly when finding no record is final.
- A submit whose definitive rejection was recorded but not yet acknowledged goes back to the queue when its lease runs out, although nothing can be submitted for it again (`SubmissionWitness.RejectedIsRetried` is such a run; `SubmissionOutcome.ReplacementBeginsExactlyWhen`, `SubmissionDoubt.IntentIsNotReplayed`).
- Recovery follows the application, not the intent: when another repository moves a leased application into review, recovery cancels the submit and queues a reconciliation although no intent was recorded, or the one recorded was aborted or definitively rejected (`SubmissionWitness.MovedBeforeIntent`, `MovedAfterAbort`, `MovedAfterRejection`; packages/persistence/src/document-repository.ts:369-380 makes such a move). `SubmissionOutcome.FollowsIntentExactlyWhen` says exactly when recovery does what the intent calls for.
- With repeated answer keys a form can be filled with an answer to another question; `FieldPlan.AnsweredAsAskedExactly` says exactly when.
- `unionMonths` needs no well-ordered ranges: an inverted range covers nothing and adds nothing.

## Model

| member | source | states |
|---|---|---|
| RuntimeMutex.MutualExclusion | apps/worker/src/managed-runtime.ts:155-191 | in every run of launchers and kills at most one is inside the supervised run, it owns the port, and the record on disk is its own until it removes it |
| RuntimeMutex.LiveRecordsAreSafe | apps/worker/src/managed-runtime.ts:163-190 | a record naming a live launcher is only ever changed by that launcher, in its own token-checked unlink |
| RuntimeMutex.RunKeepsInv | apps/worker/src/managed-runtime.ts:155-191 | what every step keeps: port holder, disk record, recorded process ids and the record under judgement agree |
| RuntimeMutex.WedgesExactlyWhen | apps/worker/src/managed-runtime.ts:177-178 | the record file is left blank exactly when the launcher filling it is killed or fails to write |
| RuntimeMutex.KillCanWedge | apps/worker/src/managed-runtime.ts:155-178 | a run from an empty disk in which that happens |
| RuntimeMutex.WedgedForever | apps/worker/src/managed-runtime.ts:163-178 | once the record file is blank with nobody filling it, it stays blank and no launcher ever runs again |
| RuntimeMutex.ClaimableWhen | apps/worker/src/managed-runtime.ts:155-179 | a launcher alone claims an idle installation exactly when the disk has no blank record and no record whose process id is in use |
| RuntimeMutex.ClaimantCleansUp | apps/worker/src/managed-runtime.ts:179-191 | a launcher inside the supervised run that is not killed and whose calls succeed is gone within six calls, whatever others do, and has removed its own record, which never comes back, and freed the port |
| RuntimeMutex.NextOneClaims | apps/worker/src/managed-runtime.ts:155-191 | so a launcher that ran leaves an idle installation without a record, which the next one claims |
| RuntimeMutex.FailedCallEndsTheAttempt | apps/worker/src/managed-runtime.ts:155-191 | a failed call changes nothing on disk and, before the claim, ends the attempt, as does a record that vanished while it was judged |
| EventLog.Log.Rename | apps/worker/src/managed-runtime.ts:110-123 | after a rename the target holds the source's old lines, the source is gone and every other file is as it was |
| EventLog.Log.Event | apps/worker/src/managed-runtime.ts:110-123 | killed after any number of its calls, the event leaves exactly the disk of that stage |
| EventLog.RotationMovesLines | apps/worker/src/managed-runtime.ts:112-119 | which file holds which lines after each call of a rotation |
| EventLog.RotatesExactlyWhen | apps/worker/src/managed-runtime.ts:110-123 | a completed event moves the archives exactly when the current log's contents have reached 1 MiB, and appends otherwise |
| EventLog.CurrentStaysShort | apps/worker/src/managed-runtime.ts:110-123 | after a completed event the current log is shorter than 1 MiB and the new line |
| EventLog.DiskStaysBounded | apps/worker/src/managed-runtime.ts:110-123 | over any history, killed at any points, all files together stay below four times 1 MiB and the longest line |
| EventLog.StageKeepsNewest | apps/worker/src/managed-runtime.ts:110-123 | between any two calls the files, oldest first, are a suffix of what there was plus the new line if it was written |
| EventLog.RetainsNewest | apps/worker/src/managed-runtime.ts:110-123 | over any sequence of events and kills, the files are a suffix of the whole history in order |
| EventLog.HarmlessKeepsPromise | apps/worker/src/managed-runtime.ts:110-123 | over any events whose kills are harmless, nothing was dropped or all three archives are full |
| EventLog.ArchivesStayFullWhen | apps/worker/src/managed-runtime.ts:110-123 | an event keeps full archives full exactly when no rotation was due or it was killed before its first call or after its last rename |
| EventLog.PromiseSurvivesExactly | apps/worker/src/managed-runtime.ts:110-123 | a kill can never cost the promise, whatever is recorded afterwards, exactly when it is harmless |
| EventLog.DropsOnlyWhenFull | apps/worker/src/managed-runtime.ts:110-123 | with harmless kills or none, once anything is dropped at least 3 MiB of archives remain |
| EventLog.KillCostsAnArchive | apps/worker/src/managed-runtime.ts:110-123 | the shortest loss: a kill after the first rename and one event later a whole file is gone |
| RuntimeSupervisor.RestartBudget.Admit | apps/worker/src/runtime-supervisor.ts:207-214 | a restart is admitted exactly when the pruned window holds fewer than the limit, and the queue becomes the pruned one plus the admitted restart |
| RuntimeSupervisor.PrunedQueueIsRecent | apps/worker/src/runtime-supervisor.ts:207-212 | shifting old entries from the front leaves exactly the restarts of the last window |
| RuntimeSupervisor.SuperviseSound | apps/worker/src/runtime-supervisor.ts:165-219 | what holds after every request: the queue tracks the history, is ordered, within the limit, and spaced |
| RuntimeSupervisor.BudgetIsExact | apps/worker/src/runtime-supervisor.ts:165-219 | with a non-decreasing clock the budget is exhausted exactly when the last window holds the limit, and any limit + 1 consecutive restarts span the window |
| RuntimeSupervisor.SpacedExactlyWhen | apps/worker/src/runtime-supervisor.ts:207-212 | for any clock, the admitted restarts are spaced exactly when no restart seen to expire is back inside the window limit restarts later |
| RuntimeSupervisor.ClockSetBackBreaksSpacing | apps/worker/src/runtime-supervisor.ts:207-212 | such a clock exists: concrete times where three restarts fall within one window |
| RuntimeSupervisor.BackoffGrows | apps/worker/src/runtime-supervisor.ts:215-219 | waits grow with each restart in the window and stay between the base wait and one minute |
| RuntimeSupervisor.BackoffDoubles | apps/worker/src/runtime-supervisor.ts:215-219 | the first wait is the base wait, and each later one twice the one before, up to a minute |
| RuntimeSupervisor.LineFramer.Data | apps/worker/src/runtime-supervisor.ts:90-115 | one chunk delivers the complete lines of pending text plus chunk and keeps the rest, or clears everything when over the bound |
| RuntimeSupervisor.LinesAndRestRebuild | apps/worker/src/runtime-supervisor.ts:90-115 | lines and rest rebuild the text |
| RuntimeSupervisor.LinesSplit | apps/worker/src/runtime-supervisor.ts:90-115 | framing text in two parts is framing the rest of the first with the second |
| RuntimeSupervisor.Feed | apps/worker/src/runtime-supervisor.ts:90-115 | pending text never holds a newline nor exceeds the bound |
| RuntimeSupervisor.ChunkingIsInvisible | apps/worker/src/runtime-supervisor.ts:90-115 | however output is cut, without a trip exactly its complete lines are delivered in order |
| RuntimeSupervisor.TripRestarts | apps/worker/src/runtime-supervisor.ts:90-115 | after a trip the framer behaves as if freshly started |
| OwnedProcesses.OwnedProcessTracker.Forget | scripts/owned-processes.ts:125-127 | owned identities that are gone or whose pid was reused are forgotten, and the root is owned |
| OwnedProcesses.OwnedProcessTracker.Pass | scripts/owned-processes.ts:130-141 | one pass stays within the least owned set, grows when it reports a change and is closed when it reports none |
| OwnedProcesses.OwnedProcessTracker.Grow | scripts/owned-processes.ts:128-143 | the fixpoint loop ends with exactly the least closed set, and refuses exactly when that set has more than 1000 members |
| OwnedProcesses.OwnedProcessTracker.Total | scripts/owned-processes.ts:144-147 | the sum is that of the owned set's memory |
| OwnedProcesses.OwnedProcessTracker.Sample | scripts/owned-processes.ts:115-159 | the whole new state and report, or the refusal, of one sample |
| OwnedProcesses.OwnedProcessTracker.SampleCensus | scripts/owned-processes.ts:122-159 | the same for a census that passed its checks |
| OwnedProcesses.ClosureIsLeast | scripts/owned-processes.ts:115-143 | the owned set is the least set with the seed that is closed under proper parent links |
| OwnedProcesses.MemoryTotalIsSafe | scripts/owned-processes.ts:10-22 | with at most 1000 processes of at most 8 TiB the total stays below 2^53 |
| OwnedProcesses.NewOwnerIsParent | scripts/owned-processes.ts:131-141 | a process becomes owned exactly when it is a proper child of another owned one, so a reused pid inherits nothing |
| OwnedProcesses.StartOrder | scripts/owned-processes.ts:136 | start times compare by length without leading zeros, then as text |
| OwnedProcesses.ChildrenAreOwned | scripts/owned-processes.ts:124-143 | after a sample a process not owned already is owned exactly when the process listed as its parent is another owned one that started no later |
| OwnedProcesses.AcceptedExactlyWhen | scripts/owned-processes.ts:10-22 | a census is taken exactly when it is valid, repeats no pid and lists the root with its start and some memory |
| OwnedProcesses.OversizedIsRefused | scripts/owned-processes.ts:142 | a sample is refused for its size exactly when more than 1000 processes are owned |
| OwnedProcesses.OrphanStaysOwned | scripts/owned-processes.ts:124-127 | an owned process still listed stays owned whatever its parent |
| OwnedProcesses.AcceptedInAnyOrder | scripts/owned-processes.ts:115-123 | which census a list stands for, or its refusal, does not depend on its order |
| OwnedProcesses.SampleInAnyOrder | scripts/owned-processes.ts:115-159 | the result of a sample does not depend on census order, nor does the new state unless the sample was refused for too many processes |
| OwnedProcesses.OwnershipIsDescent | scripts/owned-processes.ts:103-159 | over any sequence of samples every owned identity has a chain of observed parent links back to the root |
| OwnedProcesses.PeaksBoundReports | scripts/owned-processes.ts:150-158 | peaks bound every earlier report |
| BrowserResources.BrowserResources.BeginLaunch | packages/browser/src/resources.ts:66-68 | a launch is let in exactly when live plus opening is below the limit |
| BrowserResources.BrowserResources.FinishLaunch | packages/browser/src/resources.ts:70-88 | the counters and callbacks after a successful launch, including a browser already disconnected |
| BrowserResources.BrowserResources.FailLaunch | packages/browser/src/resources.ts:83-88 | the counters after a failed launch |
| BrowserResources.BrowserResources.BeginContext | packages/browser/src/resources.ts:92-94 | a context is let in exactly when live plus opening is below the limit |
| BrowserResources.BrowserResources.FinishContext | packages/browser/src/resources.ts:96-115 | the counters and callbacks after an opened context |
| BrowserResources.BrowserResources.FailContext | packages/browser/src/resources.ts:110-115 | the counters after a failed context |
| BrowserResources.BrowserResources.CloseContext | packages/browser/src/resources.ts:99-106 | closing fires the context's own callback once |
| BrowserResources.BrowserResources.Disconnect | packages/browser/src/resources.ts:74-81 | a disconnection fires every callback still waiting on that browser |
| BrowserResources.RunKeepsInv | packages/browser/src/resources.ts:62-116 | in every interleaving counters equal the callbacks still waiting and the calls still pending |
| BrowserResources.CapacityHolds | packages/browser/src/resources.ts:62-116 | live plus opening never exceeds the limit, nothing goes negative, peaks bound and are bounded |
| BrowserResources.ReleasedExactlyOnce | packages/browser/src/resources.ts:74-105 | no callback counts down twice, and every launch is live or released |
| BrowserResources.NothingLeaks | packages/browser/src/resources.ts:62-116 | when all browsers have disconnected and no call is pending all four live counters are zero |
| BrowserResources.CanAlwaysDrain | packages/browser/src/resources.ts:62-116 | from any sound state some events lead to four zero live counters: nothing pending or open can get stuck |
| Chronology.UnionMonths | packages/candidate/src/domain.ts:31-40 | the size of the union of the month intervals, for any ranges in any order |
| Chronology.MonthsAreTheCovered | packages/candidate/src/domain.ts:31-40 | the union holds exactly the months some range covers |
| Chronology.SweepStep | packages/candidate/src/domain.ts:35-38 | one sweep step adds exactly the months past the end reached so far |
| Chronology.TextOrderIsMonthOrder | packages/candidate/src/domain.ts:29-30 | comparing month texts as strings is comparing month numbers |
| Chronology.MonthsCountUp | packages/candidate/src/domain.ts:29-30 | month numbers count the months from January of year 0, one for each next month in the calendar |
| Chronology.WorkedExactly | packages/candidate/src/domain.ts:41-60 | a month is counted exactly when reliable employment of the workload covers it and neither starts nor ends in the future |
| Chronology.PeriodFlaggedExactly | packages/candidate/src/domain.ts:49-62 | which dates are reported: in the future, or ending before they start |
| Chronology.TechnologyFlaggedExactly | packages/candidate/src/domain.ts:24-28 | which skills are reported: python used before 1991-02 and react before 2013-05 |
| Chronology.WorkedWithinPast | packages/candidate/src/domain.ts:49-60 | counted months lie between month 0 and the as-of month |
| Chronology.Inspect | packages/candidate/src/domain.ts:47-68 | a fact is reported exactly when its period is impossible or its skill predates the technology |
| Chronology.ChronologyOf | packages/candidate/src/domain.ts:41-75 | totals are the sizes of the worked month sets, a month in both workloads counts once in the total, and exactly the faulty facts are reported |
| SubmissionDb.Best | packages/persistence/src/repository.ts:369-374 | the task leased is an eligible one of highest priority, the oldest of those |
| SubmissionDb.Grounded | packages/persistence/src/repository.ts:291-294 | recovery leaves no attempt of the application flying, and changes no other attempt |
| SubmissionDb.Latest | packages/persistence/src/submission-repository.ts:770-775 | the latest attempt of the application |
| SubmissionProtocol.BeginKeeps | packages/persistence/src/submission-repository.ts:82-268 | one intent and one undispatched attempt bound to it are added, and every earlier attempt of the application was blocked undispatched |
| SubmissionProtocol.AuthorizeKeeps | packages/persistence/src/submission-repository.ts:330-437 | an attempt is authorised only if it was not dispatched, and then never again |
| SubmissionProtocol.AbortKeeps | packages/persistence/src/submission-repository.ts:270-328 | only an undispatched flying attempt is blocked, and it alone changes |
| SubmissionProtocol.ConfirmKeeps | packages/persistence/src/submission-repository.ts:439-514 | a confirmation adds exactly one receipt, for the attempt it names |
| SubmissionProtocol.RejectKeeps | packages/persistence/src/submission-repository.ts:701-748 | a rejection adds no receipt and keeps the invariant |
| SubmissionProtocol.ReconcileWith | packages/persistence/src/submission-repository.ts:760-863 | reconciling with evidence keeps the whole system sound |
| SubmissionProtocol.ReconcileWithout | packages/persistence/src/submission-repository.ts:760-863 | so does reconciling without |
| SubmissionProtocol.RecoverKeeps | packages/persistence/src/repository.ts:272-336 | recovering a task keeps the invariant and undoes nothing |
| SubmissionProtocol.ClaimKeeps | packages/persistence/src/repository.ts:338-394 | so does a claim with the recoveries it makes |
| SubmissionProtocol.FailKeeps | packages/persistence/src/repository.ts:497-534 | so does a failed task |
| SubmissionProtocol.CompleteKeeps | packages/persistence/src/repository.ts:425-454 | so does an acknowledged one |
| SubmissionProtocol.CheckStep | packages/browser/src/commit-mock.ts:83-85 | only an unexpired permit lets a worker go on to press, and checking sends nothing |
| SubmissionProtocol.PressStep | packages/browser/src/commit-mock.ts:86-91 | a press sends the application of an attempt that was never pressed before |
| SubmissionProtocol.ArriveStep | packages/browser/src/commit-mock.ts:91-92 | the employer gains at most what was in flight, for an attempt it has no record of |
| SubmissionProtocol.SeeStep | packages/browser/src/commit-mock.ts:92-130 | what a worker reads off the page is true: a receipt is its application's record, a rejection left none |
| SubmissionProtocol.StepProgresses | apps/worker/src/main.ts:217-361 | every step of every worker, controller or kill keeps the invariant, only adds rows, and the employer forgets nothing |
| SubmissionProtocol.RunKeepsInv | apps/worker/src/main.ts:217-361 | the invariant holds in every run |
| SubmissionProtocol.AtMostOneFinalAction | scripts/commit-crash-run.ts:178-195 | in every run, of two attempts of one application the earlier was blocked and never dispatched |
| SubmissionProtocol.AtMostOneRecord | scripts/commit-crash-run.ts:197-209 | in every run the employer holds at most one record per application |
| SubmissionProtocol.ConfirmationIsTrue | scripts/capacity-fixture.ts:338-434 | a confirmed application has exactly one receipt, and it names a record the employer holds of it |
| SubmissionRecovery.DispatchIsFinal | scripts/commit-crash-run.ts:177-195 | after a dispatch, no redelivery under any key gives the application another attempt |
| SubmissionRecovery.FinalIsNeverClaimed | packages/persistence/src/repository.ts:369-373 | a submit is never leased for an application whose outcome is decided or in doubt |
| SubmissionRecovery.ReconciliationDecides | packages/persistence/src/submission-repository.ts:760-863 | looking up and reconciling confirms exactly when the employer holds the application's record, adding one receipt |
| SubmissionRecovery.StepStaysLanded | packages/browser/src/commit-mock.ts:83-92 | once nobody can press for a decided or doubtful attempt and nothing of it is in flight, that stays so and no record of it appears |
| SubmissionRecovery.LandedStaysSilent | packages/browser/src/commit-mock.ts:83-92 | then no continuation brings a record |
| SubmissionRecovery.SilenceIsFinalWhenLanded | packages/browser/src/commit-mock.ts:83-92 | finding no record is final exactly when no unexpired permit is left, nobody is past the expiry check and nothing is in flight |
| SubmissionRecovery.SentAfterCheck | packages/browser/src/commit-mock.ts:83-91 | in every run nothing is pressed, in flight or recorded without an earlier check that found its permit unexpired |
| SubmissionRecovery.RecordIffArrived | packages/browser/src/commit-mock.ts:91-104 | in every run the employer holds a record of an attempt exactly when what was sent for it arrived and was accepted |
| SubmissionQueue.LeasesExclude | packages/persistence/src/repository.ts:338-394 | in every run at most one leased task touches any application or domain, no fence is ahead of the counter, and a reconciliation key stands for a cancelled submit |
| SubmissionRules.StaleWorkerChangesNothing | packages/persistence/src/repository.ts:396-404 | a worker whose lease ran out or was taken over changes nothing in the database |
| SubmissionRules.WorkerTouchesOnlyItsOwn | packages/persistence/src/submission-repository.ts:82-863 | whatever a worker does, it writes nothing but its own task and the rows of that task's application, and at most adds to the queue |
| SubmissionRules.PausedStepSendsNothing | packages/persistence/src/submission-repository.ts:330-437 | while submissions are paused or stopped, no step adds an attempt or authorises a dispatch |
| SubmissionRules.LiftingKeepsTheQueue | packages/persistence/src/repository.ts:95-121 | lifting a pause changes no task |
| SubmissionRules.SettledIsCompleted | packages/persistence/src/repository.ts:316-330 | recovering a submit that is confirmed, or was stopped under this very lease, completes it |
| SubmissionRules.OtherwiseTriedAgain | packages/persistence/src/repository.ts:321-333 | any other task without doubt is cancelled if so asked, else tried again at once while it has attempts left, else dead |
| SubmissionRules.DoubtIsReconciled | packages/persistence/src/repository.ts:281-315 | a submit in doubt is cancelled and a reconciliation of it is queued |
| SubmissionRules.ReconciliationIsUrgent | packages/persistence/src/repository.ts:301-310 | that reconciliation is due at once, with priority 100 and four attempts |
| SubmissionRules.PauseStopsSubmissions | packages/persistence/src/repository.ts:95-121 | pausing or stopping takes every submit out of its lease |
| SubmissionRules.BeginExactly | packages/persistence/src/submission-repository.ts:82-268 | when an intent is recorded, and every row it writes |
| SubmissionRules.AuthorizeExactly | packages/persistence/src/submission-repository.ts:330-437 | when a dispatch is authorised, and that it alone is marked |
| SubmissionRules.ConfirmExactly | packages/persistence/src/submission-repository.ts:439-514 | when a receipt is confirmed, and every row that changes |
| SubmissionRules.ReconcileExactly | packages/persistence/src/submission-repository.ts:760-863 | when a reconciliation decides, and every row that changes |
| SubmissionRules.CompleteExactly | packages/persistence/src/repository.ts:425-454 | a task is acknowledged exactly under a lease in force and, for a submit, once its outcome is settled |
| SubmissionRules.FailExactly | packages/persistence/src/repository.ts:497-534 | a failed task is retried after its delay while it may be, and a submit in doubt is recovered |
| SubmissionRules.RenewExactly | packages/persistence/src/repository.ts:405-423 | a lease is extended exactly while it is in force and its kind of work is not paused |
| SubmissionRules.EnqueueExactly | packages/persistence/src/repository.ts:219-251 | a task is queued, fresh and unleased, exactly when its key is not queued yet |
| SubmissionRules.CancelExactly | packages/persistence/src/repository.ts:456-474 | cancelling leaves an ended task alone, refuses a reconciliation, and takes any other task out of the queue |
| SubmissionRules.GrantExactly | packages/persistence/src/repository.ts:375-392 | a grant gives a task a new fence and one more attempt, and a submit's application that fence, and nothing else changes |
| SubmissionRules.MoveExactly | packages/persistence/src/document-repository.ts:369-380 | other repositories may write any state of an application but in flight and confirmed |
| SubmissionCrash.RowsTellTheStory | scripts/commit-crash-run.ts:113-135 | in every run, while a submit lease stands and no other repository moves its application, the rows tell exactly what the lease did |
| SubmissionCrash.RecoveryFollowsIntent | scripts/commit-crash-run.ts:113-144 | while no other repository moves its application, an expired submit lease is retried exactly when no intent of it was recorded or it was definitively rejected, reconciled exactly when in doubt, and completed otherwise |
| SubmissionFences.FencesNameLeases | packages/persistence/src/repository.ts:338-394 | in every run a fence names one lease: at most one attempt is recorded under it, for the task leased at it, and the leases workers hold differ |
| SubmissionFences.StepKeepsFences | packages/persistence/src/repository.ts:338-394 | every step keeps that |
| SubmissionOutcome.RecoveryFollowsTheApplication | packages/persistence/src/repository.ts:272-334 | whatever other repositories did, recovery reconciles exactly when the application is uncertain, completes exactly when it is confirmed or unsupported after an abort under this lease, and otherwise retries or gives up after the last attempt |
| SubmissionOutcome.FollowsIntentExactlyWhen | scripts/commit-crash-run.ts:113-144 | in every run, whatever other repositories did, recovery does what the intent calls for exactly when the application still agrees with the attempt recorded under the lease |
| SubmissionOutcome.ReviewUnsettles | packages/persistence/src/document-repository.ts:369-380 | a move into review after an abort or a definitive rejection makes recovery cancel the submit and reconcile it with nothing in doubt |
| SubmissionOutcome.UnrecordedIsRetriedExactlyWhen | packages/persistence/src/repository.ts:272-334 | without an intent, whatever other repositories do, the task is retried exactly when its application was not moved into an uncertain or confirmed state |
| SubmissionOutcome.RightWorkIsOffered | scripts/commit-crash-run.ts:113-137 | whatever other repositories did, the right task can be claimed at once after recovery: a submit to be retried exactly when its application is not decided or in doubt, and a fresh reconciliation whenever the submit was cancelled |
| SubmissionOutcome.ClaimTakesTheMostUrgent | packages/persistence/src/repository.ts:364-374 | a claim with free capacity takes work at least as urgent as any that recovery left claimable |
| SubmissionCapacity.ClaimGrantsExactlyWhen | packages/persistence/src/repository.ts:338-374 | a claim grants a lease exactly when, after recovery, fewer tasks are leased than it may lease at once and some task is eligible |
| SubmissionCapacity.LeasesStayWithin | packages/persistence/src/repository.ts:364-367 | in every run whose claims ask for at most c leases at once, at most c tasks are leased at any moment |
| SubmissionOutcome.ReplacementBeginsExactlyWhen | packages/persistence/src/submission-repository.ts:82-268 | a replacement that leases the submit again has a larger fence, and can begin exactly when the application was ready, at the expected revision and without a final action |
| SubmissionOutcome.RetryStandsWhereTheFirstStood | scripts/commit-crash-run.ts:113-127 | while no other repository moves the application, a replacement that leases the task again before any intent can begin whatever the first worker could |
| SubmissionDoubt.DoubtLastsUntilReconciled | scripts/commit-crash-run.ts:136-175 | in every run, whatever other repositories do, doubt about an attempt lasts until it is accepted on a record the employer holds; while they do not move the application, it shows which of the two holds |
| SubmissionDoubt.ReconciliationFollowsTheRecord | scripts/commit-crash-run.ts:153-175 | whatever happens between lookup and decision, reconciling an attempt in doubt confirms with one receipt exactly when the employer held the record at the lookup, and asks for review otherwise |
| SubmissionDoubt.RecoveryLeavesDoubt | packages/persistence/src/repository.ts:281-315 | while no other repository moves the application, the claim that recovers a lease with an intent in doubt leaves attempt and application in doubt |
| SubmissionDoubt.CrashedSubmitIsReconciled | scripts/commit-crash-run.ts:60-175 | while no other repository moves the application: from a lease whose worker is gone, through its recovery, a lookup and a decision, however they interleave with the rest, the application is confirmed exactly when the employer held its record at the lookup or an earlier reconciliation had confirmed it, and is up for review otherwise |
| SubmissionDoubt.RecoveryEndsTheLease | packages/persistence/src/repository.ts:338-362 | the claim that recovers an expired lease ends it for the attempt recorded under it |
| SubmissionDoubt.IntentIsNotReplayed | scripts/commit-crash-run.ts:128-196 | in every run, whatever other repositories do, an attempt not blocked when its lease is over stays the application's last, under any queue keys |
| SubmissionDoubt.NoSecondAttempt | scripts/commit-crash-run.ts:177-195 | an application with a final action gets no other attempt in any continuation |
| SubmissionWitness.CrashHappens | scripts/commit-crash-run.ts:60-113 | a run in which the worker of a fresh installation is killed once its intent is recorded |
| SubmissionWitness.RecordArrivesAfterReview | packages/browser/src/commit-mock.ts:83-92 | a run in which the record arrives after the permit ran out, the worker was killed and a reconciliation that found nothing put the application up for review |
| SubmissionWitness.RejectedIsRetried | packages/persistence/src/repository.ts:321-331 | a run in which a rejection is recorded, its worker dies before acknowledging it, and the submit goes back to the queue |
| SubmissionWitness.MovedBeforeIntent | packages/persistence/src/repository.ts:281-315 | a run in which the application is moved into review under a lease without intent and a reconciliation is queued |
| SubmissionWitness.MovedAfterAbort | packages/persistence/src/repository.ts:281-315 | the same after an abort before dispatch |
| SubmissionWitness.MovedAfterRejection | packages/persistence/src/repository.ts:281-315 | the same after a recorded rejection |
| ReleaseSbom.Register | scripts/release-sbom-validation.ts:101-112 | succeeds exactly when every identity is valid and no two share a reference, and maps each reference to its component |
| ReleaseSbom.CheckComponents | scripts/release-sbom-validation.ts:113-133 | reports the first fault among components, their registry addresses and checksums |
| ReleaseSbom.NoFault | scripts/release-sbom-validation.ts:113-133 | there is none exactly when every component is a library with valid distributions |
| ReleaseSbom.BuildGraph | scripts/release-sbom-validation.ts:134-144 | succeeds exactly when rows are unique and name only known references, with links sorted |
| ReleaseSbom.CheckRootLinks | scripts/release-sbom-validation.ts:146-159 | holds exactly when the linked components are the declared dependencies, one each, at exact versions where given |
| ReleaseSbom.RootLinksAreTheManifest | scripts/release-sbom-validation.ts:146-159 | in an accepted bill the names linked from the root are exactly the declared ones |
| ReleaseSbom.LinkedVersionsAreDeclared | scripts/release-sbom-validation.ts:146-159 | in an accepted bill every component the root links to is declared, an optional declaration first, and has the declared version where that is exact |
| ReleaseSbom.MatchingLinksAreAccepted | scripts/release-sbom-validation.ts:146-159 | links that each match their declaration, one for each, are accepted |
| ReleaseSbom.IdentityExactly | scripts/release-sbom-validation.ts:82-110 | an identity is valid exactly when its reference is the package address of its name and version |
| ReleaseSbom.RegistryExactly | scripts/release-sbom-validation.ts:116-128 | a distribution is accepted exactly at its component's address in the public registry |
| ReleaseSbom.ChecksumExactly | scripts/release-sbom-validation.ts:129-131 | a checksum has as many hexadecimal digits as its algorithm has bits, by four |
| ReleaseSbom.CanonicalNamesItsInputs | scripts/release-sbom-validation.ts:174-182 | a canonical bill carries both digests and its scope under their names |
| ReleaseSbom.Visit | scripts/release-sbom-validation.ts:160-167 | the work list ends with exactly the references the root reaches, whatever cycles or repeats there are |
| ReleaseSbom.NormalizeReleaseSbom | scripts/release-sbom-validation.ts:86-197 | reports the first fault in order, or returns the canonical bill; accepts only when every component is reached |
| ReleaseSbom.AcceptedInAnyOrder | scripts/release-sbom-validation.ts:86-197 | inputs differing in the order of components, rows or links are accepted alike |
| ReleaseSbom.CanonicalInAnyOrder | scripts/release-sbom-validation.ts:185-196 | and give the same output |
| ReleaseSbom.RenormalizingIsIdentity | scripts/windows-bundle.ts:63-68 | normalising an accepted bill again with binding required succeeds and changes nothing |
| ReleaseSbom.StaleBindingIsRefused | scripts/release-sbom-validation.ts:174-183 | a bill bound to another lockfile or manifest digest is refused |
| BundleVerification.ParseManifest | scripts/bundle-verification.ts:99-147 | succeeds exactly when entries are valid, distinct after case folding, within 128 MiB together and complete; the total is their sum |
| BundleVerification.WalkTree | scripts/bundle-verification.ts:230-248 | succeeds exactly when everything under dist is a directory or a listed regular file, not too deep, at most 4000 nodes; the visited bound is never what stops it |
| BundleVerification.VerifyWindowsBundle | scripts/bundle-verification.ts:203-261 | succeeds exactly when the manifest is valid and as expected, every entry matches and the tree is clean |
| BundleVerification.VerifiedIsExact | scripts/bundle-verification.ts:213-248 | then the regular files under dist are exactly the manifest's paths under dist, and every declared file has its size and digest |
| BundleVerification.ManifestOkExactly | scripts/bundle-verification.ts:73-147 | when a manifest is valid: header, number of entries, paths, sizes, digests, collisions, total and required paths |
| BundleVerification.DeclaredExactly | scripts/bundle-verification.ts:204-213 | which manifest a bundle declares: a regular file of at most 1 MiB with the expected digest |
| BundleVerification.IntactExactly | scripts/bundle-verification.ts:213-248 | a bundle is intact exactly when every entry has its size and digest and the tree under dist is allowed and of at most 4000 nodes |
| BundleVerification.AtExactly | scripts/bundle-verification.ts:149-168 | a file is found at a path exactly when the path leads to it through directories, never through a link |
| BundleVerification.CleanExactly | scripts/bundle-verification.ts:230-248 | a tree is clean exactly when every node in it is a directory or a listed regular file, at most 40 levels deep |
| BundleVerification.SplitJoins | scripts/bundle-verification.ts:149-155 | splitting a path at slashes loses nothing |
| PollSource.PollSource | packages/discovery/src/connectors.ts:285-402 | the scan's batch, or failure with the pages read so far, turn by turn |
| PollSource.AddJobs | packages/discovery/src/connectors.ts:372-382 | succeeds exactly when no posting repeats, and warns of exactly the short descriptions |
| PollSource.BatchesAreSound | packages/discovery/src/connectors.ts:285-402 | a batch holds exactly the jobs of its pages in order, no posting twice, within the byte bound, read to the first short page |
| PollSource.HeldFrom | packages/discovery/src/connectors.ts:357-365 | every job's evidence page is one that was read and holds its posting |
| PollSource.ScanReturnsTheList | packages/discovery/src/connectors.ts:303-392 | a fixed list served in slices of 100 is returned in order after floor(n/100)+1 reads, exactly when it is below 10000, distinct and within bounds |
| PollSource.SingleRead | packages/discovery/src/connectors.ts:303-392 | a source that is not paged is read once, and what its reply makes of the scan: time, bytes, status, unchanged, parse, repeats |
| PollSource.RedirectedRead | packages/discovery/src/connectors.ts:334-346 | Workable's redirect is followed to the account's own widget and nowhere else, within the bytes of both replies |
| Breezy.FindPosting | packages/discovery/src/breezy.ts:47-68 | the stack traversal finds exactly the postings the recursive walk finds, within the node bound |
| Breezy.BreezyDescription | packages/discovery/src/breezy.ts:41-83 | a description is given exactly for the one posting that identifies the listed item |
| Breezy.Get | packages/discovery/src/breezy.ts:99-123 | a read succeeds exactly within pages, time and bytes and with status 200, and is recorded as evidence |
| Breezy.ScanItem | packages/discovery/src/breezy.ts:129-173 | an item succeeds exactly when it is valid, new and described by its own page |
| Breezy.ScanItems | packages/discovery/src/breezy.ts:128-173 | all items succeed exactly when each does, one job per item in order |
| Breezy.PollBreezy | packages/discovery/src/breezy.ts:85-186 | a scan succeeds exactly when list and items are well and the list is unchanged at the end; the 200-page limit never stops it |
| Breezy.ScriptsExactly | packages/discovery/src/breezy.ts:52-66 | the values found are those of exactly the data scripts of the tree, wherever they are |
| Breezy.IsScriptExactly | packages/discovery/src/breezy.ts:52-56 | a data script is a script element with the data type among its attributes, in any case |
| Breezy.TheOnlyPostingExactly | packages/discovery/src/breezy.ts:45-69 | a page has a posting exactly when its scripts hold one, none is malformed and the page is within 100,000 nodes |
| Breezy.DescribedExactly | packages/discovery/src/breezy.ts:41-83 | a page describes an item exactly when its one posting is of the item, under the board's own origin |
| Breezy.ItemOkExactly | packages/discovery/src/breezy.ts:131-141 | an item is valid exactly when it is of the board, links to itself there, and its id starts its friendly id |
| Breezy.ReadsInOrder | packages/discovery/src/breezy.ts:126-176 | a scan reads the list, the page of each item, and the list again |
| Breezy.ScannableExactly | packages/discovery/src/breezy.ts:108-176 | its limits: 198 items, and 32 MiB over all reads |
| Docx.TextOf | packages/candidate/src/extract.ts:126-145 | within the nesting limit the text is the plain text of the nodes |
| Docx.ShallowHasText | packages/candidate/src/extract.ts:126-127 | the text limit is never exceeded where the walk's is not |
| Docx.Collector.Add | packages/candidate/src/extract.ts:23-28 | a block is taken exactly within the limits, and dropped when it says nothing |
| Docx.Walk | packages/candidate/src/extract.ts:169-204 | the walk offers exactly the blocks of the nodes in order, and fails exactly on nesting or collector limits |
| Docx.WalkElement | packages/candidate/src/extract.ts:173-203 | the same for one element: its own block before those below it |
| Docx.Extract | packages/candidate/src/extract.ts:146-211 | extraction succeeds exactly when all parts parse, are shallow and fit and no locator kept is longer than 2000 characters; its blocks, warnings and readability |
| Docx.BlocksLeadBack | packages/candidate/src/extract.ts:172-197 | every locator, followed from its part's root, leads back to the element that gave the block |
| Docx.BlocksInOrder | packages/candidate/src/extract.ts:172-203 | blocks come out in document order |
| Docx.LocatorsDistinct | packages/candidate/src/extract.ts:175-177 | no two blocks of a part have the same locator |
| Docx.RenderedInjective | packages/candidate/src/extract.ts:152-177 | distinct locators are distinct as text |
| Docx.ExtractedLocatorsDistinct | packages/candidate/src/extract.ts:151-205 | the locator texts of a whole extraction are distinct, across parts |
| DocxContent.ExtractionIsComplete | packages/candidate/src/extract.ts:146-205 | an extraction holds exactly one block for each paragraph and each hyperlink with an address, in order: its locator, its kind, a table cell exactly below a `tc`, and the text below it; only blocks that say nothing are missing |
| DocxContent.TourIsExact | packages/candidate/src/extract.ts:169-203 | a tour of a tree visits exactly the nodes picked, in document order |
| DocxContent.PlainIsText | packages/candidate/src/extract.ts:126-145 | a block's text is made of the text leaves, tabs and line breaks below its element, each once, in document order |
| DocxContent.ExtractableExactly | packages/candidate/src/extract.ts:146-170 | when a document can be extracted, by the depth of its elements, its texts, the blocks kept and their locators |
| DocxContent.ReadableWhenSomeTextIs | packages/candidate/src/extract.ts:32-43 | an extraction is readable exactly when some paragraph or table cell has more than blanks |
| DocxContent.BodiesAreRead | packages/candidate/src/extract.ts:152 | which parts are read |
| DocxContent.FlagsAreFound | packages/candidate/src/extract.ts:198-201 | a warning is given exactly for an element of one of six kinds, wherever it is |
| FieldPlan.AssertPacketBackedValues | packages/browser/src/adapter.ts:139-148 | approvals are refused exactly when one contradicts the packet |
| FieldPlan.CollectAnswers | packages/browser/src/adapter.ts:157-166 | what is known after the answers: the packet's values and the last resolved answer for each other key |
| FieldPlan.CollectApprovals | packages/browser/src/adapter.ts:167-174 | and after the approvals, which override answers but not the packet |
| FieldPlan.PacketValues | packages/browser/src/adapter.ts:113-135 | each packet key stands for its own piece of the packet, with its evidence |
| FieldPlan.OtherValues | packages/browser/src/adapter.ts:157-174 | any other key stands for its approval, without evidence, or else for its last resolved answer |
| FieldPlan.ApprovalAgreesExactly | packages/browser/src/adapter.ts:139-148 | an approval of a packet key agrees exactly when it repeats the packet's own value |
| FieldPlan.PlanFields | packages/browser/src/adapter.ts:150-225 | when planning succeeds, and the plan's entries and unresolved keys |
| FieldPlan.PlanField | packages/browser/src/adapter.ts:177-222 | the entry of one field, or none |
| FieldPlan.FilledExactlyWhen | packages/browser/src/adapter.ts:177-222 | a field is filled, and with what, exactly when something is known for it, its first proposal asks the same, and the value fits |
| FieldPlan.EntriesAreLegal | packages/browser/src/adapter.ts:190-216 | an entry has an offered value for a choice, a boolean for a checkbox and a legal length |
| FieldPlan.FieldsArePartitioned | packages/browser/src/adapter.ts:177-223 | in form order, each required field is filled or unresolved and never both, and no optional field is unresolved |
| FieldPlan.AnsweredAsAskedExactly | packages/browser/src/adapter.ts:158-185 | for a key only answers can fill, every filled field of every form is answered as asked exactly when the key's first proposal and last resolved answer mean the same |
| FieldPlan.UniqueKeysAgree | packages/browser/src/adapter.ts:178-185 | unique answer keys are enough for that |
| FieldPlan.GuardIsIdempotent | packages/browser/src/answer-guard.ts:9-30 | guarding a guarded plan changes nothing |
| FieldPlan.GuardConservesKeys | packages/browser/src/answer-guard.ts:18-29 | every key of the plan is still answered or unresolved |
| FieldPlan.PermittedExactly | packages/browser/src/answer-guard.ts:10-17 | which evidence is permitted: that of the identity, a contribution, an answer or an artifact |
| FieldPlan.GuardedPlanPasses | packages/browser/src/answer-guard.ts:32-58 | a plan passes exactly when nothing is unresolved and every entry has permitted evidence, and passes unchanged |
| FieldPlan.ApprovalAloneIsNotEvidence | packages/browser/src/answer-guard.ts:18-29 | a field filled from an owner's approval alone never passes the evidence guard |

## Left out

- Web UI, API routes, command-line entry scripts: plumbing over the repositories.
- Page evaluation in the browser, HTTP, archive, PDF, HTML, XML and JSON parsing, the process census and real file reads: their results are arbitrary inputs, or functions passed as parameters.
- SHA-256 is an uninterpreted function; `ReleaseSbom.StaleBindingIsRefused` speaks of digests that differ.
- Input schemas: models start from parsed values; string widths are counted in characters of the model.
- RuntimeMutex.MutualExclusion: the installation is one directory, a live process answers the process-id probe, a record's age and other call failures are free choices, and `supervisor.run()` is one phase.
- EventLog.RetainsNewest: an append is one call; a torn append and calls that fail without a kill are not modelled, and rotation starts from files that a rotation could have left.
- RuntimeSupervisor.BudgetIsExact: child processes, health polling and state names are not modelled; a later stop can write an earlier state name again, so nothing is claimed about the final state name.
- RuntimeSupervisor.LineFramer.Data: text is already decoded; a character split across chunks by its encoding is not modelled.
- OwnedProcesses.OwnedProcessTracker.Sample: the safe-integer refusal has no branch, because `MemoryTotalIsSafe` shows it can never be taken.
- BrowserResources.RunKeepsInv: the constructor's rejection of limits outside 1 to 4 is a precondition; callbacks and pending calls are values in a field, one method per stretch of code between awaits.
- Chronology.UnionMonths: the sort is a value, not in place; fact conflicts and authorisation texts are left out as single-branch checks.
- SubmissionDb.Best: equal priorities are broken by insertion order, which stands for creation time and id.
- SubmissionProtocol.StepProgresses: packet, preparation, policy, experiment and hand-off checks of `begin` and `authorizeDispatch` are one free boolean each; restore review, quarantine, email evidence and per-kind pauses other than submissions are left out; correlation of a receipt with its packet is that it names a record of the application; every other repository may move an application to any state but in flight and confirmed.
- SubmissionProtocol.PressStep: one press sends one application; what was sent arrives and is accepted, arrives and is rejected, or vanishes, at any later time; the employer keeps every record.
- SubmissionProtocol.RunKeepsInv: tasks that other repositories cancel directly, when a profile is published, an application skipped or merged, or a backup restored, are not events; a caller's queue key never has the form of a recovery's reconciliation key, as no caller forms one.
- SubmissionCrash.RecoveryFollowsIntent: assumes that no other repository moves the application while the lease stands; `SubmissionOutcome.FollowsIntentExactlyWhen` is the exact statement without that.
- SubmissionDoubt.ReconciliationFollowsTheRecord: the lookup sees every record the employer holds at that moment; a lookup that misses one is the free `visible` flag of the protocol.
- ReleaseSbom.CanonicalInAnyOrder: locale comparison is assumed to be a total order on references; which fault is reported first may depend on input order, acceptance does not.
- ReleaseSbom.NormalizeReleaseSbom: sorting in place is modelled on values; address parsing that throws is left out.
- BundleVerification.VerifyWindowsBundle: the tree does not change during verification, so the repeated metadata comparisons are left out; the table of distributable paths is a parameter; one failure stands for all messages outside the walk.
- PollSource.PollSource: page normalisation is a parameter; a failure the transport itself classifies is reported as a failed scan; delays between pages are left out.
- Breezy.PollBreezy: the normalised job's own schema is left out; template content is not part of the tree, as in the source.
- Docx.Extract: one failure stands for both limit messages; the hyperlinks of a part are a map from relationship id to safe address; a path holds a table cell when one of its steps is a `tc`; the PDF branch and archive limits are left out.
- FieldPlan.PlanFields: numeric answers are represented by their text; keys that name built-in object properties are left out; filling and reading back a form are left out.
- FieldPlan.GuardedPlanPasses: the database-backed guard is not part of this model; error classes are one refusal.
- Ledger validation, hosted reading policies, greenhouse and recruitee form planning: single-branch checks or repetitions of the modelled plans.
