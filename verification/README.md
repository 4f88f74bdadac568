# CFlow protocols and checkers in Dafny

This project models the parts of the CFlow runtime whose guarantees range over
every interleaving, every graph or every input, and proves those guarantees.

| files | what they model |
|---|---|
| `Common`, `Fnv` | the option type, machine limits and division facts that every part uses, and the mixing step of the hashes |
| `Dispatcher`, `DispatcherSafety`, `DispatcherToken`, `DispatcherMonitor` | the Leader/Followers and serial-token dispatcher: a monitor that elects one worker to dequeue and coalesces wake signals, and how long a worker keeps the token |
| `CoordLog`, `CoordState`, `Coordination`, `CoordWait`, `CoordTie` | the ALL, ALL_DONE, ANY, LATEST and SEQUENCE combinators over children that are arbitrary scripts, their aggregate waker, and what ties the two |
| `Actor`, `ActorSafety`, `ActorHistory`, `ActorShell` | the actor lifecycle shell: settlement, detached wakes and the destruction barrier, and what its history can look like |
| `Effects` | the colouring, memoised effect search over subgraph references |
| `FlowGraph`, `Aot`, `AotMeaning`, `AotTrace`, `AotComplete` | the checker that accepts a graph as a pipeline, and an optimized graph with a trace of deletions; what it preserves and what it must not refuse |
| `BranchingSpec`, `BranchingCsr`, `BranchingViews`, `BranchingPointer`, `BranchingNarrow`, `BranchingAgreement`, `BranchingChecksum` | five adjacency views of one edge list, their observers, and what their checksum tells apart |
| `MailboxSchema`, `MailboxRing`, `Mailbox` | the bounded typed mailbox: schema, byte slots, ring |
| `Settlement`, `OwnerExecutor`, `OwnerWake` | the record of tasks taken that both executors keep; the owner-bound executor over that mailbox, and the host that drives it |
| `ManualLedger`, `ManualExecutor` | the manual executor with re-entrant callbacks |
| `DenseIndex`, `LinearWalk`, `Certificate`, `CertificateRows` | the dense successor index and the certificate walks and rows built on it |

How the model reads the code:

- A protocol is a step relation whose steps are the sections that hold its lock
  or gate; a run is any sequence of such steps, with any number of threads. The
  dispatcher and the actor also appear as classes whose methods update fields in
  place. A section of the dispatcher extends a run of the step relation, so the
  results about runs hold of the object; a section of the actor is lawful.
  Mutexes, condition variables and atomics are taken as atomic steps.
- Condition variables may wake spuriously. A signalled thread stays signalled
  until it runs.
- Callbacks are code the model cannot see. In the owner executor anything the
  gate allows may happen while a callback runs. In the manual executor a task
  carries the scripts its callbacks follow, and these may post further tasks,
  shut down, run and ask, to any depth. In `coord` children are functions from
  resume count to answer, and other threads may wake armed children before every
  look at who is runnable; a reply of waiting speaks of what the last look saw.
- Allocation results, thread identity and the answers of code outside the
  modelled files are parameters.
- Integers are unbounded except where the width decides a result: identifiers,
  `size_t` products, saturating 64-bit mailbox counters, 64-bit checksums, and
  the actor's wake and reference counts are written out.

Where the code and its documentation differ the model follows the code. An
actor's waiters are released after the user's terminal callback has returned
(cflow/src/actor.c:283-291), although cflow/README.md:1149-1151 says they are
updated before it. `actor_sink_error` calls the user's callback also when it is
not the first failure. ANY does not mark its winner done, and the error "child
completed without a value" of ALL is reported but not stored, so it is not
sticky; what does persist is that such an ALL never emits.

Where the promised behaviour needs a condition, the condition is part of the
contract. A call of ALL_DONE need not return, since a child may produce values
for ever: `ResumeAllDone` bounds the rounds and returns whenever the children's
scripts run dry. Flat lookup narrows its edge index to 32 bits while the other
views do not, so agreement for every valid edge list is false: `MisreadIsRefused`
gives a valid subgraph of any size above 2^32 edges that flat lookup refuses.
It accepts every valid subgraph of n edges exactly when n edge ids fit, and on
one subgraph it reads the right rows exactly when the edges past the last id have
the rows of those read in their place.

## Model

| member | source | states |
|---|---|---|
| DispatcherSafety.WinnerIsFirst | cflow/benchmarks/cflow_ace_throughput_benchmark.c:148-158 | the round-robin election picks the first eligible worker after the last leader, and none only if no worker is eligible |
| DispatcherSafety.ElectOutcome | cflow/benchmarks/cflow_ace_throughput_benchmark.c:148-158 | an election leaves the leader unset exactly when nobody is eligible; otherwise one more election is counted and the new leader, notified, is the eligible worker nearest after the last one round the ring |
| DispatcherSafety.SettleAllSucceeds | cflow/benchmarks/cflow_ace_throughput_benchmark.c:160-170 | settling a batch that is owed takes no failure branch and counts each message once |
| DispatcherSafety.BatchIsOwed | cflow/benchmarks/cflow_ace_throughput_benchmark.c:265-274 | a finishing batch plus what others hold plus what is settled is what was dequeued, so no settlement is surplus |
| DispatcherSafety.SerialBatch | cflow/benchmarks/cflow_ace_throughput_benchmark.c:229-242 | with the serial token the batch being finished is the single next admitted message |
| DispatcherSafety.StepKeeps | cflow/benchmarks/cflow_ace_throughput_benchmark.c:205-311 | every mutex-held section of every worker and producer keeps the dispatcher invariant |
| DispatcherSafety.RunsKeepInvariant | cflow/benchmarks/cflow_ace_throughput_benchmark.c:205-311 | the invariant holds in every state of every run, for any number of workers |
| DispatcherSafety.NoLostWakeup | cflow/benchmarks/cflow_ace_throughput_benchmark.c:110-158 | with work queued and a registered worker, some worker is processing or the leader has been signalled, although signals are coalesced; with Leader/Followers a set leader has itself been signalled |
| DispatcherSafety.LeaderUnsetMeansNobodyEligible | cflow/benchmarks/cflow_ace_throughput_benchmark.c:205-285 | the leader is unset only while no worker is eligible; with Leader/Followers exactly then, and a leader is never processing |
| DispatcherSafety.AsleepMeansSettled | cflow/benchmarks/cflow_ace_throughput_benchmark.c:205-285 | if all registered workers sleep, everything admitted is settled, in admission order with the serial token |
| DispatcherSafety.SettlesExactlyOnce | cflow/benchmarks/cflow_ace_throughput_benchmark.c:160-311 | admitted = queued + held + settled as multisets, accepted = queued + in-flight + completed, in-flight at most workers times batch, and no failure branch is taken unless a deadline expired |
| DispatcherSafety.TokenHolder | cflow/benchmarks/cflow_ace_throughput_benchmark.c:205-285 | with the serial token an active handler is the leader and holds the message between settled and queued |
| DispatcherSafety.SerialTokenIsFifo | cflow/benchmarks/cflow_ace_throughput_benchmark.c:205-285 | with the serial token, settlement is in admission order and at most one handler is active |
| DispatcherSafety.ShutdownReachesEveryWorker | cflow/benchmarks/cflow_ace_throughput_benchmark.c:125-135 | closing or failing leaves nobody asleep, and every signalled worker exits |
| DispatcherMonitor.Monitor.constructor | cflow/benchmarks/cflow_ace_throughput_benchmark.c:379-443 | a monitor starts a run of the step relation |
| DispatcherMonitor.Monitor.SignalWorker | cflow/benchmarks/cflow_ace_throughput_benchmark.c:110-113 | nobody signalled stays asleep, and what is held and how many are busy does not change |
| DispatcherMonitor.Monitor.NotifyLeaderLocked | cflow/benchmarks/cflow_ace_throughput_benchmark.c:118-123 | nobody but the leader is signalled; a leader with work that is registered as waiting is; with coalescing nobody is while the queue is empty |
| DispatcherMonitor.Monitor.WakeAllLocked | cflow/benchmarks/cflow_ace_throughput_benchmark.c:125-130 | the loop wakes every worker |
| DispatcherMonitor.Monitor.FailLocked | cflow/benchmarks/cflow_ace_throughput_benchmark.c:132-135 | failure is recorded and everyone is woken |
| DispatcherMonitor.Monitor.FindEligible | cflow/benchmarks/cflow_ace_throughput_benchmark.c:150-152 | the loop finds the first eligible worker after the last leader |
| DispatcherMonitor.Monitor.ElectLocked | cflow/benchmarks/cflow_ace_throughput_benchmark.c:148-158 | the winner becomes leader and last leader, is counted and notified |
| DispatcherMonitor.Monitor.HandOnLocked | cflow/benchmarks/cflow_ace_throughput_benchmark.c:251-254 | giving up the lead elects the next leader whenever anyone is eligible, and does no more to the workers than signal a sleeper |
| DispatcherMonitor.Monitor.SettleLocked | cflow/benchmarks/cflow_ace_throughput_benchmark.c:160-170 | a result within its id range and epoch is observed and counted once; any other fails the run and is not counted |
| DispatcherMonitor.Monitor.ReceiveLocked | cflow/benchmarks/cflow_ace_throughput_benchmark.c:229-242 | the receive loop takes the oldest messages, as many as are queued up to the limit |
| DispatcherMonitor.Monitor.SettleResults | cflow/benchmarks/cflow_ace_throughput_benchmark.c:270-271 | the settlement loop settles the batch in order |
| DispatcherMonitor.Monitor.DepartLocked | cflow/benchmarks/cflow_ace_throughput_benchmark.c:243-250 | the batch joins what is held, and the active count moves with the busy workers |
| DispatcherMonitor.Monitor.ClaimLocked | cflow/benchmarks/cflow_ace_throughput_benchmark.c:228-255 | a claim takes the oldest messages, a batch of them with Leader/Followers and one with the token, departs with them and, with Leader/Followers, hands the lead on before processing |
| DispatcherMonitor.Monitor.LoopTopLocked | cflow/benchmarks/cflow_ace_throughput_benchmark.c:214-255 | one pass of the worker loop sleeps, claims or leaves |
| DispatcherMonitor.Monitor.SettlementLocked | cflow/benchmarks/cflow_ace_throughput_benchmark.c:268-271 | a ticket out of order fails the run; the batch is settled in order |
| DispatcherMonitor.Monitor.ReturnLocked | cflow/benchmarks/cflow_ace_throughput_benchmark.c:272-274 | the batch leaves what is held, and the active count moves with the busy workers |
| DispatcherMonitor.Monitor.HandBackLocked | cflow/benchmarks/cflow_ace_throughput_benchmark.c:275-282 | the token is kept while fewer than a batch is settled and work is queued, and otherwise an election is held and the count starts again |
| DispatcherMonitor.Monitor.AdmitLocked | cflow/benchmarks/cflow_ace_throughput_benchmark.c:298-308 | an open, unfailed mailbox with room takes the message at its end; a full one answers 0 and a closed or failed one -1 with no effect; a coalesced wake is sent only to an empty queue |
| DispatcherMonitor.Monitor.RunWorkerStart | cflow/benchmarks/cflow_ace_throughput_benchmark.c:209-213 | a starting worker registers and may be elected; the section extends the run and keeps the invariant |
| DispatcherMonitor.Monitor.RunWorkerWake | cflow/benchmarks/cflow_ace_throughput_benchmark.c:217-224 | a woken worker goes back to the loop test; the section extends the run and keeps the invariant |
| DispatcherMonitor.Monitor.RunWorkerFinish | cflow/benchmarks/cflow_ace_throughput_benchmark.c:267-283 | the section after processing extends the run and keeps the invariant |
| DispatcherMonitor.Monitor.SendPayload | cflow/benchmarks/cflow_ace_throughput_benchmark.c:289-311 | a send extends the run and keeps the invariant; 1 means accepted, 0 full, -1 closing or failed |
| DispatcherMonitor.Monitor.OpenEpoch | cflow/benchmarks/cflow_ace_throughput_benchmark.c:445-451 | opening the next round extends the run and keeps the invariant |
| DispatcherMonitor.Monitor.Close | cflow/benchmarks/cflow_ace_throughput_benchmark.c:460-468 | closing extends the run and leaves nobody asleep |
| DispatcherMonitor.Monitor.Expire | cflow/benchmarks/cflow_ace_throughput_benchmark.c:137-144 | a passed deadline fails the run and leaves nobody asleep |
| DispatcherMonitor.Monitor.PendingWorkIsSeen | cflow/benchmarks/cflow_ace_throughput_benchmark.c:110-158 | at every release of the lock, queued work has a running handler or a signalled leader |
| DispatcherMonitor.Monitor.EveryMessageAccounted | cflow/benchmarks/cflow_ace_throughput_benchmark.c:160-311 | at every release of the lock, every admitted message is queued, held or settled, once |
| DispatcherSafety.SignalsKeepCore | cflow/benchmarks/cflow_ace_throughput_benchmark.c:110-130 | signalling any workers keeps everything but the choice and wake-up of the leader |
| DispatcherSafety.ClaimedKeepsCore | cflow/benchmarks/cflow_ace_throughput_benchmark.c:228-250 | taking a batch and departing keeps the accounts, the queue and the token order |
| DispatcherSafety.RunExtends | cflow/benchmarks/cflow_ace_throughput_benchmark.c:205-311 | each section makes a run one step longer |
| DispatcherToken.HeldIsBounded | cflow/benchmarks/cflow_ace_throughput_benchmark.c:275-281 | in every reachable state of serial mode every worker has counted fewer than a batch of messages, and only the token holder any |
| DispatcherToken.HolderCountsSettled | cflow/benchmarks/cflow_ace_throughput_benchmark.c:275-281 | while no election is held the token holder counts exactly the messages settled |
| DispatcherToken.TokenIsBounded | cflow/benchmarks/cflow_ace_throughput_benchmark.c:275-281 | between two elections fewer than a batch of messages is settled |
| DispatcherToken.TokenGivenUpExactly | cflow/benchmarks/cflow_ace_throughput_benchmark.c:275-281 | the holder gives the token up exactly when it has settled a full batch since its election or the queue is empty, to the eligible worker nearest after it, and keeps it then only if nobody else is eligible |
| DispatcherToken.OnlyFinishGivesUp | cflow/benchmarks/cflow_ace_throughput_benchmark.c:205-285 | no section but the one after processing takes the token from a leader |
| CoordLog.EntryAt | cflow/src/coord.c:99-118 | every prefix of a run obeys the mode, entry by entry |
| CoordLog.GenerationCountsEvents | cflow/src/coord.c:230-234 | the k-th event carries generation k |
| CoordLog.BarrierIsOneShot | cflow/src/coord.c:288-350 | ALL and ALL_DONE emit at most one event and resume nobody after it |
| CoordLog.AllWaitsForFirstValues | cflow/src/coord.c:288-322 | ALL emits only when every child holds exactly its first value, and never resumes a child past it (read off the rules that every coordinator keeps for its log) |
| CoordLog.EmptyChildBlocksAll | cflow/src/coord.c:312-316 | a child that ends without a value keeps ALL from ever emitting |
| CoordLog.AllDoneWaitsForCompletion | cflow/src/coord.c:325-350 | ALL_DONE emits only when every child has ended with a value (read off the rules that every coordinator keeps for its log) |
| CoordLog.SequenceIncreases | cflow/src/coord.c:373-394 | SEQUENCE emits strictly increasing child indices |
| CoordLog.SequenceRunsInOrder | cflow/src/coord.c:373-394 | SEQUENCE resumes a child only after every earlier one has emitted or ended empty (read off the rules that every coordinator keeps for its log) |
| CoordLog.LatestWaitsForEveryone | cflow/src/coord.c:396-421 | LATEST emits nothing, and resumes nobody past a first value, until every child has one (read off the rules that every coordinator keeps for its log) |
| CoordLog.LatestAnnouncesTheNewValue | cflow/src/coord.c:396-421 | every LATEST event names the child that has just produced, with the value it produced |
| CoordLog.AnyAnnouncesTheNewValue | cflow/src/coord.c:352-371 | every ANY event names the child that has just produced, after the others were dropped |
| CoordLog.AnyKeepsItsWinner | cflow/src/coord.c:352-371 | after the first event of ANY only the winner is resumed or announced |
| CoordLog.WinnerPersists | cflow/src/coord.c:352-371 | the winner of ANY never changes |
| CoordState.RunnableExactly | cflow/src/coord.c:99-118 | outside SEQUENCE a child is runnable exactly when it is awake, not done, and the mode lets it be resumed |
| CoordLog.TurnsAreFair | cflow/src/coord.c:304-317 | a child that stays runnable has its turn before another has two, across calls |
| Coordination.Coordinator.constructor | cflow/src/coord.c:469-506 | a coordinator starts with an empty log that obeys its mode; every method keeps that its log obeys the mode, whatever the children answer and whenever they are woken |
| Coordination.Coordinator.ResumeChild | cflow/src/coord.c:236-286 | a resumed child answers its script, and its value, end or wait is retained |
| Coordination.Coordinator.EmitEvent | cflow/src/coord.c:230-234 | an event raises the generation by one |
| Coordination.Coordinator.DropChildren | cflow/src/coord.c:220-228 | the children of a group are cancelled and marked done |
| Coordination.Coordinator.Scan | cflow/src/coord.c:304-317 | one round resumes whoever is runnable from the cursor on and stops where the mode reacts |
| Coordination.Coordinator.ResumeAll | cflow/src/coord.c:288-322 | ALL returns, resumes each child at most once per call even if children are woken meanwhile, and its run obeys ALL; its event comes with every value held and every child dropped, and it fails exactly on an error or a child that has just ended empty |
| Coordination.Coordinator.ResumeAllDone | cflow/src/coord.c:325-350 | the run obeys ALL_DONE, and the call returns whenever the children run dry; it fails on an error, or when all have ended and a value is missing |
| Coordination.Coordinator.ResumeAny | cflow/src/coord.c:352-371 | ANY returns, resumes each child at most once, announces the child whose answer was a value, which is retained, and cancels everyone else; it fails only on an error |
| Coordination.Coordinator.ResumeLatest | cflow/src/coord.c:396-421 | LATEST returns and resumes each child at most once; an event names a child resumed in this call whose answer was a value, which is retained, and is final exactly when all are done; it fails only on an error |
| Coordination.Coordinator.SequenceTurn | cflow/src/coord.c:374-392 | the current child is announced with its value, waited for, or passed over when it ended empty |
| Coordination.Coordinator.ResumeSequence | cflow/src/coord.c:373-394 | SEQUENCE returns and emits children in order, passing over empty ones; it fails only on an error |
| Coordination.Coordinator.ResumeCoordination | cflow/src/coord.c:423-436 | cancelled and failed coordinators answer at once; the others run their mode, return whenever the children run dry, and fail only for a fault of a child |
| Coordination.Coordinator.Cancel | cflow/src/coord.c:438-449 | every child ends up done |
| Coordination.Coordinator.ArmWaiting | cflow/src/coord.c:146-156 | the waiting children are armed and nothing else changes |
| Coordination.Coordinator.GetValue | cflow/src/coord.c:508-518 | the retained value is the latest one the child produced |
| CoordWait.ArmSection | cflow/src/coord.c:143-158 | the locked part of arming marks every waiting child, lists those not armed before, and says whether a child is runnable |
| CoordWait.StepKeeps | cflow/src/coord.c:120-179 | every step of arming and of child wakes keeps the invariant |
| CoordWait.RunsKeepInvariant | cflow/src/coord.c:120-179 | the invariant holds in every interleaving of arms, child wakes and resumes, whichever children a resume opens or closes |
| CoordWait.WakersInvokedAtMostOnce | cflow/src/coord.c:120-179 | no parent waker is invoked twice |
| CoordWait.DueWakersAreInvoked | cflow/src/coord.c:120-179 | if a child was runnable at arm time or is woken later, the waker has been invoked or is being invoked |
| CoordWait.ArmedMeansReachable | cflow/src/coord.c:134-179 | after a successful arm that owes nothing the waker is stored, nobody is runnable, every waiting child is registered, and the next wake of any of them takes the waker |
| CoordWait.ArmedChildrenAreRegistered | cflow/src/coord.c:134-179 | every armed child is waiting and registered |
| CoordWait.ToArmDistinct | cflow/src/coord.c:147-155 | no child is armed twice |
| CoordTie.RunnableIsRunnable | cflow/src/coord.c:99-118 | a child is runnable to the waiting protocol exactly when its mode says so |
| CoordTie.NewIsInit | cflow/src/coord.c:469-506 | a new coordinator of any mode is an initial state of the waiting protocol |
| CoordTie.ReactionIsStep | cflow/src/coord.c:236-421 | resuming a child and whatever any mode does next is one step of the waiting protocol |
| CoordTie.WakeIsStep | cflow/src/coord.c:120-132 | waking a child of the coordinator is a child wake of the protocol |
| CoordTie.ArmIsStep | cflow/src/coord.c:143-158 | arming the coordinator is the locked arming step of the protocol |
| ActorSafety.StepKeeps | cflow/src/actor.c:171-748 | every gate-held section, in any interleaving, keeps the lifecycle and barrier invariant |
| ActorSafety.RunsKeepInvariant | cflow/src/actor.c:171-748 | the invariant holds in every state of every run of senders, callbacks, waiters, stop requests, start and destroy |
| ActorSafety.HistoryStands | cflow/src/actor.c:171-292 | STOPPED and FAILED are absorbing, the first stored error never changes, settlement stays, and nothing is accepted once stale |
| ActorSafety.DestructionBarrier | cflow/src/actor.c:646-748 | pending wakes equal the outstanding detached wakes, none is outstanding once the runtime is being destroyed, and a sleeping destroyer waits for one |
| ActorSafety.FreedExactlyWhenUnused | cflow/src/actor.c:152-169 | the shell is freed exactly when the owner is done and no reference is held |
| ActorSafety.WaitersAreNotLost | cflow/src/actor.c:524-537 | a waiter sleeps only while its condition is false, and the state it returns is kept for ever |
| ActorSafety.WaitFollowsCallback | cflow/src/actor.c:212-292 | when a callback makes the terminal transition, wait returns only after that callback has returned |
| ActorSafety.SectionsAreLawful | cflow/src/actor.c:171-748 | no section unsettles, leaves a terminal state or replaces the error, and each broadcasts when it releases the waiters |
| ActorSafety.SinkOwes | cflow/src/actor.c:212-292 | the callback that makes the terminal transition, and no other, owes settlement |
| ActorHistory.LifeMoves | cflow/src/actor.c:171-748 | where every section takes the lifecycle: a stop or destroy of a running actor only asks for the end, a completed run or the end of destroy reaches STOPPED, failures reach FAILED |
| ActorHistory.NeverRestarts | cflow/src/actor.c:436-521 | an actor never returns to START, nor to RUNNING once it is ending |
| ActorHistory.SettledExactlyBy | cflow/src/actor.c:171-748 | an unsettled actor is settled by exactly these sections: the return of the callback that owes it, the settlement of the first failure of the owner, start closing its run, the end of destroy, or a stop before the start |
| ActorHistory.SettledOnlyBy | cflow/src/actor.c:171-748 | an actor that was running is settled only after one of them |
| ActorHistory.WaitFollowsSettlement | cflow/src/actor.c:524-537 | so a wait on an actor that was running returns only after one of them |
| ActorHistory.AcceptedExactlyWhileServing | cflow/src/actor.c:655-707 | a send is accepted exactly when it is well formed, the runtime takes it, and the actor is running, started through, not being destroyed and able to count its wake |
| ActorHistory.NothingAcceptedAfterStop | cflow/src/actor.c:492-521 | once an actor is asked to stop or has ended no send is ever accepted |
| ActorHistory.RefusedStartCloses | cflow/src/actor.c:468-482 | a start that is refused demand gives the owner back only with its run closed |
| ActorHistory.FirstFailureTextStands | cflow/src/actor.c:171-202 | the first failure whose text could be copied gives the actor its error for good |
| ActorHistory.UnexpectedCompletionText | cflow/src/actor.c:251-277 | a run that completes under a running actor fails it with the completion text |
| ActorShell.ActorShell.constructor | cflow/src/actor.c:316-335 | a shell starts in START with one reference |
| ActorShell.ActorShell.MarkFailedLocked | cflow/src/actor.c:171-202 | the first failure moves to FAILED and stores its text; later ones only fill a missing text |
| ActorShell.ActorShell.SettleLocked | cflow/src/actor.c:222-227 | the condition of every waiter holds, and everyone is woken |
| ActorShell.ActorShell.SinkDoneLocked | cflow/src/actor.c:251-277 | completion stops a stopping or self-completing actor, fails a running one, and settles only what it moved |
| ActorShell.ActorShell.StartLocked | cflow/src/actor.c:436-445 | start publishes RUNNING once and reports the state otherwise |
| ActorShell.ActorShell.RequestStopLocked | cflow/src/actor.c:492-521 | stop moves START to STOPPED, settled, and RUNNING to STOPPING, unsettled and without a broadcast, and closes the runtime exactly then |
| ActorShell.ActorShell.TrySendLocked | cflow/src/actor.c:655-707 | a send is accepted exactly when the actor is running, started, not stale, and the mailbox takes it; each refusal has its status |
| ActorShell.ActorShell.WakeDoneLocked | cflow/src/actor.c:711-715 | one wake fewer is outstanding, and the last one of a stale actor broadcasts |
| ActorShell.ActorShell.DestroyLocked | cflow/src/actor.c:725-730 | from here on no send is admitted and no reference is given out |
| ActorShell.ActorShell.FinishDestroyLocked | cflow/src/actor.c:740-745 | the condition of every waiter holds whatever the actor was doing, and everyone is woken |
| ActorShell.ActorShell.RetainRef | cflow/src/actor.c:158-169 | a retain fails only at zero or at the limit |
| ActorShell.ActorShell.AcquireRefLocked | cflow/src/actor.c:616-626 | a stale actor gives out no new reference |
| ActorShell.ActorShell.ReleaseRef | cflow/src/actor.c:152-156 | the last release is recognised |
| Effects.FnEffects | cflow/src/effect.c:5-7 | a callable contributes its declared effects if all are known, and UNKNOWN otherwise |
| Effects.CollectOwn | cflow/src/effect.c:20-32 | an effect is collected exactly when the schema of the operator declares it, a chained callable or the plain one contributes it, or it is UNKNOWN and the schema or the storage of the chain is missing |
| Effects.SubgraphEffectsRec | cflow/src/effect.c:9-40 | the colouring, memoising search terminates on every graph and returns what its visit newly memoised |
| Effects.PathStaysFinished | cflow/src/effect.c:9-40 | references out of finished subgraphs meet finished ones, or an UNKNOWN has been recorded |
| Effects.RankDescends | cflow/src/effect.c:9-40 | without UNKNOWN, references lead strictly back in the finishing order |
| Effects.MalformedIsSeen | cflow/src/effect.c:9-40 | a reachable cycle or out-of-range reference leaves UNKNOWN in some memo |
| Effects.FinishedIsComplete | cflow/src/effect.c:9-40 | every effect below a finished subgraph has been memoised |
| Effects.VisitedIsAnalysed | cflow/src/effect.c:42-68 | results of searches that share one memo add up to the effects of all their roots |
| Effects.NodeEffects | cflow/src/effect.c:42-68 | a node has its own effects and those of everything reachable through its references, which share one memo |
| Effects.SubgraphEffects | cflow/src/effect.c:70-81 | the result is exactly the union of own effects over reachable subgraphs, plus UNKNOWN exactly when a cycle or an out-of-range id is reachable |
| Effects.GraphEffects | cflow/src/effect.c:83-87 | a graph has the effects of its root |
| Aot.CheckStage | cflow/src/direct.c:12-65 | a stage passes exactly when its types, callable, signature, kind and dispatch agree |
| Aot.Validate | cflow/src/direct.c:12-88 | accepts exactly the well-typed pipelines |
| Aot.NodeMatchesStages | cflow/src/direct.c:99-135 | a node matches exactly the next stages its calls cover |
| Aot.WalkGraph | cflow/src/direct.c:184-199 | the walk loop equals the recursive walk |
| Aot.MatchGraph | cflow/src/direct.c:139-212 | accepts exactly when some walk matches the pipeline |
| AotMeaning.WalkIsPath | cflow/src/direct.c:184-199 | a found walk is a path of single successors to the tail whose nodes partition the stages in order |
| AotMeaning.PathIsWalk | cflow/src/direct.c:184-199 | every such path is found |
| AotMeaning.WalkIsSimple | cflow/src/direct.c:184-199 | no node is visited twice |
| AotMeaning.NodeMeansStages | cflow/src/direct.c:99-135 | a matched node computes what its stages compute |
| AotMeaning.WalkMeansStages | cflow/src/direct.c:139-212 | a walk computes what the stages it covers compute |
| AotMeaning.RunIsUnique | cflow/src/direct.c:184-199 | a graph has at most one way through along single successors |
| AotMeaning.WalkIsRun | cflow/src/direct.c:184-199 | a found walk is the way through its graph |
| AotMeaning.MatchedGraphMeansPipeline | cflow/src/direct.c:139-212 | an accepted graph has a way through, and by it gives the output of the pipeline on every input sequence |
| AotTrace.CollectCoordinates | cflow/src/direct.c:219-247 | the i-th stage of every hop has the node of the hop and call i as its coordinate |
| AotTrace.CoordinatesAt | cflow/src/direct.c:241-242 | the same of the coordinates of a walk, stage by stage |
| AotTrace.CoordinatesAreInjective | cflow/src/direct.c:219-247 | coordinates identify stages |
| AotTrace.IndexOfFinds | cflow/src/direct.c:249-264 | the index found is the first one holding the coordinate |
| AotTrace.FindCoordinate | cflow/src/direct.c:249-264 | the search loop finds that index |
| AotTrace.FindNearest | cflow/src/direct.c:324-327 | everything between the stage found and the given one is removed, and the stage found is not, unless it is stage 0 |
| AotTrace.ReplayEvent | cflow/src/direct.c:301-340 | one trace event is applied in place exactly when it is justified |
| AotTrace.ReplayTrace | cflow/src/direct.c:301-340 | the whole trace is replayed in place or refused |
| AotTrace.CollectSurvivors | cflow/src/direct.c:342-343 | the stages not removed, in order |
| AotTrace.DeletionPreserves | cflow/src/direct.c:301-340 | a justified deletion keeps the meaning of the remaining stages |
| AotTrace.ReplayPreserves | cflow/src/direct.c:301-343 | an accepted trace keeps the meaning of the pipeline |
| AotTrace.FirstStageSurvives | cflow/src/direct.c:344-345 | stage 0 survives every accepted trace, so the empty-pipeline check can never fire |
| AotTrace.RemainingIsValid | cflow/src/direct.c:347-353 | what an accepted trace leaves always validates |
| AotTrace.MatchOptimizedGraph | cflow/src/direct.c:268-363 | accepts exactly the certified optimizations |
| AotTrace.CertifiedPreservesMeaning | cflow/src/direct.c:268-363 | source graph, optimized graph and pipeline give the same output on every input sequence, if callables declared idempotent are so |
| AotComplete.ValidIsTypeSafe | cflow/src/direct.c:12-88 | a valid pipeline takes its input type to its output type and applies no callable to a value of another type |
| AotComplete.ValidStagesArePure | cflow/src/direct.c:12-65 | every callable of a valid pipeline is pure, deterministic, total and alias free, with what its dispatch needs |
| AotComplete.AcceptedGraphIsTyped | cflow/src/direct.c:99-212 | the nodes of an accepted graph hand each other the types of the pipeline, from its input to its output |
| AotComplete.AcceptedNodesArePlain | cflow/src/direct.c:99-135 | an accepted graph is walked through plain filters and maps only |
| AotComplete.EveryFusionMatches | cflow/src/direct.c:139-212 | every graph that fuses runs of adjacent maps of a valid pipeline is accepted |
| AotComplete.AcceptedExactlyWhenNeighbours | cflow/src/direct.c:301-340 | an event is accepted exactly when it deletes the later of two neighbouring survivors that apply the same declared idempotent map |
| AotComplete.CollapseIsAccepted | cflow/src/direct.c:301-340 | the trace that deletes all but the first of any number of repetitions is accepted |
| BranchingSpec.GroupsHoldEveryEdge | cflow/benchmarks/cflow_branching_views.c:89-122 | the rows of a valid subgraph hold every edge once, in range |
| BranchingCsr.CountEdges | cflow/benchmarks/cflow_branching_views.c:326-327 | the counting pass leaves each out-degree one place to the right |
| BranchingCsr.BuildPrefixOffsets | cflow/benchmarks/cflow_branching_views.c:322-330 | each offset is the number of edges leaving smaller sources |
| BranchingCsr.RowKept | cflow/benchmarks/cflow_branching_views.c:332-338 | one write extends its own row and leaves every other row alone |
| BranchingCsr.GroupTargets | cflow/benchmarks/cflow_branching_views.c:332-338 | after the in-place advance every row holds its targets in edge order and every offset is its row end |
| BranchingCsr.RestoreOffsets | cflow/benchmarks/cflow_branching_views.c:312-320 | the restore loop shifts the offsets one place back |
| BranchingCsr.StableGroupTargets | cflow/benchmarks/cflow_branching_views.c:332-340 | the slice of every source equals its targets in original edge order |
| BranchingViews.ValidateShape | cflow/benchmarks/cflow_branching_views.c:44-62 | the status names the first violated requirement |
| BranchingViews.LookupRow | cflow/benchmarks/cflow_branching_views.c:99-112 | one source scanned over the edges that narrowed ids name |
| BranchingViews.ObserveFlatLookup | cflow/benchmarks/cflow_branching_views.c:89-122 | flat lookup succeeds exactly when the edges it reads are valid and give every source its out-degree, and reports the reference observation of the edges it reads |
| BranchingViews.MixEdges | cflow/benchmarks/cflow_branching_views.c:202-210 | one pass mixes every target into the checksum of its source |
| BranchingViews.ObserveFlatOnce | cflow/benchmarks/cflow_branching_views.c:188-214 | one pass over flat edges reports the reference observation exactly on valid edges |
| BranchingViews.BuildCsr | cflow/benchmarks/cflow_branching_views.c:342-383 | the build fails as its inputs, allocations and byte totals say, or yields a compressed view of the edges |
| BranchingViews.ObserveCsr | cflow/benchmarks/cflow_branching_views.c:394-423 | for any offsets and targets, well-formed or not, the observer succeeds exactly when they cut rows in range, and digests those rows |
| BranchingViews.CsrRows | cflow/benchmarks/cflow_branching_views.c:342-423 | the rows of a built view are the rows of the edges |
| BranchingViews.BuildHash | cflow/benchmarks/cflow_branching_views.c:457-536 | the build fails as its inputs, allocations and byte totals say, or spans exist exactly for the sources with edges and cut their rows |
| BranchingViews.ObserveHash | cflow/benchmarks/cflow_branching_views.c:546-579 | for any spans and targets, the observer succeeds exactly when they fit, are in range and cover the edge count |
| BranchingViews.HashRows | cflow/benchmarks/cflow_branching_views.c:457-579 | the spans of a built view give the rows of the compressed view |
| BranchingPointer.ChainStep | cflow/benchmarks/cflow_branching_views.c:249-258 | appending a link extends its own chain and leaves the others alone |
| BranchingPointer.ChainEdge | cflow/benchmarks/cflow_branching_views.c:250-257 | chaining one edge in place keeps every chain in edge order |
| BranchingPointer.BuildPointer | cflow/benchmarks/cflow_branching_views.c:216-274 | the build fails as its inputs, allocations and byte totals say, or its chains list the edges of each source in order |
| BranchingPointer.WalkChain | cflow/benchmarks/cflow_branching_views.c:295-305 | one chain is folded until it ends, leaves the range or overflows the count |
| BranchingPointer.ObservePointer | cflow/benchmarks/cflow_branching_views.c:285-310 | for any forward-linked view, the observer succeeds exactly when its chains are in range and cover the edge count |
| BranchingPointer.PointerRows | cflow/benchmarks/cflow_branching_views.c:216-310 | the chains of a built view are the rows of the edges |
| BranchingAgreement.ObserveBuiltCsr | cflow/benchmarks/cflow_branching_views.c:342-423 | building and observing compressed rows reports the reference observation |
| BranchingAgreement.ObserveBuiltHash | cflow/benchmarks/cflow_branching_views.c:457-579 | building and observing hashed rows reports the reference observation |
| BranchingAgreement.ObserveBuiltPointer | cflow/benchmarks/cflow_branching_views.c:216-310 | building and observing linked rows reports the reference observation |
| BranchingNarrow.NarrowingHarmless | cflow/benchmarks/cflow_branching_views.c:103-112 | flat lookup reads the rows of the edges exactly when the edges past the last 32-bit id have the rows of those read in their place |
| BranchingNarrow.HarmlessMeansFaithful | cflow/benchmarks/cflow_branching_views.c:89-122 | then it accepts every valid subgraph and reports its reference observation |
| BranchingNarrow.MisreadIsRefused | cflow/benchmarks/cflow_branching_views.c:103-116 | a valid subgraph with more edges than ids that flat lookup refuses |
| BranchingNarrow.AcceptsAllExactlyWhenIdsFit | cflow/benchmarks/cflow_branching_views.c:89-122 | flat lookup accepts every valid subgraph of n edges exactly when n edge ids fit |
| BranchingAgreement.CompareViews | cflow/benchmarks/cflow_branching_views.c:83-122 | the four other views of every subgraph report its reference observation; flat lookup reports it too unless narrowing changes a row, and always up to 2^32 edges |
| BranchingChecksum.OneTargetIsSeen | cflow/benchmarks/cflow_branching_views.c:64-70 | rows that differ in one target have different checksums |
| BranchingChecksum.OneWrongTargetIsSeen | cflow/benchmarks/cflow_branching_views.c:64-81 | a view that reports one wrong target has another checksum than the reference |
| BranchingViews.OutDegree | cflow/src/graph.c:274-280 | the out-degree counts the edges leaving a node |
| MailboxSchema.SizeMultiplyExact | cflow/src/event.c:61-66 | the checked product exists exactly when it is positive and in range |
| MailboxSchema.AlignSize | cflow/src/event.c:73-82 | rounding up gives the next multiple of the alignment; it fails exactly on an empty size, an invalid alignment or overflow |
| MailboxSchema.Measure | cflow/src/event.c:84-116 | a schema is accepted exactly when it is valid, with the least extent fitting every type |
| MailboxSchema.SortedCopy | cflow/src/event.c:152-156 | the sorted copy declares exactly the same ids and types |
| MailboxSchema.TypeIndex | cflow/src/event.c:205-227 | binary search finds an id exactly when it is declared |
| MailboxRing.WrapIsModular | cflow/src/event.c:275-277 | the subtraction wrap equals modular indexing |
| MailboxRing.SlotInBounds | cflow/src/event.c:278-279 | the bytes of a slot lie in the payload buffer for every declared type |
| MailboxRing.SlotsDisjoint | cflow/src/event.c:278-279 | different slots never overlap, whatever types they hold |
| MailboxRing.SlotsAligned | cflow/src/event.c:73-82 | every slot starts aligned for every declared type |
| MailboxRing.PutAppends | cflow/src/event.c:275-281 | writing a slot appends to the queue and touches nothing queued |
| MailboxRing.TakeRemoves | cflow/src/event.c:319-333 | advancing the head removes the oldest event |
| Mailbox.Init | cflow/src/event.c:158-203 | the status follows the validity of schema, capacity and every size, then allocation |
| Mailbox.Mailbox.constructor | cflow/src/event.c:180-202 | a mailbox starts empty and open with a sorted schema |
| Mailbox.Mailbox.TrySend | cflow/src/event.c:238-289 | a send appends (id, bytes) exactly when its type is declared and the mailbox is open with room, or is refused with its own status, counted by it, and no other effect; a stored waiter is detached; the peak is kept |
| Mailbox.Mailbox.Store | cflow/src/event.c:275-288 | the admitted event is behind the queue and counted |
| Mailbox.Mailbox.WriteTail | cflow/src/event.c:275-280 | the tail slot is filled in place |
| Mailbox.Mailbox.CopyIn | cflow/src/event.c:278-279 | the payload bytes are copied and no others change |
| Mailbox.Mailbox.TryReceive | cflow/src/event.c:291-339 | a receive returns and removes the oldest event, or leaves the queue alone with its status |
| Mailbox.Mailbox.AllDelivered | cflow/src/event.c:291-339 | an empty mailbox that was never cancelled has delivered all it accepted, in order |
| Mailbox.Mailbox.Close | cflow/src/event.c:373-394 | closing keeps the queue, stops admission and detaches the waiter |
| Mailbox.Mailbox.Cancel | cflow/src/event.c:404-425 | cancelling drops the queue, counts it and detaches the waiter |
| Mailbox.Mailbox.WaitArm | cflow/src/event.c:427-443 | a waker is stored only while the mailbox is empty and open, else invoked or refused |
| Mailbox.Mailbox.WaitCancel | cflow/src/event.c:445-452 | the waiter is forgotten |
| OwnerExecutor.CallsAt | cflow/src/executor_owner.c:167-172 | the i-th task taken has exactly one body (run or cancel) and then one finalizer |
| OwnerExecutor.OwnerExecutor.constructor | cflow/src/executor_owner.c:355-379 | an executor starts open and empty on its mailbox |
| OwnerExecutor.OwnerExecutor.MaybeClose | cflow/src/executor_owner.c:44-48 | CLOSED only when closing, empty and idle |
| OwnerExecutor.OwnerExecutor.Enqueue | cflow/src/executor_owner.c:68 | the mailbox takes the task exactly when it is not full |
| OwnerExecutor.OwnerExecutor.Admit | cflow/src/executor_owner.c:50-93 | admission, its refusals, counters and peak; nothing is accepted once closing; the host is woken exactly for the first task of an idle executor |
| OwnerExecutor.OwnerExecutor.Shutdown | cflow/src/executor_owner.c:221-247 | the first policy is kept, and the host is woken exactly when it is chosen with work left to an idle owner |
| OwnerExecutor.OwnerExecutor.WaitIdle | cflow/src/executor_owner.c:190-205 | idle means nothing queued or running; from a callback it would block |
| OwnerExecutor.OwnerExecutor.RunBegin | cflow/src/executor_owner.c:144-163 | the oldest task is taken, and cancelled exactly under the cancelling policy |
| OwnerExecutor.OwnerExecutor.RunEnd | cflow/src/executor_owner.c:175-180 | the task is settled, counted once, and closing may complete |
| OwnerExecutor.OwnerExecutor.Interleave | cflow/src/executor_owner.c:165-172 | whatever re-enters during a callback leaves the running task and its record alone |
| OwnerExecutor.OwnerExecutor.RunOne | cflow/src/executor_owner.c:135-182 | one run settles the oldest task under any re-entrant posts, shutdowns, runs and waits |
| OwnerExecutor.OwnerExecutor.DrainQueue | cflow/src/executor_owner.c:308 | the drain ends, and treats every task by the selected policy |
| OwnerExecutor.OwnerExecutor.Destroy | cflow/src/executor_owner.c:296-314 | every task ever accepted has been settled exactly once in admission order, and the executor is closed |
| OwnerWake.RunsKeepInvariant | cflow/src/executor_owner.c:61-86 | the host invariant holds in every run |
| OwnerWake.NoLostHostWake | cflow/src/executor_owner.c:61-86 | a sleeping host with tasks queued has a wake latched or in flight |
| OwnerWake.DeliveryUnblocks | cflow/src/executor_owner.c:135-182 | delivering that wake lets the host wake and run a task |
| ManualLedger.LedgerBegins | cflow/src/executor.c:301-302 | a task taken has had exactly its body callback, and other tasks are unaffected |
| ManualLedger.LedgerFinalizes | cflow/src/executor.c:301-302 | its finalizer follows once |
| ManualExecutor.ManualExecutor.constructor | cflow/src/executor.c:739-757 | an executor starts open and empty |
| ManualExecutor.ManualExecutor.Conservation | cflow/src/executor.c:260-278 | accepted = count + settling + running + completed + cancelled |
| ManualExecutor.ManualExecutor.MaybeClose | cflow/src/executor.c:138-142 | CLOSED only when empty, settled and idle |
| ManualExecutor.ManualExecutor.Accept | cflow/src/executor.c:156-160 | an admitted task is behind the queue |
| ManualExecutor.ManualExecutor.TryPost | cflow/src/executor.c:144-161 | a post appends to the task array or is refused with no effect |
| ManualExecutor.ManualExecutor.WaitIdle | cflow/src/executor.c:209-219 | idle means nothing queued, settling or running |
| ManualExecutor.ManualExecutor.TakeFirst | cflow/src/executor.c:292-297 | the shift removes the oldest task and keeps the order of the rest |
| ManualExecutor.ManualExecutor.RunBegin | cflow/src/executor.c:292-301 | the oldest task is taken |
| ManualExecutor.ManualExecutor.RunEnd | cflow/src/executor.c:304-306 | the task is counted once and closing may complete |
| ManualExecutor.ManualExecutor.Perform | cflow/src/executor.c:299-303 | the script of the callback just made, with any re-entrant operations, ends, and leaves the running task and the slots being cancelled alone |
| ManualExecutor.ManualExecutor.RunOne | cflow/src/executor.c:285-308 | a run settles the oldest task; it is refused while running or cancelling |
| ManualExecutor.ManualExecutor.ClearQueue | cflow/src/executor.c:226-228 | the queue is handed to the cancelling loop whole |
| ManualExecutor.ManualExecutor.CancelBegin | cflow/src/executor.c:231-233 | the next slot is begun as cancelled |
| ManualExecutor.ManualExecutor.CancelEnd | cflow/src/executor.c:235-236 | the slot is settled and counted |
| ManualExecutor.ManualExecutor.CancelSlot | cflow/src/executor.c:231-237 | a slot still holds its task when its finalizer is read, and is settled once |
| ManualExecutor.ManualExecutor.CancelAll | cflow/src/executor.c:221-239 | every queued task, and no other, is begun as cancelled and finalized, oldest first |
| ManualExecutor.ManualExecutor.Shutdown | cflow/src/executor.c:241-258 | the first policy is kept; a cancelling shutdown empties the queue into cancellations, also from inside a run, and a draining one begins nothing |
| ManualExecutor.ManualExecutor.Destroy | cflow/src/executor.c:346-354 | every task ever accepted has had exactly one body and one finalizer, in admission order |
| DenseIndex.ReportStep | cflow/src/dense_successor_index.c:36-48 | one edge updates the fan-out report correctly |
| DenseIndex.Build | cflow/src/dense_successor_index.c:12-52 | each slot holds the first outgoing target, and fan-out is reported exactly when some node has two edges, naming the smallest; each failure has its status |
| DenseIndex.Successor | cflow/src/dense_successor_index.c:60-73 | the lookup answers with the first target exactly when there is one |
| LinearWalk.PathsAgree | cflow/src/certificate.c:61-79 | without fan-out any two paths from the entry agree |
| LinearWalk.CompleteIsSimple | cflow/src/certificate.c:61-79 | a walk that ends meets no node twice |
| LinearWalk.CompleteMeansAcyclic | cflow/src/certificate.c:61-79 | a walk that ends rules out every reachable cycle |
| LinearWalk.TooLongMeansCycle | cflow/src/certificate.c:65 | a walk with more visits than nodes has met a reachable cycle |
| Certificate.Prepare | cflow/src/certificate.c:54-58 | the walk starts exactly on valid, fan-out-free subgraphs |
| Certificate.Fingerprint | cflow/src/certificate.c:44-87 | the walk succeeds exactly when every reachable node passes the check and no cycle is reachable, within node-count visits, and hashes the path |
| Certificate.PathHashMixesTokens | cflow/src/certificate.c:59-78 | the fingerprint mixes the counts and, node by node, the id, operator, effects, properties, size and parameter kind, in this order |
| Certificate.OneChangeIsSeen | cflow/src/certificate.c:26-29 | changing one number that is mixed changes the fingerprint |
| Certificate.FieldChangeIsSeen | cflow/src/certificate.c:26-87 | changing one hashed field of one node on the path changes the fingerprint |
| Fnv.MixIsInjective | cflow/src/certificate.c:26-29 | the mixing step is injective in the hash and in the word |
| Certificate.CheckInst | cflow/src/certificate.c:120-134 | parameters agree exactly when the kinds do and a seed is present and equal on both sides, or on neither |
| Certificate.ParametersMatch | cflow/src/certificate.c:89-144 | accepts exactly when the path from the entry carries the parameters of the code, in order |
| CertificateRows.CountRows | cflow/src/certificate.c:152-163 | the row count, unless an instruction has no call or the sum overflows |
| CertificateRows.FillInst | cflow/src/certificate.c:202-230 | the calls of one instruction fill their own rows only |
| CertificateRows.FillRows | cflow/src/certificate.c:201-231 | succeeds exactly when every call has a valid contract, with every row written |
| CertificateRows.RowFields | cflow/src/certificate.c:216-229 | a row says what its call and instruction say: the chained call of a fused map, the own call otherwise, the types of the instruction where the call has none, and the intrinsic contract for TAKE and SKIP |
| CertificateRows.CheckCall | cflow/src/certificate.c:212-215 | a call passes exactly when its indices fit 32 bits and its contract is valid, or it is intrinsic with a size |
| CertificateRows.RowsAreOrdered | cflow/src/certificate.c:201-231 | rows come in instruction order, then call order, with no position twice |
| CertificateRows.RowsAreCalls | cflow/src/certificate.c:201-231 | every row is a call of the code and every call has its row |

## Left out

- Machine, Statechart, Subscription, Scheduler, Plan compilation and IO actors: used only through the answers they give.
- Pool-backed executors, adapters, clocks and native I/O: thin wrappers or operating-system calls.
- Dispatcher payload digests, metrics, and the pause and hold hooks used by measurements; a step that may fail the run at any time stands for deadlines.
- The branching views' memory reports, beyond the overflow status they cause; the hash map is a finite map, and whether its own storage can be accounted for is a parameter.
- `cflow_branching_observations_equal` with failed observations, and null pointers everywhere: arguments are present.
- `cflow_mailbox_get_stats` and the storage estimate: read-only sums over fields the model has.
- Actor rejection counters and the init paths before a shell exists.
- Actor: a thread still inside wait when the owner destroys the actor; callers must serialize the two, and only the shell's fields are followed.
- Actor: the subscription is taken to deliver callbacks only while open and to wait for running ones when it closes; a failed subscribe leaves none running.
- `cflow_coord` value-slot transfer failures, and cancelling an armed wait or an armed coordinator.
- Coordination.Coordinator.Scan: the four scan loops of ALL, ALL_DONE, ANY and LATEST are one method with the mode's reaction as its exit.
- OwnerExecutor.OwnerExecutor.Admit: size_t counters do not wrap in the model, since reaching their limit needs 2^64 accepted tasks.
- ManualExecutor.ManualExecutor.TryPost: counters do not wrap, and the would-block status of the control interface, which only renames a full queue, is not modelled.
- Draining loops `owner_run_ready` and `manual_run_ready`: they need not end, since a task may post itself again.
- MailboxSchema.AlignSize: the power-of-two test and the rounding mask are written as arithmetic.
- MailboxSchema.SortedCopy: the library sort is taken as the sorted permutation of the schema.
- Certificate.Fingerprint: the normal-form test and root lookup before the walk; graphs are taken in normal form.
- Comparing two certificates and recompiling a plan to check one.
