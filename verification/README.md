# OctoForge protocols, verified

OctoForge is a multi-process conversation runtime. Its guarantees rest on asynchronous
protocols: what holds depends on what may happen between two suspension points. This project
models those protocols in Dafny and proves what they promise, for every interleaving.

Each protocol is a state machine whose steps are the code between two suspensions (or one SQL
statement), with everything else - the model provider, tools, users, peers, the clock - choosing
freely which step comes next. Where the source changes objects in place, a class does the same
with loops, and each method is proved to be one step of the machine or to meet its specification.

| files | protocol |
|---|---|
| `Domain`, `Branch` | messages, and the branch of the narrative a run is shown |
| `DialogState`, `DialogWatermark`, `DialogOwnership`, `BranchHistory`, `UnseenReport`, `TaskLife`, `NoLostQuestion`, `ClosedOver`, `SettleSafety`, `GetsRun`, `ProcessLimit`, `Reach`, `LimitBreach`, `DialogEdges`, `DialogRunner` | the dialog actor: narrative, watermarks, exchanges, starts, settles |
| `SubscriberQueue`, `Outbox`, `OutboxOrder` | bounded subscriber queues and the delivery outbox |
| `Claims` | which process owns a dialog |
| `CronTable`, `CronScheduler`, `CronLease` | the cron table, one scheduling pass, many schedulers |
| `Segment`, `Compaction`, `AssembleGap`, `AssembleOrder` | rolling compaction and the readers beside it |
| `ToolTracker`, `AgentLoop`, `LoopRunner`, `LoopOrder`, `LoopInterrupt`, `LoopTools` | the agent loop and its concurrent tools |
| `LoginLimiter`, `AuthGate`, `CredentialHold` | the failure budget, the login gate and its cache |
| `Cosine`, `Similarity`, `Ranking`, `Fusion`, `LikeEscape` | dataset ranking and literal search |

`dafny verify dfyconfig.toml` checks the whole project.

## Reading the results

- History variables (the message log, what each run was shown, issued claims, completed slots,
  failure logs) are ordinary fields of the machine states that no decision reads.
- The results about lost questions hold for *clean* runs (`DialogOwnership.Clean`): a new task is
  ordered after its exchange's earlier ones, and recovery restarts no task of an exchange that has a
  newer one. The code enforces neither by itself. What can be lost is stated for every run in
  `ClosedOver`; `DialogEdges` has the inputs.
- Recovery runs before the actor takes its first message, as the manager builds it: a restart or
  revival never overlaps a command. The process limit asks only that recovery start at most one
  run per exchange; `LimitBreach` shows that this is exactly what it takes.
- A refusal for the process limit always sends a notice. A refusal for the plan's budget sends one
  a day, and a start may also be given up because the exchange or the dialog is gone; those
  messages are *dropped*, and a settle may close over them.
- A message is stored before it joins the narrative, and another may overtake it in between. That
  memory mirrors the archive is therefore a hypothesis of the compaction results, stated where it is
  used, and `AssembleOrder` has a run that breaks it. The compactor's own comment promises that an
  assemble never leaves a gap.
- Cancelled runs never reopen their exchange, also over an unseen message; the results about lost
  questions are about the answered and failed outcomes, as the code decides.
- Claim generations restart when the row is deleted, so fencing is proved inside one epoch between
  deletions and refuted across them.
- The ranking module's comment says an exact name is strictly above any other hit. It can tie
  (`Ranking.TieAtExtremes`); `Ranking.ExactNeverBelow` states when. For fused scores strictness
  holds up to 122 rankings and no further.
- The failure budget is at least one even for a configured budget of zero or less: the first
  failure of an unknown client is always hashed and recorded.
- Where the operator and the service share a user name, the service's password decides on the paths
  it may open (`AuthGate.OperatorIsVerifiedIff`).
- A run that ends with an empty stream or a final message without calls does not stop the tools it
  started while streaming (`LoopTools.ToolOutlivesTurn`); every other end does.

## Model

| member | source | states |
|---|---|---|
| `DialogWatermark.WatermarkIsExact` | `core/src/octoforge_core/agent/runner.py:2181-2247` | After every interleaving of appends, snapshots, trims and re-syncs by any number of runs, what lies above a run's watermark is exactly the messages appended after its last snapshot that are still in memory; the watermark is a valid position, and the skip test is sound and complete. |
| `DialogWatermark.StepKeepsPrivate` | `core/src/octoforge_core/agent/runner.py:2333-2353` | Whatever step any run or the actor takes, the entries a run wrote itself stay in its branch unchanged and in order; only its own appends extend them. |
| `DialogWatermark.RunShows` | `core/src/octoforge_core/agent/runner.py:2333-2353` | After every run of the machine each branch still shows, as rendered, the snapshot it was last built from. |
| `DialogWatermark.OwnMessageInBranch` | `core/src/octoforge_core/agent/runner.py:2181-2233` | A user message of the own exchange inside the snapshot stands in the branch: an entry of the narrative part is that very log position, marked. |
| `DialogOwnership.LiveRunIsNewest` | `core/src/octoforge_core/agent/runner.py:1980-2013` | Across every clean run the live run of an exchange is the newest task of that exchange, so ownership by task order and ownership by the in-memory table agree. |
| `DialogOwnership.OneRunPerExchange` | `core/src/octoforge_core/agent/runner.py:2053-2065` | Where live runs are their exchanges' newest tasks, two live runs of one exchange are the same run. |
| `DialogOwnership.RunOrdered` | `core/src/octoforge_core/agent/runner.py:734-772` | Over whole clean runs every start path keeps the order of tasks, the pending terminations, the start in progress and the tasks recovery has still to restart consistent. |
| `BranchHistory.ShownWasInBranch` | `core/src/octoforge_core/agent/runner.py:2333-2353` | Over every run, a log position of its own exchange that a live run counts as shown stood as such in its branch, marked, in some state of the run. |
| `BranchHistory.ReportedWasInBranch` | `core/src/octoforge_core/agent/runner.py:2427-2461` | The same for a run whose termination waits in the inbox. |
| `TaskLife.ReportedIffInBranch` | `core/src/octoforge_core/agent/runner.py:2427-2461` | Over every run from a state without runs, a termination counts a user message of its exchange as shown if and only if that log position stood in its run's branch in some state. |
| `NoLostQuestion.NoQuestionLost` | `core/src/octoforge_core/agent/runner.py:1659-1716` | In every clean run, when a termination closes its exchange as answered or failed, each own-words message of the exchange, by its position in the log, stood marked in that run's branch in some state of the run; or it was compacted before the run began, trimmed past its watermark, refused with a notice - or dropped in silence. |
| `ClosedOver.QuestionFate` | `core/src/octoforge_core/agent/runner.py:1887-1937` | The fate of every question of an exchange that a clean run closes: attached while the run lived, it stood in its branch unless compacted before the run or trimmed past it; attached later, it never did, and it was given up. |
| `UnseenReport.UnseenIsExact` | `core/src/octoforge_core/agent/runner.py:2463-2485` | In every run, a waiting termination reports nothing unseen exactly when no user message of its exchange lies, by log position, past its last snapshot and before its end; own words exactly when one of those is; material only exactly when some are and all are material. Every other user message of the exchange before its end was shown, trimmed past the run or older than it. |
| `SettleSafety.UnreadMaterialParks` | `core/src/octoforge_core/agent/runner.py:1687-1690` | An uncancelled termination of a live exchange's newest task over unread material, and nothing else unread, parks the exchange as a collection; it does not close it. |
| `GetsRun.RevivesIff` | `core/src/octoforge_core/agent/runner.py:1718-1752` | From an actor about to revive an exchange, a step begins a start if and only if it is the check of that exchange, which is open, has no run, and finds a free slot. |
| `GetsRun.UnreadQuestionIsAnswered` | `core/src/octoforge_core/agent/runner.py:1659-1752` | After every clean run: an uncancelled termination over an unread question that nobody gave up, of a live exchange no newer run owns, with the question in memory and a slot and the locks free, leads on to a live run of the exchange in whose branch that very question stands. |
| `GetsRun.SubmittedGetsRun` | `core/src/octoforge_core/agent/runner.py:1887-2013` | With the actor idle and a slot free, a submitted question of an exchange nobody runs leads on to a live run with the question in its branch, and the exchange in progress. |
| `GetsRun.JoinedReachesRun` | `core/src/octoforge_core/agent/runner.py:2333-2353` | A message that joins an exchange being answered leads on, at the next sync, into the branch of the run that answers it. |
| `GetsRun.PromotedGetsRun` | `core/src/octoforge_core/agent/runner.py:1309-1334` | A settled collection that is promoted leads on to a live run with its material in the branch. |
| `ClosedOver.ClosedOverUnread` | `core/src/octoforge_core/agent/runner.py:1659-1716` | In every run, a question that a settle closes over stood in that run's branch in no state at all. |
| `NoLostQuestion.UnreadQuestionReopens` | `core/src/octoforge_core/agent/runner.py:2427-2485` | When an uncancelled run ends over an own-words message that is neither accounted for nor given up, a newer run owns the exchange, or the exchange is gone or closed already, or the settle reopens it and the actor goes on to resume it; GetsRun.UnreadQuestionIsAnswered goes on from there. |
| `ClosedOver.ClosesOverIff` | `core/src/octoforge_core/agent/runner.py:1659-1716` | In every run, clean or not: a settle that closes an exchange closes over exactly those of its questions that were attached after the run had ended. |
| `ClosedOver.QuestionLostIff` | `core/src/octoforge_core/agent/runner.py:1659-1716` | With nothing in progress, an attached question can still be closed over unread in some clean continuation if and only if its exchange is live and a closing termination of its newest task, older than the question, waits in the inbox. |
| `ClosedOver.DroppedLostIff` | `core/src/octoforge_core/agent/runner.py:2121-2138` | A question whose start is given up in silence (a repeated budget refusal, a vanished exchange, a moved dialog) can be closed over if and only if, at that moment, its exchange is live and such a termination waits. |
| `ClosedOver.PlacedLostIff` | `core/src/octoforge_core/dialogs/store.py:483-495` | A question whose start is stored can be closed over if and only if such a termination waits and its task still comes out newest beside the new row. |
| `SettleSafety.SupersededForever` | `core/src/octoforge_core/dialogs/store.py:483-495` | Once a newer task of the exchange exists, a task is superseded in every later state. |
| `SettleSafety.SupersededNeverSettles` | `core/src/octoforge_core/dialogs/store.py:677-733` | However late it is handled, the termination of a superseded run changes no exchange. |
| `SettleSafety.ClosedByNewestRun` | `core/src/octoforge_core/dialogs/store.py:677-733` | Over whole runs: a live exchange that ends closed with nobody else writing it was closed by the termination of the task that is its newest to the end, with that run's outcome; unless it was cancelled, every user message of the exchange up to that run's end, material included, by its position in the log, was shown to it, trimmed past it or older than it. |
| `SettleSafety.ClosedOnce` | `core/src/octoforge_core/dialogs/store.py:677-733` | Over whole runs: an exchange nobody else writes is closed by at most one termination, and ends closed if and only if one closed it. |
| `SettleSafety.ClosedStaysClosed` | `core/src/octoforge_core/dialogs/store.py:677-733` | Through any run in which no other step writes it, a closed exchange keeps its status, however many terminations are settled. |
| `SettleSafety.AwaitingIsKept` | `core/src/octoforge_core/agent/runner.py:1659-1716` | Through any run in which no other step writes it, an exchange awaiting the user stays so while the terminations settled for it are uncancelled with nothing unseen. |
| `SettleSafety.AskedStaysParked` | `core/src/octoforge_core/agent/runner.py:1659-1716` | An exchange whose run has asked the user stays parked, whatever terminations that saw everything follow. |
| `SettleSafety.CancelledStaysCancelled` | `core/src/octoforge_core/agent/runner.py:1659-1716` | An exchange a command has cancelled stays cancelled, whatever its runs report later. |
| `ProcessLimit.LimitHolds` | `core/src/octoforge_core/agent/runner.py:2049-2080` | Across submit, resume, spawn, wake and restart, with runs ending and cancels arriving at any time: while recovery starts at most one run per exchange, uncancelled live runs never exceed the limit and no exchange has two live runs. Task order plays no part. |
| `LimitBreach.LimitIff` | `core/src/octoforge_core/agent/runner.py:2925-2931` | From every state in which recovery is over, nothing is in progress and the limit holds, cancelled runs unwinding or not, it holds in every continuation if and only if no uncancelled run shares its exchange with another live run. |
| `LimitBreach.TwoOrphansExceed` | `core/src/octoforge_core/agent/runner.py:2974-2978` | Counterexample for every limit above one: recovery restarts two orphaned tasks of one exchange, a cancel stops one, the other stays discounted, and one run too many is admitted. |
| `LimitBreach.LimitSafeIff` | `core/src/octoforge_core/agent/runner.py:822-838` | The limit is safe from every initial state, orphans and all, if and only if it is at most one. |
| `DialogEdges.CleanIsSingle` | `core/src/octoforge_core/agent/runner.py:2974-2978` | Restarting only the newest task of an exchange never makes two runs of it, so clean runs keep the limit. |
| `ProcessLimit.DiscountCovered` | `core/src/octoforge_core/agent/runner.py:2067-2080` | The exchanges discounted by the limit test are covered by distinct live runs that are cancelled, so the discount never exceeds them. |
| `DialogEdges.InitialHolds` | `core/src/octoforge_core/agent/runner.py:586-652` | All of these invariants hold of a freshly loaded actor, whatever its history. |
| `DialogEdges.CreationTieLosesQuestion` | `core/src/octoforge_core/dialogs/store.py:483-495` | Counterexample: two tasks of one exchange with equal creation times and descending ids let the older run close the exchange over a question it never saw and nobody gave up. |
| `DialogEdges.SecondRefusalLosesQuestion` | `core/src/octoforge_core/agent/runner.py:2129-2138` | Counterexample: the budget refuses two questions on one day while a termination of their exchange waits; the user is told once, and the settle closes the exchange over the second question in a clean run. |
| `DialogRunner.ConversationRunner.AttachMessage` | `core/src/octoforge_core/agent/runner.py:1887-1937` | The routed message is appended to the log and the narrative and the actor goes on to place it: one machine step. |
| `DialogRunner.ConversationRunner.LiveProcessFor` | `core/src/octoforge_core/agent/runner.py:2053-2065` | Finds a live run of the exchange if and only if there is one. |
| `DialogRunner.ConversationRunner.CancelledTasks` | `core/src/octoforge_core/agent/runner.py:2067-2080` | Returns exactly the cancelled exchanges that some live run still occupies. |
| `DialogRunner.ConversationRunner.PlaceCheck` | `core/src/octoforge_core/agent/runner.py:1980-2013` | Owner assignment's first look is the machine's step: a live run keeps the message, otherwise a start begins. |
| `DialogRunner.ConversationRunner.Admit` | `core/src/octoforge_core/agent/runner.py:2049-2051` | The limit test is the machine's step: refuse and remember the refusal, or admit. |
| `DialogRunner.ConversationRunner.TrimNarrative` | `core/src/octoforge_core/agent/runner.py:2235-2247` | Drops the prefix and shifts every run's watermark, clamping at 0. |
| `DialogRunner.ConversationRunner.FinishAssembly` | `core/src/octoforge_core/agent/runner.py:2181-2233` | Finishing an assemble trims to the snapshot and rebuilds or starts the run it was for: one machine step. |
| `DialogRunner.ConversationRunner.ResyncBranch` | `core/src/octoforge_core/agent/runner.py:2333-2353` | The run's branch becomes the newly rendered narrative part followed by its untouched private suffix, its watermark the snapshot's tail count. |
| `DialogRunner.ConversationRunner.MayStart` | `core/src/octoforge_core/agent/runner.py:2121-2138` | The first stretch of a start: a moved dialog gives it up in silence, a spent budget with a note at most once a day; otherwise nothing changes. |
| `DialogRunner.ConversationRunner.OpenBranch` | `core/src/octoforge_core/agent/runner.py:2155-2162` | The last stretch: the new run starts with the rendered snapshot as its branch and leaves the other runs alone. |
| `DialogRunner.ConversationRunner.UnseenKindOf` | `core/src/octoforge_core/agent/runner.py:2463-2485` | The loop over the messages above the watermark: own words exactly when a position above it holds a message of the exchange in the user's own words, material only exactly when some holds a user message of it and none of those is in own words, nothing exactly when none does. |
| `DialogRunner.ConversationRunner.Terminate` | `core/src/octoforge_core/agent/runner.py:2427-2461` | Removes the run and posts its outcome with what it left unseen: one machine step. |
| `DialogRunner.ConversationRunner.NewestTaskOf` | `core/src/octoforge_core/dialogs/store.py:483-495` | Returns the newest task of the exchange by creation time and then id, or none if it has none. |
| `DialogRunner.ConversationRunner.SettleOwned` | `core/src/octoforge_core/dialogs/store.py:677-733` | The guarded update applies exactly when the task owns a live exchange, and changes that exchange alone. |
| `DialogRunner.ConversationRunner.Settle` | `core/src/octoforge_core/agent/runner.py:1659-1716` | Handling the termination at the head of the inbox is the machine's step. |
| `Branch.RenderBranch` | `core/src/octoforge_core/agent/branch.py:56-92` | The rendering loop equals the specification function Render. |
| `Branch.RenderRemovesExactlyForeign` | `core/src/octoforge_core/agent/branch.py:56-92` | The branch is the narrative minus exactly the own-words messages of other live exchanges, in order. |
| `Branch.ExactlyOneTask` | `core/src/octoforge_core/agent/branch.py:94-112` | Exactly one entry carries the task mark when the own exchange has a user message, none otherwise. |
| `Branch.TaskMarkPlace` | `core/src/octoforge_core/agent/branch.py:94-112` | An entry carries the task mark exactly when it is the first own-words message of the own exchange, or the last material where there are none. |
| `Branch.OutsideOwnUnchanged` | `core/src/octoforge_core/agent/branch.py:56-92` | Outside the own exchange, user messages of other live exchanges (only material is left of them) are marked as shared; every other message is shown unmarked. |
| `Branch.OwnIsShown` | `core/src/octoforge_core/agent/branch.py:114-119` | Every user message of the own exchange is kept in the branch, and its note says whether it is material or the user's own words and whether it is the task. |
| `CronLease.LeasesAreExclusive` | `core/src/octoforge_core/cron/scheduler.py:66-146` | For any number of schedulers on one clock whose ticks are cut off within the lease, no two ticks hold a job at once, and the lease dropped by an unguarded release or completion is the caller's own. |
| `CronLease.LateCutoffSharesLease` | `core/src/octoforge_core/cron/scheduler.py:66-81` | Counterexample for every later cut-off: two ticks hold the same lease. |
| `CronLease.ExclusiveIffCutoff` | `core/src/octoforge_core/cron/scheduler.py:66-81` | Leases are exclusive in every run if and only if the cut-off is at most the lease time. |
| `CronLease.NoSlotTwice` | `core/src/octoforge_core/cron/store.py:146-159` | Under scheduler steps the slots a job completes strictly increase, so none is completed twice. |
| `CronLease.LastFireIsExact` | `core/src/octoforge_core/cron/store.py:146-159` | Over every run of scheduler steps, a job completed at least once has a last fire time in the past, no earlier than any slot it completed, and its next slot is the schedule's first after it; a job not completed has the last fire time it began with, none if it was created meanwhile. |
| `CronScheduler.DueAgainIff` | `core/src/octoforge_core/cron/scheduler.py:96-146` | When a fired job is due again: at its next slot, at once, or when its lease is stale, by the outcome of the wake. |
| `CronScheduler.Scheduler.Fire` | `core/src/octoforge_core/cron/scheduler.py:96-146` | A lost compare-and-swap changes nothing; otherwise exactly that row changes, as the outcome of the wake says. |
| `CronScheduler.Scheduler.Tick` | `core/src/octoforge_core/cron/scheduler.py:83-94` | A pass fires exactly the listed due jobs, each once, and leaves every other row alone. |
| `CronTable.Table.ListDue` | `core/src/octoforge_core/cron/store.py:94-108` | The due jobs, earliest first, at most the limit, and none left out that precedes a listed one. |
| `CronTable.Table.Claim` | `core/src/octoforge_core/cron/store.py:110-134` | Wins exactly when the row is enabled, still at the expected slot and free or stale; then only its lease changes. |
| `CronTable.Table.ReleaseClaim` | `core/src/octoforge_core/cron/store.py:136-144` | Clears the lease of that row, whoever holds it, and nothing else. |
| `CronTable.Table.CompleteFire` | `core/src/octoforge_core/cron/store.py:146-159` | Records the firing, moves to the next slot and clears the lease of that row alone. |
| `CronTable.CountMissed` | `core/src/octoforge_core/cron/api.py:232-256` | The early-stopping loop returns at most the cap; below the cap, the number of slots in (since, now] beyond the one being fired, or 0 without any; the cap itself only if that many were missed, or the cap is not positive. |
| `SubscriberQueue.QueueGuarantees` | `core/src/octoforge_core/agent/runner.py:2670-2738` | Over every run of broadcasts and reads: capacity holds, numbers strictly increase, an accepted critical event is read or still queued, and broadcasts = read + queued + dropped. |
| `SubscriberQueue.EvictSound` | `core/src/octoforge_core/agent/runner.py:2706-2738` | Evicting the oldest droppable entry keeps all of these. |
| `SubscriberQueue.OfferToFull` | `core/src/octoforge_core/agent/runner.py:2690-2738` | A full queue is left as it was by chatter, and by a critical event when nothing may be dropped; else the critical event costs exactly the oldest droppable entry. |
| `SubscriberQueue.ChatterLeavesFull` | `core/src/octoforge_core/agent/runner.py:2690-2696` | While nobody reads and nothing critical comes, a full queue keeps what it holds and counts every broadcast as dropped. |
| `SubscriberQueue.RefusedIffAllCritical` | `core/src/octoforge_core/agent/runner.py:2706-2738` | A critical event is refused exactly when the queue is full of entries that may not be dropped. |
| `SubscriberQueue.CloseLosesCritical` | `core/src/octoforge_core/agent/runner.py:1078-1093` | Stand-down loses a critical event unread if and only if the queue is full and its oldest entry is critical. |
| `SubscriberQueue.Queue.EvictAndPut` | `core/src/octoforge_core/agent/runner.py:2706-2738` | Drain, drop the first droppable entry, refill: order is preserved and the event is last, or nothing changes. |
| `SubscriberQueue.Queue.Deliver` | `core/src/octoforge_core/agent/runner.py:2670-2704` | One subscriber's share of a broadcast, with exactly one drop counted when the queue was full. |
| `SubscriberQueue.Queue.CloseStream` | `core/src/octoforge_core/agent/runner.py:1078-1093` | The closing marker always lands, at the price of the oldest entry when the queue is full. |
| `Outbox.DeliveriesConserved` | `core/src/octoforge_core/agent/runner.py:1848-1885` | In every interleaving of pushes at either end, broadcasts, reads and suspended flushes, each delivery ever queued is still queued or its last event was received, and a task is stamped only after that. |
| `Outbox.ResumeRemovesOnlySent` | `core/src/octoforge_core/agent/runner.py:1848-1885` | A resuming flush removes the delivery it sent, wherever it is by then, no other, and keeps the order of the rest. |
| `OutboxOrder.ResultWaitsItsTurn` | `core/src/octoforge_core/agent/runner.py:1848-1885` | In every run, a delivery pushed to the back is sent only after everything it found waiting. |
| `OutboxOrder.QuestionJumpsQueue` | `core/src/octoforge_core/agent/runner.py:911-930` | In every run, an exchange's question pushed to the front is sent before everything it found waiting and unsent. |
| `OutboxOrder.NoticeSentOnce` | `core/src/octoforge_core/agent/runner.py:1848-1885` | In every run, a delivery accepted for a second time is the result of a task: a notice is accepted once. |
| `Outbox.RemovedAt` | `core/src/octoforge_core/agent/runner.py:1848-1885` | Removing a delivery that occurs once removes it at its place. |
| `Outbox.PendingDeliveries.Append` | `core/src/octoforge_core/agent/runner.py:911-930` | A notice goes to the back. |
| `Outbox.PendingDeliveries.AppendLeft` | `core/src/octoforge_core/agent/runner.py:911-930` | An exchange's question goes to the front. |
| `Outbox.PendingDeliveries.Remove` | `core/src/octoforge_core/agent/runner.py:1848-1885` | Pops the head if it is this delivery, else removes its first occurrence, else does nothing. |
| `Compaction.CompactionInvariant` | `core/src/octoforge_core/context/compactor.py:187-287` | In every interleaving of stored messages with guarded compactions the boundary only moves forward, stays below the newest message, never follows an assistant message directly before the interrupted note, and the summaries cover exactly what is below it. |
| `Compaction.PairsNeverParted` | `core/src/octoforge_core/dialogs/store.py:217-262` | In every interleaving, of a partial answer and its note stored in one transaction the boundary never covers the one without the other. |
| `Compaction.CompactsIff` | `core/src/octoforge_core/context/compactor.py:244-287` | An undisturbed compaction moves the boundary forward by the segment it chose if and only if the hot tail is longer than one message and is not just one salvaged pair. |
| `Compaction.Partition` | `core/src/octoforge_core/context/store.py:61-141` | Wherever the compaction invariant holds, each archived message is under the summaries or in the hot tail, never both. |
| `AssembleGap.AssembleLeavesNoGap` | `core/src/octoforge_core/context/compactor.py:118-153` | If memory agrees with the archive past the boundary when the tail is counted, and nothing is stored or joins memory before the snapshot, every archived message is under the topics block or in the tail, whatever compactions commit in between. |
| `AssembleGap.GapFreeIffAgrees` | `core/src/octoforge_core/context/compactor.py:328-333` | Where the topics block ends at the counted boundary, there is no gap if and only if memory agrees with the archive past it. |
| `AssembleGap.MirrorGapFreeIff` | `core/src/octoforge_core/context/compactor.py:118-153` | While memory mirrors the archive, there is no gap if and only if the messages stored since the count are no more than the topics block reaches beyond the counted boundary. |
| `AssembleGap.SteadyRunLeavesNoGap` | `core/src/octoforge_core/context/compactor.py:118-153` | In every run in which messages join memory in the order stored, tails are counted when all have joined and nothing joins before the snapshot, every assemble is without a gap. |
| `AssembleGap.MemoryKeepsHot` | `core/src/octoforge_core/agent/runner.py:2235-2247` | In such runs, trims and all, memory keeps every message that joined it and is not summarized. |
| `AssembleGap.LoadedDialog` | `core/src/octoforge_core/dialogs/store.py:333-352` | A dialog just loaded with its hot slice meets the hypotheses. |
| `AssembleOrder.InversionLosesMessage` | `core/src/octoforge_core/agent/runner.py:1175-1216` | Counterexample: an answer stored after a question joins memory before it and a compaction commits between them; nothing happens after the count, yet the answer is neither summarized nor in the tail, and the trim drops it. |
| `Compaction.SummaryTable.ReplaceForDialog` | `core/src/octoforge_core/context/store.py:61-80` | The dialog's summaries become exactly the merged one; other dialogs' are untouched. |
| `Segment.SelectCompactSegment` | `core/src/octoforge_core/context/compactor.py:290-317` | The growing and popping loop returns a prefix that is the segment cut. |
| `Segment.SegmentGuarantees` | `core/src/octoforge_core/context/compactor.py:290-325` | The segment leaves out the newest message; never ends in an assistant message whose successor is the system's interrupted note; is as long as the target allows, but for a last pair kept whole; exceeds the target only by a single first message or one trailing note; and is empty exactly for a tail of at most one message or such a pair alone. |
| `Segment.SegmentUnique` | `core/src/octoforge_core/context/compactor.py:290-317` | The budget cut is unique, so the segment is a function of tail and target. |
| `Claims.PreemptedForever` | `core/src/octoforge_core/dialogs/store.py:752-833` | In every run, a claim once preempted is never again kept by a beat, never deletes the row and never passes the per-run check while the row is not deleted. |
| `Claims.OneCurrentClaimPasses` | `core/src/octoforge_core/agent/runner.py:1105-1119` | In every reachable state exactly one claim issued since the last deletion passes the per-run check where the row exists: the newest, which beats keep. |
| `Claims.HeartbeatIsLastBeat` | `core/src/octoforge_core/dialogs/store.py:773-798` | While a claim is neither superseded nor deleted, its row carries the time of the last beat that spoke for it, whatever other processes do: a silent holder goes stale. |
| `Claims.BothPassIff` | `core/src/octoforge_core/agent/runner.py:1105-1119` | Two claims issued between the same deletions both pass exactly when the row is gone, and never while it is their own. |
| `Claims.MatchesAgainIff` | `core/src/octoforge_core/dialogs/store.py:752-833` | In every reachable state a claim (owner, g), whenever it was handed out, matches the row exactly when g claims were issued on its dialog since the last deletion and the last was its owner's. |
| `Claims.DeletionRevivesClaims` | `core/src/octoforge_core/dialogs/store.py:800-809` | Counterexample across a deletion: a preempted claim equals the next one issued and is kept again. |
| `Claims.ClaimTable.TakeClaim` | `core/src/octoforge_core/dialogs/store.py:71-97` | Inserts generation 1 or bumps the stored one; the claimer's pair is stored, and no earlier claim matches any more. |
| `Claims.ClaimTable.Heartbeat` | `core/src/octoforge_core/dialogs/store.py:773-798` | Keeps exactly the dialogs whose last listed claim equals the stored pair, and refreshes exactly their rows. |
| `Claims.ClaimTable.Release` | `core/src/octoforge_core/dialogs/store.py:800-809` | Deletes the row if it is this exact pair, else does nothing. |
| `Claims.ClaimTable.HeldElsewhere` | `core/src/octoforge_core/dialogs/store.py:811-825` | Exactly the listed dialogs another owner holds with a fresh heartbeat. |
| `Claims.ClaimTable.CurrentGeneration` | `core/src/octoforge_core/dialogs/store.py:827-833` | The stored generation, which decides the per-run check of every claim on the dialog. |
| `Claims.ClaimTable.StillOwnsDialog` | `core/src/octoforge_core/agent/runner.py:1105-1119` | Fails open: a failed read, a missing row or an equal generation counts as ownership. |
| `AgentLoop.OneTerminalEvent` | `core/src/octoforge_core/agent/loop.py:273-305` | In every interleaving a finished run has exactly one terminal event, last, and it reports what happened; any other run has none; a wait that cannot end is for a task still running. |
| `AgentLoop.DoneIsFinal` | `core/src/octoforge_core/agent/loop.py:273-305` | After the terminal event nothing changes events or history. |
| `AgentLoop.EveryTurnIsAnswered` | `core/src/octoforge_core/agent/loop.py:426-504` | Outside the wait for tools, each appended turn with k calls is directly followed by exactly k replies in call order, then by the next turn. |
| `AgentLoop.HistoryGrows` | `core/src/octoforge_core/agent/loop.py:371-390` | A run only ever appends to the history. |
| `LoopInterrupt.InterruptKeepsTurn` | `core/src/octoforge_core/agent/loop.py:426-441` | In every run, an interrupt appends exactly one turn, whose text is that of the iteration's TextDelta events in order and whose calls are those the stream delivered in the iteration, in order, followed by one reply per call, and reports that turn as interrupted. |
| `LoopTools.ToolsToldAsLanded` | `core/src/octoforge_core/agent/loop.py:139-203` | In every run, a completion event tells the output, and a failure event the error, that landed for its call; a tool reply is the output, or the prefixed error, that landed for its call id, or says the call was cancelled. |
| `LoopTools.ToolsAreStopped` | `core/src/octoforge_core/agent/loop.py:176-182` | In every run no tool is running between iterations or after the run has ended, unless it ended with a final message without calls or an empty stream. |
| `LoopTools.ToolOutlivesTurn` | `core/src/octoforge_core/agent/loop.py:300-302` | Counterexample for the rest: a call announced in the stream and a final message without calls end the run with the tool still running. |
| `LoopOrder.ConcurrentIsSequential` | `core/src/octoforge_core/agent/loop.py:97-207` | Without a cancel and with distinct call ids, every interleaving leaves the history and the terminal event of a sequential loop that executes each call as it is read. |
| `LoopOrder.HistoryIgnoresToolOrder` | `core/src/octoforge_core/agent/loop.py:477-504` | Two runs fed the same stream by the same tools have the same history, whatever finished first. |
| `LoopOrder.OrderShowsIff` | `core/src/octoforge_core/agent/loop.py:139-151` | A wait for two runs of one id shows their order exactly when their contents differ and the turn has a call with that id. |
| `LoopOrder.RepeatedIdShowsOrder` | `core/src/octoforge_core/agent/loop.py:139-151` | Whenever two runs of one id with different contents are still to land, among any others, and the turn has a call with that id, the same tools lead to two different histories. |
| `LoopOrder.DuplicateIdsShowOrder` | `core/src/octoforge_core/agent/loop.py:120-124` | Counterexample with a repeated call id: the same stream and tools leave two different histories. |
| `ToolTracker.CollectedExact` | `core/src/octoforge_core/agent/loop.py:139-151` | Draining keeps the last landed result of every id and invents none. |
| `ToolTracker.ToolRunTracker.Spawn` | `core/src/octoforge_core/agent/loop.py:120-124` | The call is appended to the order and its task replaces any earlier one of the same id. |
| `ToolTracker.ToolRunTracker.MarkBroken` | `core/src/octoforge_core/agent/loop.py:126-137` | The call is appended to the order and its error lands without a run. |
| `ToolTracker.ToolRunTracker.Land` | `core/src/octoforge_core/agent/loop.py:205-207` | The run ends and its result is queued, unless it was cancelled. |
| `ToolTracker.ToolRunTracker.Drain` | `core/src/octoforge_core/agent/loop.py:139-151` | The loop empties the queue into the results and returns one completion event per result, in landing order. |
| `ToolTracker.ToolRunTracker.Abort` | `core/src/octoforge_core/agent/loop.py:176-182` | Stops every task and keeps what landed, the errors of runs past their time limit that land meanwhile included. |
| `AgentLoop.LateIsLanding` | `core/src/octoforge_core/agent/loop.py:234-240` | Such late errors are landings just before the abort, so the machine's runs include them. |
| `ToolTracker.ToolRunTracker.ToolMessages` | `core/src/octoforge_core/agent/loop.py:188-203` | One reply per call, in call order; a missing result reads as cancelled. |
| `LoopRunner.LoopRun.Begin` | `core/src/octoforge_core/agent/loop.py:273-286` | The top of an iteration is one machine step: the limit, the cancel, or a fresh tracker. |
| `LoopRunner.LoopRun.Interrupt` | `core/src/octoforge_core/agent/loop.py:426-441` | The partial turn is appended with a reply to each of its calls, then Cancelled: one machine step, whose turn LoopInterrupt.InterruptKeepsTurn pins. |
| `LoopRunner.LoopRun.OnStreamEvent` | `core/src/octoforge_core/agent/loop.py:355-365` | The cancel flag is looked at before the event is handled. |
| `LoopRunner.LoopRun.HandleStreamEvent` | `core/src/octoforge_core/agent/loop.py:392-424` | The event is noted and everything that landed meanwhile is collected. |
| `LoopRunner.LoopRun.Finalize` | `core/src/octoforge_core/agent/loop.py:371-390` | A stalled or empty stream fails; a final message ends the run or opens the wait for its tools. |
| `LoopRunner.LoopRun.SpawnCalls` | `core/src/octoforge_core/agent/loop.py:492-495` | A stream without call events starts every call of the final message, announced in order. |
| `LoopRunner.LoopRun.FinishTools` | `core/src/octoforge_core/agent/loop.py:477-504` | The end of the wait, or of the cancel, appends one reply per call and returns to the boundary. |
| `LoginLimiter.LoginBudget` | `server/src/octoforge_server/auth.py:176-216` | A client with at most k attempts in flight never has more failures in a half-open window of one cooldown than the budget (at least one) and k - 1, since it was last forgotten, whatever other clients do; without overlap, never more than the budget. |
| `LoginLimiter.BudgetIsSpent` | `server/src/octoforge_server/auth.py:283-338` | For every configured budget and every k that many failures do fall together: the bound is exact. |
| `LoginLimiter.VerdictIsSpecified` | `server/src/octoforge_server/auth.py:191-201` | After every run the blocked verdict equals the specification over the client's failure log, and the table is within its bound. |
| `LoginLimiter.EvictionTakesOldest` | `server/src/octoforge_server/auth.py:203-212` | An evicted client's last failure is no later than that of any client kept. |
| `LoginLimiter.CheckedForgets` | `server/src/octoforge_server/auth.py:191-201` | A check forgets its client exactly when its cooldown is over, and no other client. |
| `LoginLimiter.AttemptLimiter.Blocked` | `server/src/octoforge_server/auth.py:191-201` | The verdict on the table, dropping an entry whose cooldown is over. |
| `LoginLimiter.AttemptLimiter.RecordFailure` | `server/src/octoforge_server/auth.py:203-212` | Counts the failure on or anew, moves the client to the end and evicts from the front down to the bound. |
| `LoginLimiter.AttemptLimiter.RecordSuccess` | `server/src/octoforge_server/auth.py:214-216` | Forgets the client and nobody else. |
| `AuthGate.OnlyGenuineEnter` | `server/src/octoforge_server/auth.py:257-338` | In every run of overlapping attempts a request enters only with the operator's credential, or the service's where allowed and configured, verified then or less than the cache lifetime before. |
| `AuthGate.TooManyIffRefused` | `server/src/octoforge_server/auth.py:283-338` | After every run, a request no cache lets in is refused without hashing exactly when its client's failure log says so. |
| `AuthGate.GateBudget` | `server/src/octoforge_server/auth.py:283-338` | In every run of the gate with at most k attempts of a client in progress, a half-open window of one cooldown holds at most the budget and k - 1 of its failures. |
| `AuthGate.RunProjects` | `server/src/octoforge_server/auth.py:283-338` | Every run of the gate drives the failure table as a run of the limiter. |
| `AuthGate.OperatorIsVerifiedIff` | `server/src/octoforge_server/auth.py:322-333` | The operator's credential, checked afresh, passes exactly when it is not taken for the service's or satisfies that hash too. |
| `CredentialHold.SuccessSparesHash` | `server/src/octoforge_server/auth.py:219-249` | A success whose header was not cached lets the same header in without a hash, past the failure limit too, until the lifetime ends, in every run with fewer further completions than the cache has entries. |
| `CredentialHold.RememberedIsHeld` | `server/src/octoforge_server/auth.py:244-249` | The header just remembered is held for its lifetime, and is the last that would be evicted. |
| `CredentialHold.LookedIsCurrent` | `server/src/octoforge_server/auth.py:232-242` | After a look-up the header is in the cache exactly when it is unexpired; a valid entry is never dropped. |
| `AuthGate.CredentialCache.IsValid` | `server/src/octoforge_server/auth.py:232-242` | Whether the header is held unexpired; an expired entry is dropped. |
| `AuthGate.CredentialCache.Remember` | `server/src/octoforge_server/auth.py:244-249` | Stores the expiry in place or at the end and evicts from the front down to the bound. |
| `AuthGate.Gate.Authenticate` | `server/src/octoforge_server/auth.py:283-332` | The decisions up to the hash, in order, and what they leave in the tables. |
| `AuthGate.Gate.Complete` | `server/src/octoforge_server/auth.py:332-338` | A failed check is counted; a success clears the client and is remembered in the cache of its own credential. |
| `Cosine.CauchySchwarz` | `core/src/octoforge_core/datasets/ranking.py:18-28` | The squared dot product is at most the product of the squared norms. |
| `Cosine.CosineBounded` | `core/src/octoforge_core/datasets/ranking.py:18-28` | The similarity lies in [-1, 1], is 0 next to a zero vector, and is refused exactly on non-zero vectors of different lengths. |
| `Cosine.SquareSumZero` | `core/src/octoforge_core/datasets/ranking.py:20-23` | A norm is zero exactly for the zero vector. |
| `Similarity.SimilarityIsCosine` | `core/src/octoforge_core/datasets/ranking.py:18-28` | For non-zero vectors of equal length the similarity times the product of the two norms is the dot product. |
| `Similarity.SimilaritySymmetric` | `core/src/octoforge_core/datasets/ranking.py:18-28` | The similarity, refusals included, does not depend on the order of the vectors. |
| `Similarity.SimilarityScaled` | `core/src/octoforge_core/datasets/ranking.py:18-28` | Scaling a vector by a positive factor changes nothing, by a negative one the sign alone. |
| `Similarity.SimilarityOrder` | `core/src/octoforge_core/datasets/ranking.py:18-28` | Of two candidates one scores no higher than the other if and only if its dot product with the query, times the other's norm, is no larger. |
| `Similarity.LargerDotWins` | `core/src/octoforge_core/datasets/ranking.py:18-28` | Of two candidates of equal norm one scores no higher if and only if its dot product is no larger. |
| `Similarity.ExtremeIffAligned` | `core/src/octoforge_core/datasets/ranking.py:18-28` | The similarity is 1 exactly on non-zero vectors of one direction, and -1 exactly on opposite ones. |
| `Ranking.ExactNeverBelow` | `core/src/octoforge_core/datasets/ranking.py:56-64` | An exact-name candidate never scores below another, and ties, at 1, exactly when its vector points opposite to the query and the other's along it. |
| `Ranking.ExactFirst` | `core/src/octoforge_core/datasets/ranking.py:31-53` | In the returned list an exact name stands after another only on a tie at score 1. |
| `Ranking.TieAtExtremes` | `core/src/octoforge_core/datasets/ranking.py:12-14` | Counterexample to "strictly above": at the extremes the exact name loses to an earlier name. |
| `Ranking.RankIsTop` | `core/src/octoforge_core/datasets/ranking.py:31-53` | The best k scored candidates, in order, each with its score: with what is left out they are all the scored candidates, and nothing left out goes before them; raises exactly when k is positive and some vector is refused. |
| `Ranking.CloserComesFirst` | `core/src/octoforge_core/datasets/ranking.py:31-53` | In the returned list, the closer (by dot product over norm) of two candidates that both match the query by name, or both do not, stands before the other wherever the other is listed. |
| `Ranking.TopIsBest` | `core/src/octoforge_core/datasets/ranking.py:52-53` | Sorting and cutting returns k hits in order that, with what is left over, are the input, and nothing left over goes before them. |
| `Ranking.SortSorts` | `core/src/octoforge_core/datasets/ranking.py:52-52` | The sort is an ordered permutation. |
| `Fusion.Fuse` | `core/src/octoforge_core/datasets/ranking.py:75-105` | The accumulating loops compute every dataset's summed shares with its first record, boost exact names, and return the top k. |
| `Fusion.FirstIsFirst` | `core/src/octoforge_core/datasets/ranking.py:88-94` | The record kept for a dataset is that of its first occurrence, ranking by ranking. |
| `Fusion.FusedTotalBound` | `core/src/octoforge_core/datasets/ranking.py:88-94` | Duplicate-free rankings give a dataset at most one 61st each. |
| `Fusion.ExactOnTopIff` | `core/src/octoforge_core/datasets/ranking.py:80-85` | With n duplicate-free rankings an exact name is sure to score strictly above every other if and only if n is at most 122. |
| `LikeEscape.EscapePassesAreOne` | `core/src/octoforge_core/context/store.py:196-202` | The three successive replacements equal one per-character escape. |
| `LikeEscape.EscapedMatchesPrefix` | `core/src/octoforge_core/context/store.py:196-202` | The escaped needle followed by a wildcard matches exactly the texts that begin with the needle, up to folding. |
| `LikeEscape.EscapedSearchIsSubstring` | `core/src/octoforge_core/context/store.py:172-175` | The search pattern matches a text exactly when the text contains the needle, up to folding. |

## Left out

- Model provider, embedding, vision and speech calls, prompts and routing text: a routing decision is an arbitrary choice among known exchanges.
- The wording of marks and notes and the date envelope of a rendered message: a mark is a tag on the message.
- SQL sessions, dialects, migrations and the full-text and vector engines: a table is a map and a statement or transaction one step.
- Store failures inside the dialog machine: a step happens or it does not; the claim check's fail-open read is modelled.
- Retitling, nudging of stale exchanges, and the renaming of collected messages when a collection moves into another exchange: promotion and the move are modelled by their status writes only.
- Cron expressions and time zones: any function whose next slot is strictly after its base.
- The pause between replayed jobs of one tick: time may pass between any two steps of the lease machine anyway.
- The task store's own code: tasks are rows with exchange and creation time.
- Building, evicting and shutting down actors in the manager: only its claim calls are modelled.
- Summary texts and their model call: a summary is its range.
- Password hashing and header decoding are arbitrary functions; the digest of a header is taken to be collision-free.
- Floating-point rounding: similarity and fusion are over the reals, with the square root a parameter.
- Unicode case folding is a parameter; for LIKE it folds character by character.
- HTTP, Telegram, console, configuration, quickstart and admin views: wiring.
- NoQuestionLost: excepts messages trimmed past the run's watermark, compacted before the run began, refused or dropped, because the code closes over those too; `DroppedLostIff` says when.
- A background task woken while recovery is still listing orphans, which the listing may then name as one: recovery's list is taken to hold tasks of earlier owners only.
- LimitHolds: bounds runs that are not cancelled, because the limit test discounts runs that are still unwinding.
- LoginBudget: counts failures since the client was last forgotten by a success or an eviction.
- OrderShowsIff: speaks of a wait for exactly two runs; `RepeatedIdShowsOrder` has any number of others, but only that the order shows there, not every case in which it does.
- HistoryIgnoresToolOrder: asks for distinct call ids within an iteration and no cancel, because the history does depend on the order otherwise.
- QueueGuarantees: holds up to stand-down, which may drop a critical event (`CloseLosesCritical`), and for a positive capacity as configured.
- UnreadQuestionIsAnswered: says that a continuation with the answer exists while a slot is free and the question is in memory, not that it is the one taken: the machine has no fairness.
- SuccessSparesHash: is about a header that was not cached; one stored again by an overlapping attempt keeps its old place and may be evicted sooner.
- CompactsIff: is about a compaction that nobody disturbs before its segment is chosen.
- Tick: one scheduler with the table to itself; interleaved ticks are in CronLease.
