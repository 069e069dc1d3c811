# AgEnD daemon: verified model

This project models the protocols of the AgEnD daemon that have to hold under races, lost
replies and stops, and the dense algorithms beside them, and proves what they are for.

| file | models |
|---|---|
| `StoreCreation.dfy`, `StoreOpen.dfy`, `StoreAlone.dfy` | the race of several processes to build `.agend.db.new` and publish it as `agend.db`; the opener that runs alone; any process left alone anywhere in the race |
| `ClaudeBridge.dfy`, `ClaudeRouting.dfy`, `ClaudeState.dfy`, `ClaudeReserve.dfy` | the two-phase Claude delivery bridge: interleaved handlers, what their state means, the entry they change under the mutex, the batch a reservation starts |
| `Fleet.dfy` | the fleet view, the bounded event log, subscriptions and the event half of a connection |
| `Supervisor.dfy`, `BootPlan.dfy`, `RestartBudget.dfy` | the life cycle of an instance over deaths, restarts, retries, daemon stops and boots |
| `GithubLedger.dfy` | the durable GitHub ownership record under compare-and-swap writers |
| `LineFraming.dfy` | both line readers over any chunking, and the bounded writers |
| `Calendar.dfy`, `AuditLog.dfy` | calendar arithmetic, rotation and retention of dated files |
| `ShellQuote.dfy` | shell quoting and the git commands built with it |
| `Telegram.dfy` | splitting a notification into framed messages |
| `SpoolCursor.dfy` | the rotating cursor over pending records |
| `Common.dfy` | optional values and decimal numbers |

The protocols are state machines whose actions are the system calls or the pieces of code
between two lock releases. `Runs` says that a sequence of actions leads from one state to
another; a statement about `Runs` from the initial state is one about every interleaving,
every lost reply and every stop. Code that updates an object in place is a class whose
methods are proved against the state machine or against a function of the old state.

Five promises do not hold of the code as written. Each comes with a run or an input that
shows it and with the exact condition under which it does hold:

- `remove_leftover_build` opens the leftover by path and locks it in two steps and does not
  compare inodes again. `UnsafeAsCoded` is a run that ends with an unmigrated `agend.db`;
  `LeftoverLockIsSafeIff` shows that locking a leftover is safe if and only if the file is
  still at the build path or `agend.db` already exists.
- A bridge handler reads the instance row before it waits for the mutex. `StaleHandlerHidesAHook`
  is a run in which such a handler replaces the state by one of an older session, the next
  hook replaces it back, and a reservation commits although a hook came after its decision.
  `OverlooksAHookIffReplaced` shows that a commit overlooks an accepted hook of its session if
  and only if the state was replaced since its decision, and `CommitMeansUndisturbed` that
  this cannot happen while handlers lock with the session the instance runs.
- A queued retry outlives the removal of its instance. `StaleRetrySurvivesReAdding` is a run
  in which a re-added instance is listed as failed while a retry is queued; `AddIsSafeIff`
  shows, for every reachable state, that "listed, or exactly one retry" holds in every later
  run if and only if nothing of that id is pending when the instance is added.
- A reconnect whose first `launch` fails for any reason launches again without `resume`.
  `FallbackStartsARecordedSession` is a run that sends `--session-id` for a session recorded as
  running; `RecordedSessionsResumeIff` shows that a launch after `running` was recorded resumes
  if and only if it is not such a fallback.
- The date in a rotated file's name is read back only while its year has four digits.
  `RotatedFileGoesIff` shows that an audit deletes a rotated file if and only if it is old enough
  and of such a year; `TheYear10000` names the first day whose log stays for ever.

## Model

| member | source | states |
|---|---|---|
| StoreCreation.StepKeepsInv | crates/agend-daemon/src/store.rs:666-874 | every system call of every process that does not lock a vanished leftover keeps the protocol invariant: who may rely on which name, inode and lock at each position |
| StoreCreation.AtMostOnePublisher | crates/agend-daemon/src/store.rs:767-798 | over every run in which a leftover is still at the build path when it is locked, at most one process is between passing the inode comparison and publishing |
| StoreCreation.DatabaseIsCompleteAndNeverRebound | crates/agend-daemon/src/store.rs:758-874 | given the same condition until `agend.db` exists, over every run with any processes, interleaving and stops, with and without hard links, `agend.db` names only a migrated file and is never rebound |
| StoreCreation.BoundForever | crates/agend-daemon/src/store.rs:837-874 | once `agend.db` is bound to a migrated file and no process is between its absence check and its rename, no later action of any process rebinds it, even without the condition on leftovers |
| StoreCreation.LeftoverLockIsSafeIff | crates/agend-daemon/src/store.rs:824-833 | locking a leftover keeps the database safe in every later run if and only if it is still at the build path or `agend.db` exists |
| StoreCreation.LockingAVanishedLeftoverBreaks | crates/agend-daemon/src/store.rs:824-833 | from every state in which a leftover was locked after it left the path, some run publishes an unmigrated file |
| StoreCreation.UnsafeAsCoded | crates/agend-daemon/src/store.rs:806-835 | a complete run from an empty home in which the code as written publishes an unmigrated file |
| StoreOpen.Home.RemoveLeftoverBuild | crates/agend-daemon/src/store.rs:806-835 | refused exactly while the leftover is locked; otherwise the name is gone and the lock kept |
| StoreOpen.Home.Publish | crates/agend-daemon/src/store.rs:846-874 | with or without hard links the build file becomes `agend.db` and its build name is gone; when another creator published first, both stay as they are and the creator goes on |
| StoreOpen.Home.Build | crates/agend-daemon/src/store.rs:767-794 | a new inode is created, locked, compared and migrated, and the leftover's lock dropped |
| StoreOpen.Home.CreateDatabase | crates/agend-daemon/src/store.rs:767-798 | the whole creation by a process that runs alone, refused exactly while the leftover is locked |
| StoreOpen.Home.Serve | crates/agend-daemon/src/store.rs:679-715 | locks `agend.db` and removes the build name exactly when it is a second name of the same file |
| StoreOpen.Home.OpenConnection | crates/agend-daemon/src/store.rs:666-727 | from every state the protocol can leave, a lone opener succeeds unless its file is locked, ends holding the lock on a migrated `agend.db`, keeps an existing one and never reuses a leftover |
| StoreOpen.RecoverAfterAnyStops | crates/agend-daemon/src/store.rs:666-727 | from every state reachable with stops under the same condition, once the kernel dropped the locks, a lone opener ends as the only lock holder, on a migrated `agend.db`; an existing database is kept and a second build name of it removed |
| StoreAlone.Finish | crates/agend-daemon/src/store.rs:666-874 | from every position of every state the protocol can be in, a process left alone ends, and serves if and only if the files it still has to lock are free and its own build file is the one at the path; the database it serves and what it leaves at the build path are named |
| StoreAlone.CallKeepsTheEnd | crates/agend-daemon/src/store.rs:666-874 | what a process will end with is the same before and after each of its calls |
| StoreAlone.EveryCallAdvances | crates/agend-daemon/src/store.rs:666-874 | every call brings a process further: no step is retried |
| ClaudeBridge.RunKeepsRoutingInv | crates/agend-daemon/src/claude_bridge.rs:256-500 | every interleaving of polls, hooks, replays and interrupts keeps busy, idle, revision and decision consistent |
| ClaudeBridge.CommitMeansUndisturbed | crates/agend-daemon/src/claude_bridge.rs:437-500 | while handlers lock with the running session, a Channel or Stop reservation commits only if no routing hook, tool hook, historical invalidation or batch happened since its decision |
| ClaudeBridge.CommitOverlooksOnlyBehindAReset | crates/agend-daemon/src/claude_bridge.rs:305-320 | in every interleaving, what a commit overlooked lies behind a replacement of the state |
| ClaudeBridge.OverlooksAHookIffReplaced | crates/agend-daemon/src/claude_bridge.rs:305-500 | in every interleaving, a commit overlooks a hook, invalidation or batch of its session, and then a routing hook among them, if and only if the state was replaced since its decision |
| ClaudeBridge.StaleHandlerHidesAHook | crates/agend-daemon/src/claude_bridge.rs:286-320 | a complete run in which a handler of an older session makes a commit overlook a hook |
| ClaudeBridge.BusyExcludesIdleAndOneBatchPerObservation | crates/agend-daemon/src/claude_bridge.rs:321-500 | busy excludes idle, an idle observation yields at most one non-empty batch, a Channel batch waits out its five seconds |
| ClaudeBridge.ContentLeavesAtMostOnce | crates/agend-daemon/src/claude_bridge.rs:503-627 | over every run with lost replies and stops, no message's content leaves twice |
| ClaudeBridge.RefusedKeyRequeues | crates/agend-daemon/src/claude_bridge.rs:587-609 | after a refused key the content has not left; the message can start again, or is left exactly as it is when a receipt or an operator settled it meanwhile |
| ClaudeBridge.UnknownIsNeverSent | crates/agend-daemon/src/claude_bridge.rs:610-626 | a message with an unknown outcome is never sent in any continuation |
| ClaudeBridge.InterruptsLeaveUnknown | crates/agend-daemon/src/claude_bridge.rs:610-626 | an unknown completion, a newer hook or a stop leaves exactly such a message |
| ClaudeBridge.RunKeepsDeliveryInv | crates/agend-daemon/src/store/claude.rs:67-121 | every run keeps one attempt for each handed message and each key in flight |
| ClaudeRouting.StateMeansItsMarks | crates/agend-daemon/src/claude_bridge.rs:346-500 | over every run: busy exactly since a prompt, a Stop without `stop_hook_active` or a delivered batch; initial exactly since a session start; ready and the idle candidate exactly since the Stop or startup screen that made them so |
| ClaudeRouting.PollDecidesIff | crates/agend-daemon/src/claude_bridge.rs:326-345 | a poll goes on to interrupt if and only if its session is busy, and to deliver if and only if it has been idle for five seconds |
| ClaudeRouting.HookCountsIff | crates/agend-daemon/src/claude_bridge.rs:346-434 | a live routing hook counts if and only if it is not older than every hook the state has accepted; a Stop that is no continuation, and only that, is answered |
| ClaudeRouting.ToolHookCounts | crates/agend-daemon/src/claude_bridge.rs:378-386 | a tool hook leaves the state alone and invalidates every decision |
| ClaudeRouting.ReplayedHookCountsIff | crates/agend-daemon/src/claude_bridge.rs:256-282 | a historical hook counts if and only if it is of the state's session and not older than every hook it has accepted |
| ClaudeRouting.StillCurrentIff | crates/agend-daemon/src/claude_bridge.rs:473-486 | while handlers lock with the running session, a decided delivery passes the second look if and only if nothing happened since and the session is still idle, for Channel long enough |
| ClaudeRouting.StillBusyIff | crates/agend-daemon/src/claude_bridge.rs:552-558 | an interrupt may be reserved if and only if nothing happened since the session was found busy |
| ClaudeRouting.InterruptsOnlyWhileBusy | crates/agend-daemon/src/claude_bridge.rs:552-575 | in every interleaving an interrupt is reserved only while its session is busy |
| ClaudeRouting.CompletedKeyHandsOverIff | crates/agend-daemon/src/claude_bridge.rs:617-627 | a completed key is followed by the content if and only if nothing happened since the reservation |
| ClaudeRouting.NotReadyClearsIff | crates/agend-daemon/src/claude_bridge.rs:443-461 | a startup screen that is not ready takes the candidate away exactly when nothing happened since the decision; a state replaced since is judged by its revision number alone |
| ClaudeRouting.AStopForgets | crates/agend-daemon/src/claude_bridge.rs:305-345 | after a stop of the daemon a poll decides nothing until a hook has arrived |
| ClaudeRouting.BatchesAreCounted | crates/agend-daemon/src/claude_bridge.rs:487-500 | over every run the batches are exactly the non-empty reservations that went through |
| ClaudeRouting.SettledForGood | crates/agend-daemon/src/store/claude.rs:122-245 | a message written, acknowledged or given up stays so in every continuation and is never started again |
| ClaudeState.Entry.Locate | crates/agend-daemon/src/claude_bridge.rs:305-320 | the entry found under the lock is the machine's, replaced exactly for another session |
| ClaudeState.Entry.Poll | crates/agend-daemon/src/claude_bridge.rs:326-345 | a poll takes the machine's decision: nothing, an interrupt, or a Channel delivery after the debounce |
| ClaudeState.Entry.RouteHook | crates/agend-daemon/src/claude_bridge.rs:346-434 | the field updates of every live hook are the machine's, with the same decision |
| ClaudeState.Entry.Replayed | crates/agend-daemon/src/claude_bridge.rs:256-282 | a historical routing hook only invalidates, exactly when it is not older than the last one |
| ClaudeState.Entry.NotReadyAt | crates/agend-daemon/src/claude_bridge.rs:443-461 | a startup screen that is not ready takes the candidate away unless the entry moved on |
| ClaudeState.Entry.MayCommit | crates/agend-daemon/src/claude_bridge.rs:473-486 | the second look passes exactly when the machine's comparison does |
| ClaudeState.Entry.Committed | crates/agend-daemon/src/claude_bridge.rs:487-500 | a finished reservation leaves the machine's state |
| ClaudeState.Entry.ReserveKey | crates/agend-daemon/src/claude_bridge.rs:552-575 | an interrupt reserves exactly while the entry is the busy one it decided on, and remembers the revision it reserved at |
| ClaudeState.FirstPiece | crates/agend-daemon/src/claude_bridge.rs:286-442 | entering, locking, finding the entry and deciding is a run of the machine that ends in the same entry and decision |
| ClaudeState.LastPiece | crates/agend-daemon/src/claude_bridge.rs:473-501 | locking again, comparing, reserving and committing is the commit of the machine; it reserves what the route is for exactly when the comparison holds |
| ClaudeState.Handle | crates/agend-daemon/src/claude_bridge.rs:286-501 | a whole poll or hook is a run of the machine; it reserves what the route is for if and only if the request is due, no newer hook is replayed meanwhile and the screens are right |
| ClaudeState.DecisionIs | crates/agend-daemon/src/claude_bridge.rs:321-442 | a request decides exactly for an idle session after five seconds or for a Stop that is no continuation and not too old |
| ClaudeReserve.Deliveries.Consider | crates/agend-daemon/src/claude_bridge.rs:689-740 | one message of the queue is started, passed by while delivery is paused, or ends the batch before or after it |
| ClaudeReserve.Deliveries.Reserve | crates/agend-daemon/src/claude_bridge.rs:672-742 | what is pushed is pending, legal, untouched and, for Stop, queued, in the order of the queue; with nothing in the way all such messages are pushed; a failure comes from an illegal message or a failed transaction, at once when that is the first; the rows change as the bridge's commit says |
| ClaudeReserve.BatchRespectsLimits | crates/agend-daemon/src/claude_bridge.rs:672-742 | a batch has at most 32 messages and 1 MiB, 512 bytes for each header included, unless it is a single message, and one for an interrupt |
| ClaudeReserve.UnpausedBatchIsAPrefix | crates/agend-daemon/src/claude_bridge.rs:689-740 | while every transaction starts its message, the started messages are a prefix of the eligible ones |
| Fleet.Fleet.constructor | crates/agend-daemon/src/fleet.rs:63-80 | a boot starts with no events at its base, so nothing is shown |
| Fleet.Fleet.Push | crates/agend-daemon/src/fleet.rs:97-110 | ids count up without a gap and the log is the last events of the whole history |
| Fleet.Fleet.Publish | crates/agend-daemon/src/fleet.rs:92-95 | an event of another kind leaves instances and items what the events add up to |
| Fleet.Fleet.SetInstance | crates/agend-daemon/src/fleet.rs:196-212 | the instance is stored, and exactly its event is published exactly when it changed |
| Fleet.Fleet.RemoveInstance | crates/agend-daemon/src/fleet.rs:221-245 | the instance and its failure item go, each with exactly its event |
| Fleet.Fleet.Raise | crates/agend-daemon/src/fleet.rs:247-257 | an item is listed unless one with its id is |
| Fleet.Fleet.UpsertAttention | crates/agend-daemon/src/fleet.rs:131-143 | the item replaces a different one with its id |
| Fleet.Fleet.ReplaceAttentionIf | crates/agend-daemon/src/fleet.rs:145-165 | replaced exactly when the captured item is still listed unchanged |
| Fleet.Fleet.Dismiss | crates/agend-daemon/src/fleet.rs:117-129 | the item goes, with its event when it was listed |
| Fleet.Fleet.Resolve | crates/agend-daemon/src/fleet.rs:293-315 | obtains the item exactly when it is listed and offers the action |
| Fleet.Fleet.ResolveIfCurrent | crates/agend-daemon/src/fleet.rs:264-291 | obtains the item exactly when it offers the action and is what was shown, a wait that began at another time mattering only for a failed instance; publishes the one event |
| Fleet.Fleet.SyncTasks | crates/agend-daemon/src/fleet.rs:171-194 | tasks are replaced and exactly the new or changed ones are published, in order |
| Fleet.TaskEventsAre | crates/agend-daemon/src/fleet.rs:171-194 | the published events are those of the tasks that are new or changed, all of them, in order and numbered |
| Fleet.Fleet.MarkRead | crates/agend-daemon/src/fleet.rs:321-331 | the key is remembered, and an event is published exactly when it is new |
| Fleet.Fleet.View | crates/agend-daemon/src/fleet.rs:334-350 | instances and items are what all events up to its id add up to; tasks are the current ones, and read keys exactly the remembered keys of listed items |
| Fleet.KeysTellQuestionsApart | crates/agend-core/src/protocol/client.rs:1050-1068 | a read item is unread again exactly when it has another question |
| Fleet.Fleet.Subscribe | crates/agend-daemon/src/fleet.rs:356-378 | accepted exactly when every later event is still retained; the backlog is then exactly the later events |
| Fleet.ViewPlusEventsIsNow | crates/agend-daemon/src/fleet.rs:333-350 | folding the events after any view ever given over that view gives the fleet's instances and items now |
| Fleet.OneResolvePerRaise | crates/agend-daemon/src/fleet.rs:247-315 | between two successful resolves of an id the item was raised again |
| Fleet.CanContinueIff | crates/agend-daemon/src/fleet.rs:356-378 | every later event is retained if and only if the cursor lies between the oldest retained event and the last |
| Fleet.BacklogContinues | crates/agend-daemon/src/fleet.rs:366-378 | what the id filter selects from the log is the history after the cursor |
| Fleet.CursorBeforeThisBootIsRefused | crates/agend-daemon/src/fleet.rs:63-81 | a cursor below a boot's base is never accepted by it |
| Fleet.Connection.constructor | crates/agend-daemon/src/server.rs:448-455 | a new event stream has sent nothing and holds exactly the history after its start |
| Fleet.Connection.SendBacklog | crates/agend-daemon/src/server.rs:448-455 | the backlog is sent in order before any live event |
| Fleet.Connection.ReceiveLive | crates/agend-daemon/src/server.rs:483-501 | the next event is delivered exactly while it is retained; otherwise the connection closes |
| Fleet.PublishingKeepsTheStream | crates/agend-daemon/src/server.rs:483-501 | whatever is published in between leaves the stream without gap and repeat |
| Fleet.DeliveredIsContiguous | crates/agend-daemon/src/server.rs:448-501 | a client receives the events with ids start+1, start+2, ... and no others |
| Supervisor.RunKeepsInv | crates/agend-daemon/src/supervisor.rs:644-1070 | every life-cycle step keeps the session, log, failure and budget invariants |
| Supervisor.RecordedSessionsResumeIff | crates/agend-daemon/src/supervisor.rs:644-659 | after `running` was recorded a launch of a Claude session has `--resume`, across deaths, give-ups, retries, stops and boots, if and only if it is not a reconnect whose first launch failed; that one has `--session-id` |
| Supervisor.FallbackStartsARecordedSession | crates/agend-daemon/src/supervisor.rs:653-659 | a complete run in which such a reconnect sends `--session-id` for a session recorded as running |
| Supervisor.NoFailedInstanceIsLost | crates/agend-daemon/src/supervisor.rs:899-969 | while the daemon runs, a failed instance is listed, being listed, or has a retry queued or in progress |
| Supervisor.ListedOrExactlyOneRetry | crates/agend-daemon/src/handlers.rs:266-303 | listed and without a retry, or not listed with exactly one, when instances are added only while nothing of their id is pending |
| Supervisor.AddIsSafeIff | crates/agend-daemon/src/supervisor.rs:1074-1101 | from every reachable state, the promise holds in every later run in which instances are added cleanly if and only if nothing of the id is pending at the add |
| Supervisor.StaleRetrySurvivesReAdding | crates/agend-daemon/src/supervisor.rs:1174-1225 | a complete run in which a queued retry outlives the removal and the promise breaks |
| Supervisor.AutomaticStartsAreGranted | crates/agend-daemon/src/supervisor.rs:973-1070 | automatic starts never exceed grants, whatever stale or repeated events arrive |
| Supervisor.PendingRestartIsLaunched | crates/agend-daemon/src/supervisor.rs:1039-1070 | from every reachable state with a granted restart, its timer and the stopped holder lead to one more launch of exactly that row, resuming exactly what was recorded, and to one more automatic start |
| Supervisor.RetryIsLaunched | crates/agend-daemon/src/supervisor.rs:931-969 | an operator's retry that goes ahead leads to a launch of the row, resuming exactly what was recorded |
| Supervisor.UndoneRetryIsListed | crates/agend-daemon/src/supervisor.rs:931-969 | a retry that cannot go ahead starts nothing and the instance is listed again, with the item taken or a new one |
| Supervisor.RetryIsOfferedIff | crates/agend-daemon/src/supervisor.rs:261-332 | a failed instance offers a retry exactly when it can be launched and is no codex row without a thread id |
| Supervisor.AddedIsLaunched | crates/agend-daemon/src/supervisor.rs:1074-1101 | a new instance is launched fresh and then recorded running and watched |
| Supervisor.AnswersAreRecorded | crates/agend-daemon/src/supervisor.rs:665-684 | an answered first start records `running`, any other leaves the row alone, and either is watched at its generation |
| Supervisor.SessionArgsIff | crates/agend-daemon/src/supervisor.rs:148-159 | only Claude takes session arguments; resuming fails exactly without a session it needs |
| Supervisor.GivingUpIsListed | crates/agend-daemon/src/supervisor.rs:899-929 | whatever makes the supervisor give up, the instance is then failed and listed |
| Supervisor.FailedStartsDie | crates/agend-daemon/src/supervisor.rs:832-840 | a start that fails is a death to come, not a stale event |
| Supervisor.StaleEventsChangeNothing | crates/agend-daemon/src/supervisor.rs:981-991 | events of another generation, out of turn, or while a switch holds the recovery change nothing |
| Supervisor.WithoutARowTheWatchEnds | crates/agend-daemon/src/supervisor.rs:996-1004 | a death or a timer without a row ends the watch |
| Supervisor.RetriesAreTakenInOrder | crates/agend-daemon/src/supervisor.rs:1308-1308 | queued retries are carried out in order |
| Supervisor.RemovedIsNeverLaunched | crates/agend-daemon/src/supervisor.rs:1174-1225 | a removed instance is not launched until one is added again |
| Supervisor.RemoveForgets | crates/agend-daemon/src/supervisor.rs:1174-1225 | removing takes the row, the watch and the item away |
| Supervisor.CancelledSwitchLaunches | crates/agend-daemon/src/supervisor.rs:644-843 | a running instance brought back from a cancelled switch is launched, resuming what was recorded |
| Supervisor.DeathsAskTheBudget | crates/agend-daemon/src/supervisor.rs:973-1037 | the budget step of a death grants exactly while the window has room, returns its count and keeps every window at three |
| Supervisor.EveryWindowOfAWatchHoldsAtMostThree | crates/agend-daemon/src/supervisor.rs:886-1037 | over every run whose clock does not go back, any ten minutes hold at most three grants of one watch, and a pending restart is numbered by its window |
| Supervisor.DeathIsGrantedIff | crates/agend-daemon/src/supervisor.rs:973-1037 | in every such run, a death is answered by a restart if and only if the window holds fewer than three grants of the watch; otherwise it holds exactly three and the instance fails |
| Supervisor.GrantsAddUp | crates/agend-daemon/src/supervisor.rs:886-897 | until a removal, a stop or an operator's retry, a watch keeps every grant of the supervisor |
| BootPlan.PlanIsTheTable | crates/agend-daemon/src/boot.rs:29-50 | an action is planned if and only if the boot table calls for it |
| BootPlan.OneActionPerId | crates/agend-daemon/src/boot.rs:29-50 | no id gets two actions |
| BootPlan.BootFollowsThePlan | crates/agend-daemon/src/supervisor.rs:548-642 | the life cycle of every instance starts with the planned action, a reconnect resuming exactly a running row, and a failed one is listed with its item |
| RestartBudget.Budget.Next | crates/agend-daemon/src/supervisor.rs:124-141 | grants exactly while the last ten minutes hold fewer than three grants, and returns their count |
| RestartBudget.Retain | crates/agend-daemon/src/supervisor.rs:133-134 | keeps the restarts of the last ten minutes in order |
| RestartBudget.EveryWindowHoldsAtMostThree | crates/agend-daemon/src/supervisor.rs:124-141 | any ten-minute window, wherever it starts, holds at most three grants |
| RestartBudget.RetainTwice | crates/agend-daemon/src/supervisor.rs:132-136 | forgetting early loses nothing a later call would keep |
| GithubLedger.AcceptedWriteSawTheRow | crates/agend-core/src/github.rs:116-128 | a write against a revision read is accepted only while the row is exactly the record read |
| GithubLedger.OneCreateOneMerge | crates/agend-core/src/github.rs:42-102 | over every run, one write at most flips `create_attempted` and one at most claims `merge_head` |
| GithubLedger.ClaimsComeInOrder | crates/agend-core/src/github.rs:42-102 | a merge implies a pull request, which implies an attempted create, which implies a pushed head |
| GithubLedger.EveryPushWasADurableIntent | crates/agend-core/src/github.rs:95-101 | each pushed head was first a durable intent, cleared by the write that confirmed it |
| GithubLedger.IntentIsKeptOrConfirmed | crates/agend-core/src/github.rs:95-101 | a pending push is kept until exactly that head is confirmed |
| GithubLedger.MergeExcludesCleanupAndPushes | crates/agend-core/src/github.rs:72-94 | no merge is claimed after cleanup began; after a claim the push fields are frozen |
| GithubLedger.ClaimsLast | crates/agend-core/src/github.rs:72-94 | whatever is claimed in an accepted record stays claimed in every later one |
| GithubLedger.NextWriteIsAcceptedIff | crates/agend-core/src/github.rs:42-102 | in every reachable ledger each next step of a task, a push intent, its confirmation, the create, the number, the merge and the cleanup, is stored if and only if it is its turn |
| GithubLedger.TheFirstWriteIsAcceptedIff | crates/agend-core/src/github.rs:45-71 | the first record is stored exactly with a complete identity |
| GithubLedger.StaleWritesChangeNothing | crates/agend-daemon/src/store/github.rs:35-60 | a write against any other revision changes nothing |
| GithubLedger.CreateWaitsForThePush | crates/agend-core/src/github.rs:86-90 | the create waits for a confirmed push and the number for the create |
| GithubLedger.AcceptedIsComplete | crates/agend-core/src/github.rs:45-63 | every accepted record has a complete identity and full heads |
| LineFraming.ReadLine | crates/agend-daemon/src/server.rs:209-231 | whatever the chunks, the answer is the next line of the stream; a dropped call loses no byte |
| LineFraming.ReadAll | crates/agend-daemon/src/server.rs:209-231 | every chunking and every pattern of dropped calls gives the lines and verdict of the whole stream |
| LineFraming.SplitUndoesJoin | crates/agend-daemon/src/server.rs:209-231 | lines within the limit that were joined are read back, whatever follows |
| LineFraming.JoinUndoesSplit | crates/agend-daemon/src/server.rs:209-231 | the lines read, joined, are the stream up to an unfinished or too long line |
| LineFraming.ReadBounded | crates/agend-client/src/terminal.rs:229-266 | whatever the chunks, the next reply, blank lines passed over, or the stream's oversize, incomplete or end verdict |
| LineFraming.ReadReplies | crates/agend-client/src/terminal.rs:229-266 | every chunking gives the replies and verdict of the whole stream |
| LineFraming.RepliesUndoJoin | crates/agend-client/src/terminal.rs:229-266 | of joined lines the client reads exactly those that are not blank |
| LineFraming.BlankIff | crates/agend-client/src/terminal.rs:254-257 | blank lines are those of ASCII whitespace |
| LineFraming.EncodeFrame | crates/agend-daemon/src/server.rs:259-299 | a frame is accepted exactly when it fits with its newline, in whatever pieces it is written |
| LineFraming.EncodeRequest | crates/agend-client/src/terminal.rs:74-80 | a request is accepted exactly when it fits with its newline |
| LineFraming.FrameLine.Write | crates/agend-daemon/src/server.rs:607-619 | a piece is appended whole or not at all, leaving room for the newline |
| LineFraming.BoundedLine.Write | crates/agend-client/src/terminal.rs:268-283 | a piece is appended whole or not at all within the limit |
| LineFraming.RequestsArrive | crates/agend-client/src/terminal.rs:74-80 | accepted requests are read whole and in order by the daemon |
| LineFraming.FramesArrive | crates/agend-daemon/src/server.rs:259-299 | accepted frames are read whole and in order by the client |
| LineFraming.FrameAcceptedIffReadable | crates/agend-daemon/src/server.rs:607-619 | the daemon accepts a frame if and only if the client can read it |
| Calendar.DayNumberCounts | crates/agend-daemon/src/housekeeping.rs:144-166 | `day_number` is the count of days from 1970-01-01 by year and month lengths |
| Calendar.NextDayIsNextNumber | crates/agend-daemon/src/housekeeping.rs:157-165 | the next calendar day has the next number |
| Calendar.DayNumberIsStrictlyIncreasing | crates/agend-daemon/src/housekeeping.rs:157-165 | dates and numbers are ordered alike, so numbers are injective |
| Calendar.CivilUndoesDayNumber | crates/agend-daemon/src/store/snapshot.rs:62-73 | `civil_from_days` gives back every date from its number |
| Calendar.DayNumberUndoesCivil | crates/agend-daemon/src/store/snapshot.rs:62-73 | every day from 1970 on has a calendar date with that number |
| Calendar.NamesReadBack | crates/agend-daemon/src/store/snapshot.rs:55-60 | a written date reads back as its day exactly while the year has four digits |
| Calendar.DifferentDaysDifferentNames | crates/agend-daemon/src/store/snapshot.rs:55-73 | different days are written differently, whatever their years |
| Calendar.TextsReadBack | crates/agend-daemon/src/housekeeping.rs:144-166 | every calendar date of a four-digit year, written out, reads back as its day number |
| AuditLog.DeleteDated | crates/agend-daemon/src/housekeeping.rs:180-210 | exactly the dated regular files at least `keep_days` old go |
| AuditLog.AuditLog | crates/agend-daemon/src/housekeeping.rs:233-255 | the directory after one run, and whether a change is reported |
| AuditLog.RotationAlwaysSucceeds | crates/agend-daemon/src/housekeeping.rs:237-248 | in every year the rotated name is free: nothing is overwritten and the log is rotated whole |
| AuditLog.AuditLeavesTodaysLog | crates/agend-daemon/src/housekeeping.rs:233-255 | after an audit the live log is one written today; that of an earlier day was moved whole to the name of its day |
| AuditLog.RunKeepsInv | crates/agend-daemon/src/housekeeping.rs:233-255 | over every run with a clock that does not go back, the dated files are rotations of days before the live log |
| AuditLog.AuditKeepsFewRotatedFiles | crates/agend-daemon/src/housekeeping.rs:233-255 | after every run exactly the rotated files that are younger than `keep_days` or of a year past 9999 remain, so at most `keep_days` − 1 while the year has four digits |
| AuditLog.RotatedFileGoesIff | crates/agend-daemon/src/housekeeping.rs:180-210 | an audit deletes a rotated file if and only if it is old enough and its year has four digits |
| AuditLog.TheYear10000 | crates/agend-daemon/src/housekeeping.rs:144-166 | the first day whose rotated log is never deleted |
| ShellQuote.ReadQuoted | crates/agend-daemon/src/checks.rs:245-249 | wherever a word may begin or go on, a quoted string adds exactly itself to the word |
| ShellQuote.UnquoteUndoesQuote | crates/agend-daemon/src/runner.rs:17-19 | the shell reads a quoted string as one word, the string itself |
| ShellQuote.NestedQuotesUnquote | crates/agend-daemon/src/runner.rs:17-19 | quoted for any number of shells, a text comes out of as many shells unchanged |
| ShellQuote.Command | crates/agend-daemon/src/git.rs:88-98 | the shell reads the command as exactly the executable, the fixed options and the arguments |
| ShellQuote.PipelineIsTwoCommands | crates/agend-daemon/src/git.rs:148-155 | the pipeline is read as exactly its two git commands |
| ShellQuote.BashReceivesThePipeline | crates/agend-daemon/src/git.rs:156-163 | the outer shell hands bash the pipeline as one unchanged argument |
| Telegram.Chunks | crates/agend-core/src/telegram.rs:101-112 | the chunks join to the payload, each has at most 4000 UTF-16 units, and no such split has fewer |
| Telegram.StaysAhead | crates/agend-core/src/telegram.rs:104-111 | the greedy cut stays ahead of every other split |
| Telegram.UnframeUndoesFrame | crates/agend-core/src/telegram.rs:113-118 | the frame comes off without touching the chunk |
| Telegram.FrameUnits | crates/agend-core/src/telegram.rs:113-118 | a frame costs 13 units and its digits |
| Telegram.CountersReadBack | crates/agend-core/src/telegram.rs:113-118 | every part says which one it is and how many there are |
| Telegram.PayloadReadsBack | crates/agend-core/src/telegram.rs:91-100 | severity, title, task and body are found in their places |
| Telegram.UnitsAreUtf16 | crates/agend-core/src/telegram.rs:104-111 | the units counted are the length of the UTF-16 encoding |
| Telegram.UnitsOfCharacters | crates/agend-core/src/telegram.rs:105-110 | a character is encoded in the units counted for it, and they decode to it |
| Common.DecimalReadsBack | crates/agend-core/src/telegram.rs:113-118 | the counters are written in decimal |
| Telegram.Render | crates/agend-core/src/telegram.rs:90-119 | unframed and joined the parts are the payload, their number is minimal, and each is within 4096 units while the counters have at most 83 digits |
| SpoolCursor.Examine | crates/agend-daemon/src/ingest.rs:73-105 | the first 32 files are examined in order and exactly the valid ones become records |
| SpoolCursor.Ingest.Scan | crates/agend-daemon/src/ingest.rs:53-105 | a scan examines the first 32 files behind the cursor, or of all when none is behind it, in order, records exactly the valid ones in that order, and moves only this kind's cursor to the last one examined |
| SpoolCursor.LessIff | crates/agend-daemon/src/ingest.rs:60-65 | names are compared byte by byte |
| SpoolCursor.OneScanCloser | crates/agend-daemon/src/ingest.rs:61-74 | a scan that skips a file brings it one scan closer, whatever disappears in between |
| SpoolCursor.EveryFileIsExamined | crates/agend-daemon/src/ingest.rs:53-74 | while no file is added, a file that stays is examined within n/32 rounded up, plus one, scans from any cursor |

## Left out

- SQLite, migrations and row mapping: a file is migrated or not and has at most one exclusive lock.
- StoreCreation.AtMostOnePublisher: assumes that finding and locking a leftover is one step, as do StoreCreation.StepKeepsInv, StoreCreation.DatabaseIsCompleteAndNeverRebound and StoreOpen.RecoverAfterAnyStops; without it they are false (StoreCreation.UnsafeAsCoded), and StoreCreation.LeftoverLockIsSafeIff shows the assumption is exact.
- The leftover that is not a database (store.rs:827-829), journal files, and the checks of an existing file's type and owner before it is opened.
- The bridge's startup screens, `session_idle`, `report_state` and the connections stored beside idle: the startup observer is an action that sets or clears the idle candidate while the session is initial.
- Revisions are unbounded naturals where the bridge wraps at 64 bits, and session ids are never used again.
- The interleaving machine of the bridge is on values; the in-place methods of `ClaudeState` do its locked pieces, and `ClaudeState.Handle` one request at a time, a busy poll ending there without an interrupt.
- Supervisor.ListedOrExactlyOneRetry: assumes instances are added while nothing of their id is pending; Supervisor.AddIsSafeIff shows the assumption is exact.
- Telegram.PayloadReadsBack: assumes a title and a task of one line, since a line break in them is not escaped.
- Supervisor.EveryWindowOfAWatchHoldsAtMostThree: assumes, as the promise does, that no budget is asked with an earlier time than the last; a new watch after a removal or an operator's retry starts with an empty budget.
- ClaudeRouting.StillCurrentIff: assumes handlers lock with the running session, as do ClaudeRouting.StillBusyIff, ClaudeRouting.CompletedKeyHandsOverIff and ClaudeRouting.NotReadyClearsIff; ClaudeBridge.OverlooksAHookIffReplaced says what happens otherwise.
- ClaudeBridge.CommitMeansUndisturbed: assumes handlers lock with the running session; ClaudeBridge.OverlooksAHookIffReplaced is the exact statement without it.
- The supervisor's event loop and watch table are a step function on values for one instance id; the backend-switch module's own starts are left out and `switch_holds_recovery` is an arbitrary boolean.
- Reconnecting to a managed holder sends no `Spawn`, as runtime.rs:300 says; store calls of the supervisor succeed except where an action says otherwise.
- The order of the items in a fleet view, its teams, the read keys of asks without an item id, and the saturation of event ids at 64 bits.
- Responses other than terminal frames have no writer limit; JSON and base64 encoding: an encoded payload is any byte string without a newline.
- AuditLog.AuditKeepsFewRotatedFiles: assumes that rotation is the only producer of dated names and that the clock does not go back, as the promise does.
- Shell expansions, redirections, reserved words and double quotes: the lexer gives up on every unquoted character that could start one.
- `TelegramDelivery::valid` and the progress of a delivery over its parts.
- Opening, size limits and decoding of a pending record: a parameter says which files are valid.
- Protocol version negotiation, handler dispatch, the pipeline, the terminal hub, sandboxes and process groups: they would add easy members or foreign calls.
