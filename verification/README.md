# Verified model of PARIKA's stateful protocols

PARIKA is mostly plumbing between an API, a planner and providers, with a handful of small
stateful protocols in between. This project models those protocols in Dafny and proves what they
promise over every input and every run.

| files | what they model |
|---|---|
| `WhitePaths.dfy`, `AgentSupervisor.dfy` | agents linked by child lists, and the cascades that terminate, pause and resume them |
| `MessageRepository.dfy`, `MessageBus.dfy`, `OverlappingRetries.dfy` | messages in a table with an in-process cache, delivery, bounded retry, delivery cycles |
| `Missions.dfy`, `MissionWaiting.dfy` | the mission life cycle, and a waiter interleaved with it |
| `DependencyOrders.dfy`, `GoalTranslation.dfy`, `AcceptedGoals.dfy` | goals translated to tasks, which goals are accepted at all, and what the translation does to their orders |
| `SessionMemory.dfy` | a session's conversation in memory against the rows in its store |
| `VoiceStreaming.dfy` | the producer thread and the consumer around a queue of one |
| `SpinnerLine.dfy` | the status line of the console, down to the cells of the terminal line |
| `Budget.dfy` | budget counters and the answers of a budget check |
| `AgentResolution.dfy` | choosing the agent for a capability, the registry and delegation |
| `RuntimeRegistry.dfy` | the runtime registry and its two indexes |
| `Decimals.dfy`, `Durations.dfy` | printed durations |

Objects that change their fields are classes whose methods are proved against functions on plain
values (`State()` ties the two); the theorems over whole runs are lemmas about those functions.
Protocols between concurrent parties are state machines whose runs are all interleavings of steps.

## Assumptions

- Generated identifiers of agents, messages, missions and tasks are new. Store operations succeed, but
  for a repeated key of a dependency row. As shipped, two of them could not: the id of a dependency row
  (`parika/interfaces/session.py:972`) has 69 characters in a column of 64
  (`parika/core/autonomous/models.py:167`), and the text id of a message goes to a column of type
  BigInteger (`parika/core/database/migration/versions/0004_skills_runtimes_messages.py:157`). The model
  takes both columns as wide enough for the ids the code generates.
- Retry calls do not overlap in `MessageBus.dfy`, where testing and counting up are one step;
  `OverlappingRetries.dfy` lets them overlap.
- Times are integers (milliseconds for the spinner), progress, cost and durations are exact reals,
  scores are integer hundredths. Clocks do not run backwards where a result depends on it.
- The event bus calls the current subscribers synchronously. A mission operation is two steps, its
  read-check-write and its publish.
- A streaming driver's own chunks do not carry the `_producer_error` key and the event loop stays
  open.
- Labels of the status line contain no carriage return or line feed, and a character takes one cell.
- Agent rows keep the child list they are given. (`AgentInstance.to_model` passes `metadata=`,
  `parika/core/autonomous/agent_supervisor.py:72-95`, where the repository stores
  `agent_metadata`, so a real table may lose it; the cascade results hold for any lists.)

## Where the code differs from what it says

- `wait_for_completion` promises None on a timeout; the code returns the mission as it reads it, so it
  keeps the promise exactly when the mission was deleted or finished meanwhile
  (`MissionWaiting.TimeoutAnswersNoneIff`, `MissionWaiting.PromiseKeptIff`; a witness is
  `MissionWaiting.TimeoutReturnsUnfinished`).
- The retry bound is `max(0, max_retries)`: nothing keeps `max_retries` from being negative
  (`BusSteps.LimitKeptIffNotNegative`, `BusSteps.NegativeLimit`), and overlapping retry calls pass it
  (`OverlappingRetries.LimitKeptIffNoOverlap`).
- A retried message whose old copy is cached is SENT in the table and refused by `deliver`
  (`BusSteps.RetriedDeliversIffUncached`, `BusSteps.RetriedStaysStuck`).
- A blank first message in an untitled stored session raises after its user row is stored
  (`InterfaceSessions.InterfaceSession.SubmitText` with `InterfaceSessions.TitleFailsIff`,
  `SessionTitles.TitleIsOneLine`; a witness is `InterfaceSessions.BlankFirstMessage`).
- Goals whose `depends_on` repeats an entry fail on a duplicate key. Goals of equal ids are accepted, all
  become tasks, and the id map keeps one of them (`GoalTranslation.SubmitAutonomous`,
  `AcceptedGoals.AcceptedEqualIds`); the results about orders are for different ids.
- An accepted request can have a cycle through its chat goal, which the planner would refuse
  (`parika/core/planner/planner.py:376-404`) and the autonomous path does not see
  (`AcceptedGoals.AcceptedAcyclicIff`, `AcceptedGoals.AcceptedCycle`). Without a cycle the dropped chat
  goal hides nothing (`AcceptedGoals.AcceptedKeepsNeeds`).
- `list_runtimes` ignores the status filter when a type is given.
- The confidence of a resolution is documented as at most 1.0 and reaches 1.85, and
  `matched_specialization` is also set for a mere preference
  (`AgentRanking.ConfidenceExceedsOneIff`, `AgentRanking.ConfidenceReaches`).
- The message cache can outgrow its limit through `update_status` and then never shrinks
  back (`MessageStore.UpdateOutgrowsIff`, `MessageStore.ExcessIsUnevicted`).
- Listing a capability by name can take away access a wildcard gave (`AgentProfiles.NamingCanRevoke`).

## Model

| member | source | states |
|---|---|---|
| `AgentSupervision.AgentSupervisor.Terminate` | parika/core/autonomous/agent_supervisor.py:282-302 | turns TERMINATED exactly the agents reachable from the root through child lists along agents live on entry, whatever the shape of the lists, cycles included; all other rows keep every field; each terminated agent's failure text is the reason prefixed once per level of some live path to it; ends because live agents become fewer |
| `AgentSupervision.AgentSupervisor.Pause` | parika/core/autonomous/agent_supervisor.py:304-321 | turns PAUSED exactly the agents reachable along RUNNING agents, touches nothing else and answers with the stored row |
| `AgentSupervision.AgentSupervisor.Resume` | parika/core/autonomous/agent_supervisor.py:323-340 | turns RUNNING exactly the agents reachable along PAUSED agents, touches nothing else and answers with the stored row |
| `AgentSupervision.ReasonReads` | parika/core/autonomous/agent_supervisor.py:282-302 | the reason below the named agent is the given text, or None written out, behind the prefix once per link |
| `AgentSupervision.PauseThenResume` | parika/core/autonomous/agent_supervisor.py:304-340 | pausing a RUNNING root and resuming it sets RUNNING exactly the paused agents plus those reachable from the root through previously PAUSED ones; every status is restored if and only if no just-paused agent had an already PAUSED child |
| `AgentSupervision.ResumeAfterPause` | parika/core/autonomous/agent_supervisor.py:304-340 | the agents a resume starts contain those the pause stopped, and the two sets are equal exactly when nothing paused hung below a stopped agent |
| `WhitePaths.ReachSplit` | parika/core/autonomous/agent_supervisor.py:296-302 | visiting children one after another, each over the agents still untouched, reaches together what one visit over all of them reaches: the reason a cascade that marks agents as it goes visits the reachable set |
| `AgentSupervision.AgentSupervisor.Spawn` | parika/core/autonomous/agent_supervisor.py:122-182 | in any store without the id, adds one row and appends it to an existing parent's child list, changing nothing else; keeps the forest invariant where it holds and the id is fresh |
| `AgentSupervision.SpawnKeepsForest` | parika/core/autonomous/agent_supervisor.py:122-166 | after a spawn with a fresh id every existing parent's list still holds exactly the agents naming it, each once, and the child links have no cycle |
| `AgentSupervision.SpawnAddsNoCycle` | parika/core/autonomous/agent_supervisor.py:122-166 | a cycle after the spawn would already have been a cycle before it |
| `AgentSupervision.SweepKeepsForest` | parika/core/autonomous/agent_supervisor.py:282-340 | terminate, pause and resume keep the forest invariant and change no finished agent; the three methods promise it through this lemma |
| `AgentSupervision.AgentSupervisor.Start` | parika/core/autonomous/agent_supervisor.py:184-211 | acts exactly on SPAWNED agents, ends in RUNNING with a start time, keeps every other field and row and the forest |
| `AgentSupervision.AgentSupervisor.Complete` | parika/core/autonomous/agent_supervisor.py:228-253 | acts exactly on RUNNING agents and sets status, result and completion time, nothing else |
| `AgentSupervision.AgentSupervisor.Fail` | parika/core/autonomous/agent_supervisor.py:255-280 | acts exactly on RUNNING agents and sets status, failure and completion time, nothing else |
| `AgentSupervision.AgentSupervisor.BuildTree` | parika/core/autonomous/agent_supervisor.py:369-374 | the recursion ends in a forest and rebuilds each child list with the stored children, each as often as stored |
| `AgentSupervision.AgentSupervisor.GetAgentTree` | parika/core/autonomous/agent_supervisor.py:362-376 | answers exactly for known agents, with the stored children |
| `AgentSupervision.FewerDescendants` | parika/core/autonomous/agent_supervisor.py:369-374 | in a forest a child has strictly fewer descendants than its parent, the measure of the tree walk |
| `MessageStore.GetIsRow` | parika/core/agent_communication/message_repository.py:99-125 | get agrees with the table on every id if and only if the cache is coherent |
| `MessageStore.WriteThroughKeepsCoherent` | parika/core/agent_communication/message_repository.py:88-104 | after any sequence of create, update_status and get from an empty store, and whatever was evicted, get returns the row |
| `MessageStore.RetryLeavesOldCopy` | parika/core/agent_communication/message_repository.py:267-294 | increment_retry spoils get for exactly the incremented id, and only if it was cached |
| `MessageStore.DeleteLeavesOldCopies` | parika/core/agent_communication/message_repository.py:296-314 | delete_expired spoils get for exactly the cached ids among the rows it deletes |
| `MessageStore.UpdateOutgrowsIff` | parika/core/agent_communication/message_repository.py:259-265 | update_status takes a cache within its limit past it exactly when the cache is full and the row exists uncached |
| `MessageStore.ExcessIsUnevicted` | parika/core/agent_communication/message_repository.py:88-97 | over any run the cache is beyond its limit by exactly the number of uncached rows updated while it was full, and it never shrinks |
| `MessageRepositories.MessageRepository.Create` | parika/core/agent_communication/message_repository.py:48-97 | inserts and caches the row; beyond the limit exactly one cached message goes, one with the least creation time |
| `MessageRepositories.MessageRepository.Get` | parika/core/agent_communication/message_repository.py:99-125 | the cached copy if there is one, else the row, else nothing |
| `MessageRepositories.MessageRepository.UpdateStatus` | parika/core/agent_communication/message_repository.py:218-265 | sets status and error, the delivery time for DELIVERED and the processing time for PROCESSED, in row and cached copy together, and answers with the row; nothing changes without a row |
| `MessageRepositories.MessageRepository.IncrementRetry` | parika/core/agent_communication/message_repository.py:267-294 | puts the row back to SENT with one more retry and without times and error, and leaves the cache alone |
| `MessageRepositories.MessageRepository.DeleteExpired` | parika/core/agent_communication/message_repository.py:296-314 | removes exactly the rows that expire before the given time and counts them |
| `MessageRepositories.MessageRepository.GetPendingMessages` | parika/core/agent_communication/message_repository.py:182-216 | SENT or DELIVERED rows addressed to the agent that do not expire by now: no row stands before a more urgent one (critical, high, normal, low) or an older one as urgent, and none is left out for such |
| `MessageStore.PendingAnswerIff` | parika/core/agent_communication/message_repository.py:182-216 | ordering by the numbered priorities and creation time gives exactly such answers |
| `MessageStore.RivalsAre` | parika/core/agent_communication/message_repository.py:182-216 | the rows ahead of a row or level with it are the pending ones that are more urgent, or as urgent and no newer |
| `MessageStore.PendingIsNotExpired` | parika/core/agent_communication/message.py:197-201 | a pending row has not expired; a row whose time is exactly now is neither pending nor expired |
| `MessageRepositories.MessageRepository.GetFailedMessages` | parika/core/agent_communication/message_repository.py:148-180 | FAILED rows the agent sent or received, newest first, the newest there are |
| `MessageStore.FailedAnswerIff` | parika/core/agent_communication/message_repository.py:148-180 | descending creation time gives exactly such answers |
| `Messages.SelectFirst` | parika/core/agent_communication/message_repository.py:182-216 | the first rows by (priority rank, creation time) up to the limit: a sorted selection without repeats, complete below the limit |
| `Messages.FirstHolds` | parika/core/agent_communication/message_repository.py:182-216 | a row with fewer than `limit` rows ahead of it or level with it is in every answer |
| `Messages.FirstLacks` | parika/core/agent_communication/message_repository.py:182-216 | a row with at least `limit` rows strictly ahead of it is in no answer |
| `Messages.InEveryAnswerIff` | parika/core/agent_communication/message_repository.py:182-216 | with the order of level rows left open, a row is in every possible answer if and only if fewer than `limit` rows are ahead of it or level with it |
| `BusSteps.HandlerCallsAreBounded` | parika/core/agent_communication/message_bus.py:210-334 | over every run of bus steps a handler is called for a message at most retry_count + 1 times, retry_count never passes max(0, max_retries), and the bound holds for deleted messages too, stale cache included |
| `BusSteps.OnlySentRowsAreHandled` | parika/core/agent_communication/message_bus.py:210-228 | in every reachable state deliver calls a handler exactly when it accepts the message and a handler takes it, and then the row itself, not just the cached copy, was SENT |
| `BusSteps.RetriedDeliversIffUncached` | parika/core/agent_communication/message_bus.py:317-334 | after a retry with a coherent cache the row is SENT, and the next deliver moves it on if and only if the message was not cached; if it was, the message is stuck |
| `BusSteps.RetriedStaysStuck` | parika/core/agent_communication/message_bus.py:210-334 | a retried message with a stale copy is never handed to its handler and never leaves SENT, over any run without an update or eviction of that copy |
| `BusSteps.StaleOnlyByRetry` | parika/core/agent_communication/message_bus.py:210-334 | over every run of bus steps get differs from an existing row exactly for a FAILED copy of a row that was retried behind it; SENT rows carry no delivery or processing time, delivered and processed rows carry theirs, and an error text is set exactly in FAILED and EXPIRED |
| `BusSteps.CycleClearsItsRows` | parika/core/agent_communication/message_bus.py:285-306 | a cycle changes no row outside its query's answer, and each row of the answer is out of SENT afterwards |
| `BusSteps.CycleChangesIff` | parika/core/agent_communication/message_bus.py:299-306 | of the answer's rows a cycle changes exactly those that were SENT or have expired by their turn |
| `BusSteps.CycleOutcome` | parika/core/agent_communication/message_bus.py:290-306 | a cycle gives every row of the answer the outcome of its own turn: EXPIRED, as before, DELIVERED, PROCESSING or FAILED with the handler's error, and calls its handler once in the last two cases |
| `BusSteps.HandlePendingOutcome` | parika/core/agent_communication/message_bus.py:299-306 | the outcome of one turn, from expiry time, status, registered types and whether the handler raises |
| `BusSteps.CriticalGetsThrough` | parika/core/agent_communication/message_bus.py:290-306 | a critical pending row with fewer than fifty other critical ones leaves SENT in the cycle, whatever less urgent rows wait |
| `BusSteps.UrgentGetsThrough` | parika/core/agent_communication/message_bus.py:290-306 | for every priority only rows at least as urgent count |
| `BusSteps.DeliverExactly` | parika/core/agent_communication/message_bus.py:210-283 | the whole effect of a delivery on the row and on the handler calls |
| `BusSteps.RetryAllRetries` | parika/core/agent_communication/message_bus.py:317-334 | each failed message with retries left goes back to SENT with one more, the others stay as they are |
| `BusSteps.RetryStepIs` | parika/core/agent_communication/message_bus.py:317-334 | a retry step touches the row of one failed message with retries left and nothing else |
| `BusSteps.CleanUpStepIs` | parika/core/agent_communication/message_repository.py:296-314 | a clean-up step removes the rows that expired before the given time and nothing else |
| `BusSteps.ExpireStepIs` | parika/core/agent_communication/message_bus.py:297-303 | an expiry step marks its row EXPIRED, with its text, and no other |
| `BusSteps.CycleDeliversNearRows` | parika/core/agent_communication/message_bus.py:290-306 | with a coherent cache, and handlers that do not use the bus, every pending SENT row with fewer than fifty pending rows ahead of it or level with it leaves SENT in the cycle |
| `BusSteps.TurnsGetThrough` | parika/core/agent_communication/message_bus.py:290-306 | interleaved with any bus steps, those of handlers included, a message that had its turn is out of SENT or gone afterwards unless it was itself retried |
| `BusSteps.InterleavedCycleDelivers` | parika/core/agent_communication/message_bus.py:290-306 | so with fewer than fifty rivals a pending row is out of SENT or gone once the answer is worked off, whatever happened in between but for its own retry |
| `BusSteps.CycleSurelyDeliversIff` | parika/core/agent_communication/message_bus.py:290-306 | and that is exact: a SENT row leaves SENT whichever answer the query gives if and only if there are fewer than fifty such rows |
| `BusSteps.BlockedForever` | parika/core/agent_communication/message_bus.py:285-334 | over any run mixing cycles with sends, deliveries, retries and clean-ups, fifty delivered rows that nobody processes or expires keep every cycle from any row of the agent behind them |
| `BusSteps.CyclesNeverReach` | parika/core/agent_communication/message_bus.py:290-306 | while only cycles run, such a row stays exactly as it was |
| `OverlappingRetries.OvershootIsBounded` | parika/core/agent_communication/message_bus.py:317-334 | when up to k retry calls overlap on a message, each counting up on what it read before, retry_count passes the limit by at most k - 1 and handler calls still by at most one more than retries |
| `OverlappingRetries.OvershootIsReached` | parika/core/agent_communication/message_bus.py:317-334 | for every k a run reaches that bound: a registered handler takes a sent message and raises, and k calls that saw it failed retry it |
| `OverlappingRetries.LimitKeptIffNoOverlap` | parika/core/agent_communication/message_bus.py:317-334 | the limit is kept in all runs with at most k overlapping calls if and only if k is at most one |
| `BusSteps.LimitKeptIffNotNegative` | parika/core/agent_communication/message.py:203-207 | over every run retry_count is at most max_retries exactly for messages whose limit is not negative |
| `BusSteps.NegativeLimit` | parika/core/agent_communication/message.py:104-137 | one send with a negative limit makes a row beyond it |
| `MessageBuses.MessageBus.Send` | parika/core/agent_communication/message_bus.py:123-188 | stores a new SENT message with the given sender, recipient, type, priority, expiry and limit, and no retries |
| `MessageBuses.MessageBus.RegisterHandler` | parika/core/agent_communication/message_bus.py:72-90 | replaces the types the agent's handler takes |
| `MessageBuses.MessageBus.UnregisterHandler` | parika/core/agent_communication/message_bus.py:92-97 | drops the agent's handler |
| `MessageBuses.MessageBus.Deliver` | parika/core/agent_communication/message_bus.py:210-228 | refuses unless get reports SENT and the row still exists; otherwise the row becomes DELIVERED, PROCESSING when a handler takes its type, or FAILED with the handler's error, and the handler is called exactly when it takes it |
| `MessageBuses.MessageBus.InvokeHandler` | parika/core/agent_communication/message_bus.py:248-283 | marks PROCESSING and calls the handler exactly when one is registered for the recipient and type; marks FAILED exactly when it raises |
| `MessageBuses.MessageBus.Process` | parika/core/agent_communication/message_bus.py:230-246 | moves a message to PROCESSED only if get reports DELIVERED or PROCESSING and the row exists |
| `MessageBuses.MessageBus.DeliverPending` | parika/core/agent_communication/message_bus.py:290-306 | handles, in order, exactly the first fifty pending rows, most urgent and then oldest first |
| `MessageBuses.MessageBus.HandlePending` | parika/core/agent_communication/message_bus.py:299-306 | an expired row becomes EXPIRED, any other is delivered |
| `MessageBuses.MessageBus.RetryFailed` | parika/core/agent_communication/message_bus.py:317-334 | retries exactly those of the hundred newest failed rows whose retry_count is below their limit, counts them, and touches no other row |
| `MissionSteps.MissionsStaySound` | parika/core/autonomous/mission_manager.py:144-364 | over any interleaving of writes and publishes every status history is a path in the transition table, completed_at is set exactly in terminal statuses, progress stays in [0, 1] and at most one completed, failed or cancelled event is published per mission |
| `MissionSteps.HistoryGrows` | parika/core/autonomous/contracts.py:422-444 | histories only grow and a terminal status is never left |
| `MissionSteps.EventsAreCounted` | parika/core/autonomous/mission_manager.py:103-364 | over any run there are, of each kind, exactly as many events published or owed as operations of that kind that acted |
| `MissionSteps.EventsTellTheHistory` | parika/core/autonomous/mission_manager.py:103-364 | over any run the created, completed, failed, cancelled and paused events of a mission are as many as such statuses in its history, and started plus resumed ones as many as RUNNING |
| `MissionSteps.StatusTells` | parika/core/autonomous/mission_manager.py:230-319 | a stored mission has caused one completed event if it is COMPLETED and none otherwise, and likewise for FAILED and CANCELLED |
| `MissionContracts.TerminalIsLast` | parika/core/autonomous/contracts.py:422-444 | in any path of the transition table only the last status can be terminal |
| `MissionSteps.PerformKeepsSound` | parika/core/autonomous/mission_manager.py:144-364 | a whole operation, write and publish, keeps the invariant |
| `MissionManagers.MissionManager.Complete` | parika/core/autonomous/mission_manager.py:230-259 | acts exactly on RUNNING missions: status, completed_at, progress 1.0 and the result; publishes the completed event and no other; otherwise the world is unchanged |
| `MissionManagers.MissionManager.Create` | parika/core/autonomous/mission_manager.py:103-142 | a new mission in CREATED and its created event |
| `MissionManagers.MissionManager.Plan` | parika/core/autonomous/mission_manager.py:144-163 | acts exactly on CREATED missions and publishes nothing |
| `MissionManagers.MissionManager.Start` | parika/core/autonomous/mission_manager.py:181-207 | acts exactly on PLANNING, WAITING, PAUSED, BLOCKED and NEEDS_APPROVAL missions, sets started_at and publishes the started event |
| `MissionManagers.MissionManager.Fail` | parika/core/autonomous/mission_manager.py:261-290 | acts exactly on missions that are not terminal, sets failure and completed_at and publishes the failed event |
| `MissionManagers.MissionManager.Pause` | parika/core/autonomous/mission_manager.py:321-342 | acts exactly on RUNNING missions and publishes the paused event |
| `MissionManagers.MissionManager.UpdateProgress` | parika/core/autonomous/mission_manager.py:209-228 | clamps the progress, whatever the status, changes nothing else but the update time and publishes the progress event |
| `MissionManagers.MissionManager.Cancel` | parika/core/autonomous/mission_manager.py:292-319 | acts exactly on missions that are not terminal, sets completed_at and publishes the cancelled event |
| `MissionManagers.MissionManager.Resume` | parika/core/autonomous/mission_manager.py:344-364 | acts where start does, so also on PLANNING, leaves started_at alone and publishes the resumed event |
| `MissionWaiting.RunsAreSafe` | parika/core/autonomous/mission_manager.py:376-425 | in every interleaving of waiter and manager steps exactly the subscriptions of the waiter's place are held, and the flag is set only by a terminal event of the mission |
| `MissionWaiting.FirstLookAnswers` | parika/core/autonomous/mission_manager.py:390-402 | a mission that is finished or gone when the wait begins is answered by the first look, without any subscription |
| `MissionWaiting.NoLostWakeUp` | parika/core/autonomous/mission_manager.py:390-425 | a waiter blocked on an unset flag has missed no terminal event published since it subscribed, in every run, and none at all unless its second look found the mission deleted; a terminal stored mission still owes the event that will wake it |
| `MissionWaiting.ReturnsDone` | parika/core/autonomous/mission_manager.py:376-425 | every return has dropped all three subscriptions; without a timeout the mission returned is terminal (or gone) |
| `MissionWaiting.WaiterReturns` | parika/core/autonomous/mission_manager.py:376-425 | the waiter is never stuck and each of its own steps brings it nearer its return |
| `MissionWaiting.NoneIffDeleted` | parika/core/autonomous/mission_manager.py:376-425 | over all runs the answer is None if and only if the mission was deleted before the call or before the answer was taken, however the wait ended |
| `MissionWaiting.TimeoutAnswersNoneIff` | parika/core/autonomous/mission_manager.py:386-421 | a timed-out wait answers None, as documented, if and only if the mission was deleted before the answer was taken |
| `MissionWaiting.PromiseKeptIff` | parika/core/autonomous/mission_manager.py:386-421 | the documented answer, a terminal mission or None, is given if and only if the mission was deleted or finished before the answer was taken; every other wait was timed out |
| `MissionWaiting.TimeoutReturnsUnfinished` | parika/core/autonomous/mission_manager.py:386-421 | witness: every unfinished mission has a run that returns it unfinished after a timeout |
| `GoalTranslation.SubmitAutonomous` | parika/interfaces/session.py:878-978 | for any goals, equal ids included: it fails exactly when a non-chat goal, or several of one id, list another non-chat goal twice; otherwise each non-chat goal has a task, a row exists exactly where a goal of one id lists another id, and goals and tasks match one to one if and only if the ids of non-chat goals differ; for unique ids the result is a translation |
| `GoalTranslation.CreateTasks` | parika/interfaces/session.py:878-937 | first pass: one task for each non-chat goal and none for the others; the id map is a bijection if and only if the ids of non-chat goals differ |
| `GoalTranslation.AddDependencies` | parika/interfaces/session.py:938-978 | second pass: the rows, the waiting status exactly for tasks that got one, and failure exactly on a clash |
| `GoalTranslation.InsertRows` | parika/interfaces/session.py:964-978 | inserting the rows of a task fails exactly on a repeated key |
| `GoalTranslation.GoalOrderIsTaskOrder` | parika/interfaces/session.py:878-978 | every order of the goals, restricted to the non-chat goals, is an order of the task graph |
| `GoalTranslation.TaskOrdersExtendIff` | parika/interfaces/session.py:878-978 | every order of the tasks comes from an order of the goals if and only if no need between non-chat goals runs only through chat goals |
| `GoalTranslation.NoChatDependencyExtends` | parika/interfaces/session.py:878-978 | in particular when no non-chat goal depends on a chat goal |
| `AcceptedGoals.ValidIff` | parika/interfaces/ai_context/goal_decomposer.py:265-322 | for different ids the decomposition check accepts exactly the requests whose last goal, and no other, is a chat goal listing exactly the other goals |
| `AcceptedGoals.RefusalTells` | parika/interfaces/ai_context/goal_decomposer.py:265-322 | a refusal names the number of chat goals, or exactly the goals the chat goal leaves out and those it lists beside them |
| `AcceptedGoals.AcceptedKeepsNeeds` | parika/interfaces/ai_context/goal_decomposer.py:265-322 | an accepted request without cycles loses no need when its chat goal is dropped |
| `AcceptedGoals.AcceptedOrdersExtend` | parika/interfaces/session.py:878-978 | so every order of its tasks comes from an order of its goals |
| `AcceptedGoals.AcceptedOrdersExtendIff` | parika/interfaces/session.py:878-978 | for every accepted request all orders of its tasks come from orders of its goals if and only if it has no cycle or its tasks have no order at all |
| `AcceptedGoals.AcceptedAcyclicIff` | parika/interfaces/ai_context/goal_decomposer.py:265-322 | an accepted request is free of cycles if and only if its task graph is and no goal lists the chat goal |
| `AcceptedGoals.TaskOrderExistsIff` | parika/interfaces/session.py:878-978 | the tasks can be ordered if and only if the non-chat goals have no cycle among themselves |
| `AcceptedGoals.AcceptedCycle` | parika/interfaces/ai_context/goal_decomposer.py:265-322 | witness: an accepted request with a cycle through its chat goal whose task graph has none |
| `AcceptedGoals.AcceptedEqualIds` | parika/interfaces/ai_context/goal_decomposer.py:265-322 | witness: accepted goals of equal ids that become two tasks, one of them missing from the id map |
| `DependencyOrders.OrderExistsIff` | parika/interfaces/session.py:878-978 | a finite graph has an order if and only if it has no cycle |
| `DependencyOrders.OrdersExtendIff` | parika/interfaces/session.py:878-978 | for any acyclic graph: all orders of a kept part extend to orders of the whole exactly when the kept part's own edges already imply every need between kept nodes |
| `DependencyOrders.KeptOrderExtends` | parika/interfaces/session.py:878-978 | builds an order of the whole graph around a given order of the kept part |
| `DependencyOrders.LostNeedMisorders` | parika/interfaces/session.py:878-978 | a lost need yields an order of the kept part that puts it the wrong way round |
| `InterfaceSessions.LoadRebuilds` | parika/interfaces/session.py:1319-1345 | after any run of turns, recorded commands, clears, deletions of the session's own rows and other sessions' writes, load rebuilds exactly the conversation in memory if and only if the session is stored, none of its dialogue predates the object or its last clear, and nothing said was deleted; message_count equals the session's rows |
| `InterfaceSessions.LoadAfterDeletion` | parika/interfaces/session.py:1319-1345 | once the rows are deleted load fails until the next turn and then rebuilds exactly what was said since |
| `InterfaceSessions.TurnRemembers` | parika/interfaces/session.py:452-458 | every turn keeps memory and store in step and stores the user's row; a completed one adds exactly one assistant or error row, an aborted one none |
| `InterfaceSessions.TurnSays` | parika/interfaces/session.py:452-793 | a turn adds the user's text to conversation and display; a reply goes to both, an error text, or the default one, to the display only, and nothing more when the turn ends early |
| `InterfaceSessions.TurnTitles` | parika/interfaces/session.py:462-467 | the first turn with a text that has a title gives it to the session, no later turn changes it, and other sessions stay as they are |
| `InterfaceSessions.DisplayShowsTail` | parika/interfaces/session.py:401-458 | over any run the display log without its command entries, errors included, shows the last rows stored for the session, as many as it has such entries since those rows were last deleted |
| `InterfaceSessions.InterfaceSession.Record` | parika/interfaces/session.py:402-410 | adds a display entry and touches neither conversation nor store |
| `InterfaceSessions.TitleFailsIff` | parika/interfaces/session.py:462-467 | a turn ends early exactly for a blank text in a session without a title |
| `InterfaceSessions.BlankFirstMessage` | parika/interfaces/session.py:452-467 | witness: a blank first message leaves its own row and nothing else |
| `InterfaceSessions.NewSessionsRemember` | parika/interfaces/session.py:1319-1345 | a session begun fresh or loaded starts in step, forgetting nothing exactly when nothing was stored |
| `InterfaceSessions.InterfaceSession.SubmitText` | parika/interfaces/session.py:423-497 | the object's turn is the turn function: display, conversation, rows, title, and the early exit for a blank text in an untitled session |
| `InterfaceSessions.InterfaceSession.FinalizeTurn` | parika/interfaces/session.py:726-793 | assistant reply or error text goes to display and store, and only the reply to the conversation |
| `InterfaceSessions.InterfaceSession.Load` | parika/interfaces/conversation_state.py:229-273 | the loop over stored rows yields the user and assistant messages in order, or an error for an unknown session |
| `InterfaceSessions.InterfaceSession.Clear` | parika/interfaces/session.py:412-421 | forgets conversation and display and keeps the stored rows |
| `SessionTables.DialogueAfterAppend` | parika/interfaces/postgresql_session_store.py:95-130 | appending a row extends that session's dialogue by what was said and leaves every other session's alone |
| `SessionTables.CountsAfterAppend` | parika/interfaces/postgresql_session_store.py:95-130 | message_count stays the number of rows of each session |
| `SessionTables.DialogueAfterDelete` | parika/interfaces/postgresql_session_store.py:138-155 | deleting a session removes its dialogue and no other, and keeps the counts right |
| `SessionStores.SessionStore.AppendMessage` | parika/interfaces/postgresql_session_store.py:95-130 | creates a missing session row, adds the message and counts it |
| `SessionStores.SessionStore.EnsureSession` | parika/interfaces/postgresql_session_store.py:73-93 | adds an untitled, empty session row unless there is one |
| `SessionStores.SessionStore.GetSession` | parika/interfaces/postgresql_session_store.py:241-252 | the message count of the row is the number of the session's messages, none when there is no row |
| `SessionStores.SessionStore.GetMessages` | parika/interfaces/postgresql_session_store.py:263-273 | the rows at exactly the positions of the session's messages in the table, in rising order |
| `SessionStores.SessionStore.DeleteSession` | parika/interfaces/postgresql_session_store.py:138-155 | removes messages and row; answers whether the row existed |
| `SessionStores.SessionStore.SetTitle` | parika/interfaces/postgresql_session_store.py:226-239 | sets the title of an existing session, and fails exactly for a missing one |
| `SessionTitles.TitleIsOneLine` | parika/interfaces/session.py:462-467 | a text yields a title unless it is blank; the title is one nonempty line of at most 80 characters from the start of the stripped text |
| `SessionTitles.TitleIs` | parika/interfaces/session.py:462-467 | the title is the stripped text up to its first line break, or its first eighty characters |
| `VoiceStreaming.RunsConserve` | parika/api/handlers/voice.py:355-429 | in every interleaving the queue holds at most one item and consumed, queued and still to come items make up the driver's script |
| `VoiceStreaming.YieldsAPrefix` | parika/api/handlers/voice.py:355-429 | what the client received is a prefix of what the driver produced |
| `VoiceStreaming.ChecksBeforeItems` | parika/api/handlers/voice.py:397-407 | the connection is checked before every item: there are as many checks as items taken, and one more while an item is awaited |
| `VoiceStreaming.CompleteWithoutDisconnect` | parika/api/handlers/voice.py:355-429 | every run without a disconnect that cannot go on has yielded all chunks, plus one error chunk exactly when the driver raised, and both sides have ended |
| `VoiceStreaming.EveryStepWorks` | parika/api/handlers/voice.py:355-429 | every step of either side lowers one measure |
| `VoiceStreaming.RunsAreBounded` | parika/api/handlers/voice.py:355-429 | so a run has at most 4 * (items) + 3 steps |
| `VoiceStreaming.ProducerEndsIff` | parika/api/handlers/voice.py:355-429 | after a disconnect, seen by the check or cancelling the consumer while it waits in queue.get, the producer finishes if and only if at most one item was left to take |
| `SpinnerLines.AloneStaysTidy` | parika/console/spinner_view.py:505-661 | over every run in which only the renderer writes: cells at or beyond the rendered width are blank, the line is fresh whenever the renderer is suspended and whenever the last operation ends, and after each render round it reads exactly as the frame drawn or is blank |
| `SpinnerLines.AloneIsCourteous` | parika/console/spinner_view.py:467-499 | in such runs every resume finds a fresh line by itself |
| `SpinnerLines.RunsStayTidy` | parika/console/spinner_view.py:505-661 | the same over every run in which others write too, but only while the renderer is suspended, and leave a fresh line |
| `SpinnerLines.SuspendedWritesNothing` | parika/console/spinner_view.py:467-503 | from suspension to the next resume the stream receives what others write and nothing else |
| `SpinnerLines.NeverStepsBack` | parika/console/spinner_view.py:542-565 | while labels stay generic and operations in flight, the shown phrase never steps back and is the rotation phrase of its place |
| `SpinnerLines.ClocksStand` | parika/console/spinner_view.py:613-681 | within a turn the elapsed-time clock never moves, and neither does the start of the wait while labels stay generic |
| `SpinnerLines.ElapsedCountsFromFirstBegin` | parika/console/spinner_view.py:567-585 | the appended seconds are the whole seconds since the turn's first begin, shown from ten seconds on, over any run of the turn |
| `SpinnerLines.DrawShowsFrame` | parika/console/spinner_view.py:521-540 | after a drawn frame the line shows that frame and no leftovers, whatever was drawn before |
| `SpinnerLines.TurnLineReads` | parika/console/spinner_view.py:521-585 | during a turn, whatever began, ended, was suspended or drawn before, a drawn line reads two blanks, a glyph, a blank, the phrase for the label given last (itself, or the k-th rotation phrase after k times four seconds of generic labels) and from ten seconds on the turn's age in whole seconds |
| `SpinnerLines.LabelsFollow` | parika/console/spinner_view.py:613-681 | the message is the label given last, and a wait counts from the first of an unbroken row of generic labels |
| `SpinnerLines.GlyphsTurn` | parika/console/spinner_view.py:521-540 | every drawn frame takes the next glyph |
| `SpinnerLines.WholeLinesAreCourteous` | parika/console/spinner_view.py:467-487 | whoever ends what it writes with a line feed leaves a fresh line to resume on |
| `TerminalLines.TypeOverStart` | parika/console/spinner_view.py:533-535 | typing a text from the first cell overwrites as many cells and keeps the rest |
| `SpinnerRenderers.SpinnerProgressRenderer.Begin` | parika/console/spinner_view.py:613-626 | counts the operation, starts the turn clock only from zero, sets the label |
| `SpinnerRenderers.SpinnerProgressRenderer.End` | parika/console/spinner_view.py:635-654 | never goes below zero; at zero clears line, label and clocks |
| `SpinnerRenderers.SpinnerProgressRenderer.Update` | parika/console/spinner_view.py:628-633 | sets the label only while something is in flight |
| `SpinnerRenderers.SpinnerProgressRenderer.ClearLocked` | parika/console/spinner_view.py:603-607 | wipes the drawn cells, and writes nothing when none are drawn |
| `SpinnerRenderers.SpinnerProgressRenderer.Resume` | parika/console/spinner_view.py:489-499 | allows repainting again and writes nothing itself |
| `SpinnerRenderers.SpinnerProgressRenderer.SetMessageLocked` | parika/console/spinner_view.py:656-681 | keeps the wait's start only from one generic label to another |
| `SpinnerRenderers.SpinnerProgressRenderer.DrawLocked` | parika/console/spinner_view.py:521-540 | writes the frame with padding over the previous one and records its width |
| `SpinnerRenderers.SpinnerProgressRenderer.Render` | parika/console/spinner_view.py:505-514 | draws exactly when something is in flight and the renderer is not suspended, clears otherwise |
| `SpinnerRenderers.SpinnerProgressRenderer.Suspend` | parika/console/spinner_view.py:467-487 | clears the line and stops repainting, keeping the count |
| `BudgetSteps.CountersAddUp` | parika/core/autonomous/budget.py:245-339 | after any calls, each counter of a task is the number or the sum of what was recorded for it since its last set_budget or cleanup, and concurrent_workers is the greatest starts-minus-ends over all suffixes, the empty one included |
| `BudgetSteps.CheckTells` | parika/core/autonomous/budget.py:109-243 | after any calls a check reports each limit, with limit and amount, exactly when it is set and reached by what the calls since set_budget add up to: retries, children, tokens, cost, the peak of workers, the time since, and the given load; it says what is left of the first five, in a fixed order, and answers unlimited without limits |
| `BudgetSteps.AnswerCompares` | parika/core/autonomous/budget.py:109-243 | one limit of an answer: when it is reported, with which numbers, and what is left of it |
| `BudgetSteps.TasksAreIndependent` | parika/core/autonomous/budget.py:85-353 | what is kept about a task depends on the calls for that task alone |
| `BudgetSteps.ViolationsLast` | parika/core/autonomous/budget.py:109-243 | a violated runtime, retry, child, token or cost limit stays violated over any run of records with non-negative amounts, any later time and any load |
| `BudgetSteps.WorkerViolationLifts` | parika/core/autonomous/budget.py:325-339 | the worker limit is the exception: one worker ending lifts it |
| `BudgetSteps.NothingRemainsIffViolated` | parika/core/autonomous/budget.py:109-243 | a check reports exactly the violated limits, and what remains of each of the five is zero exactly when it is violated |
| `BudgetSteps.AllowedIffNoneViolated` | parika/core/autonomous/budget.py:109-243 | allowed exactly when no limit is violated |
| `BudgetSteps.RunsTrackLimits` | parika/core/autonomous/budget.py:85-107 | a task with limits always has counters and a start time |
| `BudgetEnforcers.BudgetEnforcer.CheckBudget` | parika/core/autonomous/budget.py:109-243 | the eight comparisons and five remainders, against the answer function, with the runtime read off the clock and the load given by the snapshot |
| `BudgetEnforcers.BudgetEnforcer.RecordWorkerEnd` | parika/core/autonomous/budget.py:325-339 | one worker fewer but never below zero, then the check of the new state |
| `BudgetEnforcers.BudgetEnforcer.SetBudget` | parika/core/autonomous/budget.py:85-100 | replaces the limits, restarts the clock and zeroes the counters of that task only |
| `BudgetEnforcers.BudgetEnforcer.StartTracking` | parika/core/autonomous/budget.py:102-107 | starts what is not tracked yet and keeps what is |
| `BudgetEnforcers.BudgetEnforcer.Cleanup` | parika/core/autonomous/budget.py:349-353 | drops everything kept about that task only |
| `BudgetEnforcers.BudgetEnforcer.RecordRetry` | parika/core/autonomous/budget.py:245-259 | one retry more for that task only, then the check of the new state |
| `BudgetEnforcers.BudgetEnforcer.RecordChildSpawn` | parika/core/autonomous/budget.py:261-275 | one child more for that task only, then the check of the new state |
| `BudgetEnforcers.BudgetEnforcer.RecordTokens` | parika/core/autonomous/budget.py:277-291 | that many tokens more for that task only, then the check of the new state |
| `BudgetEnforcers.BudgetEnforcer.RecordCost` | parika/core/autonomous/budget.py:293-307 | that much cost more for that task only, then the check of the new state |
| `BudgetEnforcers.BudgetEnforcer.RecordWorkerStart` | parika/core/autonomous/budget.py:309-323 | one worker more for that task only, then the check of the new state |
| `AgentRegistries.AgentResolver.Resolve` | parika/core/agent_orchestrator/agent_resolver.py:82-159 | fails exactly when no registered profile permits the capability with the required categories, and else returns the choice among those that do |
| `AgentProfiles.AccessRules` | parika/core/agent_orchestrator/agent_profile.py:73-86 | a prohibited capability is never usable; one a nonempty list does not name is usable exactly when some beginning of it is listed with a star; any other exactly when the categories allow it |
| `AgentProfiles.CanUseIff` | parika/core/agent_orchestrator/agent_profile.py:73-86 | the access check is what the lists permit |
| `AgentRanking.BestIsChoice` | parika/core/agent_orchestrator/agent_resolver.py:121-254 | the best agent is the choice said of the profiles: suiting, of the hinted specialization if a suiting agent is, first by merits and then by id |
| `AgentRanking.ScoreAddsUp` | parika/core/agent_orchestrator/agent_resolver.py:211-249 | score, matched capabilities and matched specialization in terms of the profile's lists |
| `AgentRanking.TextOrderIs` | parika/core/agent_orchestrator/agent_resolver.py:251-252 | ids are compared by the first character they differ in, a beginning coming first |
| `AgentRanking.BestIsUnique` | parika/core/agent_orchestrator/agent_resolver.py:251-254 | there is at most one best agent, so registration and iteration order cannot matter |
| `AgentRanking.PoolIsEmptyIff` | parika/core/agent_orchestrator/agent_resolver.py:161-196 | the pool is empty exactly when nobody qualifies, so the preferred specialization is only a hint; the pool has it exactly when a qualifying agent does |
| `AgentRanking.ScoresAreLexicographic` | parika/core/agent_orchestrator/agent_resolver.py:198-249 | within one pool the weighted sum orders agents lexicographically: explicit preference, preferred category, listing, general |
| `AgentRanking.ConfidenceExceedsOneIff` | parika/core/agent_orchestrator/agent_resolver.py:211-247 | the score is at most 1.85 and passes the documented 1.0 exactly for agents with an explicit or category preference, or with the hinted specialization and a listing or the general role; matched_specialization is set exactly from a score of 0.8 on, so for mere preferences too |
| `AgentRanking.ConfidenceReaches` | parika/core/agent_orchestrator/agent_resolver.py:211-247 | a profile and request that reach 1.85 |
| `AgentRanking.LosersDoNotMatter` | parika/core/agent_orchestrator/agent_resolver.py:161-254 | unregistering anybody but the chosen agent leaves the choice |
| `AgentRanking.NewcomerWinsOrNothingChanges` | parika/core/agent_orchestrator/agent_resolver.py:161-254 | registering an agent makes it the choice or changes nothing |
| `AgentRegistries.AgentResolver.FindCandidates` | parika/core/agent_orchestrator/agent_resolver.py:161-196 | collects exactly the pool, in some order |
| `AgentRegistries.AgentResolver.ScoreCandidates` | parika/core/agent_orchestrator/agent_resolver.py:198-254 | every candidate with its score, sorted by falling score, then rising id |
| `AgentRanking.Ranked` | parika/core/agent_orchestrator/agent_resolver.py:251-252 | a permutation of the candidates in which each is ahead of all later ones |
| `AgentRegistries.AgentOrchestrator.Delegate` | parika/core/agent_orchestrator/agent_orchestrator.py:268-358 | exact condition of each error; the cannot-use error is never raised; the delegate is the choice among the agents whose lists permit the capability |
| `AgentRegistries.AgentRegistry.Register` | parika/core/agent_orchestrator/agent_registry.py:53-88 | refuses a known id, else adds the profile and keeps the specialization index exact |
| `AgentRegistries.AgentRegistry.Unregister` | parika/core/agent_orchestrator/agent_registry.py:90-126 | refuses an unknown id, else removes it from table and index, dropping an emptied entry |
| `AgentRegistries.AgentRegistry.GetAll` | parika/core/agent_orchestrator/agent_registry.py:165-173 | every registered profile |
| `AgentRegistries.AgentRegistry.GetBySpecialization` | parika/core/agent_orchestrator/agent_registry.py:175-195 | answers from the index what a scan of the table would |
| `AgentProfiles.NamingCanRevoke` | parika/core/agent_orchestrator/agent_profile.py:73-86 | a usable capability becomes unusable by being listed by name exactly when the agent's categories do not allow it, which only a wildcard had bypassed |
| `RuntimeRegistries.RuntimeRegistry.Register` | parika/core/agent_runtime/runtime_registry.py:68-105 | refuses a known id, else adds a STOPPED runtime; both indexes stay exact |
| `RuntimeRegistries.RuntimeRegistry.Unregister` | parika/core/agent_runtime/runtime_registry.py:107-119 | refuses an unknown id, else removes it; both indexes stay exact |
| `RuntimeRegistries.RuntimeRegistry.UpdateStatus` | parika/core/agent_runtime/runtime_registry.py:154-188 | changes status, error and, for RUNNING, the heartbeat of that one runtime; both indexes stay exact |
| `RuntimeRegistries.RuntimeRegistry.GetInfo` | parika/core/agent_runtime/runtime_registry.py:121-125 | answers exactly for ids the indexes file, and both file the id under the type and status answered and nowhere else |
| `RuntimeRegistries.RuntimeRegistry.IsAvailable` | parika/core/agent_runtime/runtime_registry.py:190-202 | true exactly when a full scan finds a running runtime of the type |
| `RuntimeRegistries.RuntimeRegistry.GetAvailableRuntimes` | parika/core/agent_runtime/runtime_registry.py:204-212 | exactly the running runtimes of the type, each once |
| `RuntimeRegistries.RuntimeRegistry.ListRuntimes` | parika/core/agent_runtime/runtime_registry.py:133-152 | filters by type, or by status only when no type is given; with both filters the answer respects the status exactly when all runtimes of the type have it |
| `RuntimeRegistries.RuntimeRegistry.GetStats` | parika/core/agent_runtime/runtime_registry.py:214-228 | each count is the number of runtimes of that type or status, and both kinds of counts sum to the total |
| `RuntimeIndexes.SizesAddUp` | parika/core/agent_runtime/runtime_registry.py:214-228 | the entries of an exact index partition the runtimes, so their sizes add up |
| `RuntimeIndexes.RefilingIndexes` | parika/core/agent_runtime/runtime_registry.py:161-164 | moving an id from its old entry to its new one keeps the index exact |
| `Durations.FormatReadsBack` | parika/console/tool_footer.py:232-248 | parsing the printed duration gives back the whole seconds shown, for every real duration |
| `Durations.FormatLooks` | parika/console/tool_footer.py:232-248 | the text is Ns or Nm SSs with exactly two digits of seconds and no leading zero in N |
| `Durations.PrintsAlikeIff` | parika/console/tool_footer.py:232-248 | two durations print alike exactly when they round to the same shown seconds |
| `Durations.MinutesFormIff` | parika/console/tool_footer.py:245-246 | the minutes form appears exactly from 59.5 seconds on |
| `Durations.RoundingIsUnique` | parika/console/tool_footer.py:242-242 | round is the nearest integer, the even one of two equally near, and nothing else is |

## Left out

- HTTP and WebSocket routers, schemas, authentication, the server, provider registration, SQL text, logging.
- Heartbeats, stale-agent detection and plain lookups of the agent supervisor; the database's foreign key on parents.
- Asynchronous message handlers, `retry_failed` without an agent id (it reads an unassigned variable), `get_stats` of the bus. Two threads inside one `deliver` are not interleaved below a bus step; a handler that calls the bus back is, because its failure is a step of its own.
- The contents of events beyond their kind and mission, and the payload, task and correlation of messages.
- Which of several rows with equal keys a query returns first: any choice is allowed, and the results hold for all.
- Mission listings, and the mission manager's `update`, which stores whatever it is given.
- Task inputs, permission contexts and reference resolution of the goal translation; `assign_agents_to_goals`, a loop over independent resolutions.
- What produces a turn's outcome (planning, model calls); it is a parameter. Replies carry the role "assistant". Sessions without a store, `export_session`, `import_session`, search and summaries. `load` builds the same static prefix as the session object did.
- The one-second wait for the producer and its cancellation after the stream has ended.
- Colours, the terminal title, thread start and stop of the spinner, and the mapping from events to labels.
- BudgetEnforcers.BudgetEnforcer.CheckBudget: does not model the message texts of violations; the load snapshot is a parameter.
- The human-readable reason of a resolution, `find` of the agent registry, model and provider preferences.
- Backend instances, capabilities and active-agent totals of runtimes.
- SessionStores.SessionStore.SetTitle: does not model the update time the store also writes.
- InterfaceSessions.LoadRebuilds: does not model a second session object appending to the same stored session; its rows would be in the store and not in this object's conversation.
- InterfaceSessions.DisplayShowsTail: does not model that second object either.
- BusSteps.BlockedForever: is about rows that never expire, the case in which they block for good; with expiring rows the block ends at their expiry.
- BudgetSteps.ViolationsLast: assumes non-negative amounts, as the property is false for refunds; worker, CPU and memory limits are not its subject, since they can be lifted.
