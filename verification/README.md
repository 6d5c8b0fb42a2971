# PubSubDB: a verified model

PubSubDB runs workflows without a central server. Its engines share nothing but Redis: one hash per
job, whose numbers they step with atomic increments, and streams of messages that may be delivered
more than once and whose consumers may die at any moment. This project models the parts on which
correctness rests and proves what they keep over all inputs and all runs.

How it is organised, hardest first:

- **One job, many engines.** `Collator` is the 15-digit ledger of an activity: its increments, the
  digits read back as text, the entry tests. `JobRun` is the step relation over the job's hash: any
  engine takes any atomic step at any time, a published transition or a leg-2 event may be delivered
  any number of times, and an engine may die between any two steps. Its worlds carry a history: which
  activities were handed on by a completed parent, which of them are still live, what happened to each
  ledger. `JobTheorems` proves the semaphore, completion and progress results over whole runs;
  `Overlaps` adds leg-2 deliveries that overlap. `Activities` has the activities, the trigger and the
  engine as objects that queue commands on a MULTI; every call of theirs is proved to be a sequence of
  steps of `JobRun`. `Nesting` puts jobs inside await activities of other jobs, to any depth,
  `NestingExactness` shows when they finish from the inside out, and `Spawned` ties the result that the
  engine's object sends to the one that `Nesting` tells of.
- **Stream delivery.** `Streams` is the stream with delivery counts, its consumers and every step at
  which one can die; `StreamBounds` bounds callback runs and retries, `StreamExactness` shows for which
  requests there is a bound at all; `Signaler` is the consumer's code as an object, which takes only
  steps of that model.
- **Symbol-compressed state.** `Symbols` and `Allocator` give paths their 3-letter symbols, `Deployer`
  is the same as the compiler's and the store's loops; `Values` is tagged text and the 2-letter symbols;
  `Compression` is what the renaming passes do to a flat document; `Serializer` is the object with its
  loops, whose fields are visited in any order and which may or may not visit names they put in
  themselves; `JobState` and `StateStore` are the hash behind a plain map, `Coherence` derives what they
  need of the tables from the manifests deployed; `Hierarchy` is the tree.
- **Work queues and time hooks.** `WorkQueues` and `TimeHooks`.
- **Graphs and versions.** `Graphs`, `Versions` and `Quorum`.
- `Text`, `Sums` and `Options` are shared helpers: decimal numerals and splitting, sums over sets.

Numbers are integers below 10^21 in magnitude, where JavaScript prints them without an exponent; JSON
text is kept as text. Redis commands and MULTI blocks are atomic. Clocks, pub/sub and the application's
callbacks appear as parameters.

Assumptions, each with what is known of it:

- In `JobRun` two leg-2 deliveries of one activity do not overlap between the re-entry test and the
  closing MULTI. `Overlaps.SemaphoreCountsLiveExactly` shows that the semaphore counts the live activities
  in every run if and only if this is so.
- In `JobRun` an activity is re-entered fewer than 999,999 times, and not on a ledger that lets a closed
  activity in again. `Collator.LegTwoOpensExactly` says which ledgers those are: exactly nine leg-1
  attempts and 900,000 re-entries or more.
- Await requests and transitions may be delivered any number of times; what follows for nested jobs is
  stated as an equivalence in `NestingExactness`.
- XCLAIM demands that a message is still idle, so a claim decided on an outdated delivery count needs a
  second wait as long as the reclaim delay between XPENDING and XCLAIM; `slack` counts such claims and
  is 0 without them.
- Nobody writes the ledger's path `<activity>/output/metadata/as` but the collator and the seeding.

Where code and documentation differ the model follows the code: the documentation calls a job complete
at semaphore value 0, the code at a value of 0 or less.

## Model

| member | source | states |
|---|---|---|
| `Collator.StoredEncodesTally` | services/collator/index.ts:13-48 | Whatever order the atomic increments arrive in, the stored number is the encoding of how often each was made. |
| `Collator.LedgerIsExactEncoding` | services/collator/index.ts:50-67 | The digits, read as characters, give back entries, exits, completions, re-entries and finishes if and only if at most 8 leg-1 entries were attempted. |
| `Collator.LegOneGate` | services/collator/index.ts:87-96 | Leg 1 is let in exactly when nothing has happened to the ledger since it was seeded, however many attempts there were. |
| `Collator.LegOneFaults` | services/collator/index.ts:87-96 | Which fault a refused leg-1 entry raises. |
| `Collator.LegTwoGate` | services/collator/index.ts:103-109 | Leg 2 is let in exactly when leg 1 has entered and exited and the activity is not closed; otherwise forbidden or inactive. |
| `Collator.LegOneExitGate` | services/collator/index.ts:97-102 | The test for the end of leg 1, which `authorizeReentry` leaves out: the first exit passes, a second one is a duplicate. |
| `Collator.UnseededLedger` | services/collator/index.ts:87-109 | A ledger that nobody seeded: leg 1 finds it missing, exactly then; leg 2 finds it inactive. |
| `Collator.LegTwoOpensExactly` | services/collator/index.ts:77-109 | For any number of leg-1 attempts leg 2 is let in if and only if the activity has left leg 1, is not closed and saw at most 8 attempts, or the ledger is one of those that reopen. |
| `Collator.ShiftedLedgerGate` | services/collator/index.ts:50-109 | After nine or more leg-1 attempts the digits have shifted; leg 2 is let in if and only if there were exactly nine, the activity is closed and its re-entries reach 900,000. |
| `Collator.ShiftedLedgerCanReopen` | services/collator/index.ts:50-85 | Such a ledger exists: nine leg-1 attempts and 900,000 re-entries let a closed activity in again. |
| `Collator.LegOnePassesOnce` | services/collator/index.ts:13-18 | Over any history, leg 1 passes at most once per seeding. |
| `Collator.ClosedStaysClosed` | services/collator/index.ts:28-48 | Once a closing step is in the history, leg 1 is never let in again, and leg 2 if and only if the ledger is one of those that reopen. |
| `Collator.EarlyCompletionIsThreeSteps` | services/collator/index.ts:28-31 | Early completion leaves number and counts as leg-1 exit, re-entry and completion in sequence do. |
| `Collator.ReentriesGetDifferentIndexes` | services/collator/index.ts:59-67 | Any two re-entries of one history are told different, growing dimensional indexes. |
| `Collator.AddressInjective` | services/activities/activity.ts:432-456 | Equal dimensional addresses have equal indexes at every generation. |
| `Collator.ChildAddressesDiffer` | services/activities/activity.ts:432-456 | Children of two re-entries of one activity never get the same address. |
| `JobRun.EnterGateDecides` | services/store/index.ts:511-523 | In every reachable world the number returned by the increment lets leg 1 in exactly when the ledger is untouched. |
| `JobRun.ReenterGateDecides` | services/store/index.ts:511-523 | In every reachable world it lets leg 2 in exactly when the activity has left leg 1 and is not closed, on every ledger that cannot reopen. |
| `JobRun.ChildIsFresh` | services/activities/activity.ts:271-278 | A child of a live activity was never handed on and its ledger, though perhaps seeded by a pending reply, is untouched. |
| `JobRun.CloseKeepsJob` | services/activities/activity.ts:192-202 | The closing MULTI moves the semaphore by exactly the change in the number of live activities. |
| `JobRun.StepKeepsInv` | services/activities/activity.ts:71-215 | Every atomic step of any engine, crashes included, keeps the job invariant: semaphore = live activities, ledgers encode their counts, completion owed once. |
| `JobTheorems.LiveIsHandedOnMinusCompleted` | services/activities/activity.ts:432-470 | In every run the live activities are those handed on by the trigger or a completing parent, minus those that completed; the two are read off the events alone. |
| `JobTheorems.SemaphoreCountsLive` | services/activities/activity.ts:96-106 | In every run the semaphore equals the number of activities handed on and not complete (so is never negative), and the completion tasks are owed, run or lost exactly once when that number is 0. |
| `JobTheorems.CompletionIsOwedWhenLiveEmpties` | services/activities/activity.ts:458-470 | The step after which an engine owes the completion tasks is exactly the one that empties the live set. |
| `JobTheorems.CompletionTasksRunOnce` | services/engine/index.ts:564-577 | If no engine dies owing them, the completion tasks run exactly once, and only when everything handed on has completed. |
| `JobTheorems.FinishedStaysFinished` | services/activities/worker.ts:97-133 | A finished job stays finished at semaphore 0, whatever is still delivered to it. |
| `JobTheorems.SemaphoreReadBeforeReentryIsPositive` | services/activities/worker.ts:105-116 | When a worker event is let in, the semaphore it read before was positive, so the completeness check never drops a live event. |
| `JobTheorems.OverlapClosesTwice` | services/activities/worker.ts:150-187 | Two overlapping leg-2 deliveries both pass the test on any open ledger, and each closing takes one from the semaphore and adds its own children. |
| `JobTheorems.CompletionsAreBounded` | services/activities/activity.ts:432-470 | Completions so far plus the subtree sizes of live activities never exceed the size of the tree; the semaphore never exceeds its number of leaves. |
| `JobTheorems.ReplaceByChildren` | services/activities/activity.ts:94-106 | Replacing an activity by any of its children strictly lowers the total subtree size and does not raise the leaves. |
| `Overlaps.SemaphoreCountsLiveExactly` | services/activities/worker.ts:97-187 | In every run of a graph the semaphore equals the number of live activities and the completion tasks are due at most once, if and only if no activity with a second leg has overlapping leg-2 deliveries. |
| `Overlaps.OverlapMiscounts` | services/activities/worker.ts:150-187 | For any activity of any graph, wherever it stands in the tree, overlapping deliveries have a run in which both close it and the semaphore falls below the live count. |
| `Overlaps.Reaches` | services/activities/activity.ts:432-470 | Every activity of a graph is reached by some run in which it alone is live. |
| `Activities.JobStore.Exec` | services/activities/activity.ts:192-202 | A MULTI applies all queued commands in order and gives one reply each. |
| `Activities.CollatorService.NotarizeEntry` | services/collator/index.ts:13-18 | The hash is stepped in any case; the verdict is that of the number returned. |
| `Activities.CollatorService.NotarizeReentry` | services/collator/index.ts:33-38 | The same for leg 2. |
| `Activities.Activity.FilterAdjacent` | services/activities/activity.ts:432-456 | One message for each chosen child, in order: the i-th names the i-th child and carries the parent's address, a comma and the index of the re-entry. |
| `Activities.ChosenInOrder` | services/activities/activity.ts:432-456 | The chosen children are the targets of exactly the transitions whose rule holds, in their order. |
| `Activities.MessagesCarryAddresses` | services/activities/activity.ts:432-456 | A message's address is the parent's path with the index as one generation more. |
| `Activities.MessagesOfReentriesDiffer` | services/activities/activity.ts:432-456 | The messages that two re-entries of one history publish never carry the same address. |
| `Activities.Activity.Transition` | services/activities/activity.ts:458-470 | Publishes every message or, with none and the semaphore spent, runs the completion tasks. |
| `Activities.Activity.Close` | services/activities/activity.ts:94-112 | What closing leaves: the committed hash, and messages that name exactly the chosen children in order, each at the parent's address with the index, or the completion tasks; a result for the spawning activity exactly when the tasks ran and the job names a parent job and activity. |
| `Activities.Activity.Process` | services/activities/activity.ts:71-126 | The whole effect of leg 1 for every kind of activity and every verdict on the entry; hash, messages and completion are what the steps of `JobRun` lead to. Children are told the address with index 0; a worker or await that was let in sends one request, any other none. |
| `Activities.Activity.ProcessPending` | services/activities/worker.ts:135-148 | A pending reply seeds the children but neither counts nor starts them. |
| `Activities.Activity.ProcessEvent` | services/activities/worker.ts:97-187 | The whole effect of leg 2 for workers, awaits and hooks: refused, dropped as complete, kept open, or closed; again what the steps of `JobRun` lead to. Children are told the address with the index just read; an event that was let in is dropped exactly if it is a worker's and the semaphore it read was 0 or less. |
| `Activities.Activity.ExecActivity` | services/activities/await.ts:76-95 | A worker or await sends one request, naming itself and its address, after its leg-1 MULTI. |
| `Activities.Engine.ExecAdjacentParent` | services/engine/index.ts:368-398 | One result is sent, to the origin, exactly when the origin names a parent job and a parent activity; otherwise none. |
| `Activities.Engine.RunJobCompletionTasks` | services/engine/index.ts:564-577 | The tasks run once more, and send one result exactly when the origin names a parent job and a parent activity. |
| `Spawned.FinishJob` | services/engine/index.ts:368-398 | The engine's object and the model of nested jobs agree on results: running a spawned job's completion tasks sends exactly one, to the very activity that spawned it, and this is the result that lets that activity go on; any other job sends none. |
| `Activities.Trigger.Process` | services/activities/trigger.ts:34-76 | A duplicate job is refused with nothing changed; a new one gets the number of its children as semaphore, their seeds, and a closed trigger ledger in one write; the creation and the start of `JobRun`. One message follows for each chosen child, at the job's address with index 0. |
| `Activities.Trigger.Start` | services/activities/trigger.ts:45-61 | The one write of semaphore, seeds and closed trigger ledger, and the messages or completion that follow it. |
| `Activities.ChosenAreDistinct` | services/activities/activity.ts:438-452 | As many children are counted as are published. |
| `Activities.PlainLegIsTwoSteps` | services/activities/activity.ts:94-112 | Leg 1 of an activity without a hook is the entry and the closing step of the concurrent model, with the same hash, messages and completion. |
| `Activities.ClosingLegIsTwoSteps` | services/activities/worker.ts:150-187 | A closing leg 2 is the re-entry and the closing step. |
| `Activities.WaitingLegIsTwoSteps` | services/activities/worker.ts:33-60 | Leg 1 of a waiting activity is the entry and the holding step. |
| `Activities.PendingLegIsTwoSteps` | services/activities/worker.ts:135-148 | A pending reply is the re-entry and the holding step. |
| `Activities.TriggerIsTwoSteps` | services/activities/trigger.ts:44-57 | The trigger's work is the creation and the start of the job. |
| `Activities.FirstLegLeads` | services/activities/activity.ts:71-126 | A first leg, whatever its verdict and kind, is a way of the concurrent model that ends owing what it began owing: all it published and all tasks it ran are the engine's. |
| `Activities.SecondLegLeads` | services/activities/worker.ts:97-187 | The same for a second leg, a refused or dropped event included. |
| `Activities.TriggerLeads` | services/activities/trigger.ts:34-76 | The same for a trigger. |
| `Nesting.HappeningKeepsInv` | services/engine/index.ts:343-398 | Every step of every job, every request, spawn, refusal, error and loss keeps the invariant that links jobs to the await activities that spawned them. |
| `Nesting.ParentStaysOpen` | services/activities/await.ts:34-95 | In every history an await activity is live and its job's semaphore at least 1 until a result of one of its children, or an error, has been published for it. |
| `NestingExactness.JobsFinishInsideOutExactly` | services/engine/index.ts:343-398 | In all histories, at any depth, while a job is unfinished every enclosing job is unfinished with a positive semaphore, if and only if, for each await activity that can have a child, no refused second leg-1 entry is told of, and its request is processed once or else fixes the child's id and has no refusal told. |
| `NestingExactness.SecondChildIsOvertaken` | services/activities/trigger.ts:162-177 | A history in which one request is processed twice under two ids: the first child's result ends the parent while the second child is unfinished. |
| `NestingExactness.RefusalOvertakes` | services/signaler/stream.ts:136-184 | A history in which one request is processed twice under one id: the refusal, published as an error event, ends the parent while the child is unfinished. |
| `NestingExactness.ComplaintOvertakes` | services/activities/await.ts:34-73 | The same for a transition delivered twice. |
| `Nesting.EnclosingJobsStayOpen` | services/engine/index.ts:343-398 | Under such rules, in every history and for any number of deliveries, every job enclosing an unfinished one is unfinished with a positive semaphore. |
| `Nesting.OneResultPerChild` | services/engine/index.ts:564-577 | Each spawned job, one of several for one request included, publishes exactly one result by the time its completion tasks have run; other jobs publish none. |
| `Streams.StepKeepsDelivery` | services/signaler/stream.ts:124-184 | Every step, including a crash anywhere, keeps: an entry is deleted only when answered; every answer is called for and stands in a stream marked as this entry's; nothing else is in a stream. |
| `Streams.NoMessageIsLost` | services/signaler/stream.ts:124-184 | At every moment of every run a well-formed message is unread, or pending and claimable by every consumer that does not hold it, or its own due retries and responses stand in a stream. |
| `Streams.AckFollowsAnswer` | services/signaler/stream.ts:159-164 | A message is acknowledged only when its own answer stands in a stream. |
| `Streams.SuccessIsPublished` | services/signaler/stream.ts:166-184 | Publishing for a callback that returned a success or an interim answer adds exactly one response: that answer, marked as this entry's. |
| `Streams.AckFollowsOwnPublication` | services/signaler/stream.ts:141-164 | In every run, an acknowledgement of a well-formed message was preceded by the same consumer's publication or expiry, with nothing between; if its callback had returned a success or an interim answer, a response with that answer and this entry as owner is in the engine's stream. |
| `Streams.AnswersAreNotShared` | services/signaler/stream.ts:166-184 | Two answers, of one message or of two, never stand for the same place in a stream. |
| `Streams.StreamsHoldOnlyAnswers` | services/signaler/stream.ts:166-184 | Every response, and every request that is not from outside, is one consumer's answer to one message. |
| `StreamBounds.EntryRunsAreBounded` | services/signaler/stream.ts:279-298 | One entry's callback runs at most reclaimCount + 1 times, plus once for each claim decided on an outdated count. |
| `StreamBounds.RetryLowersLevel` | services/signaler/stream.ts:166-196 | A retry keeps everything but the try count, which it raises by one, using up one level. |
| `StreamBounds.RetryChainEnds` | services/signaler/stream.ts:166-196 | A chain of retries has at most maxRetries + 1 republications when no policy exceeds 3. |
| `StreamBounds.RetriesEndExactly` | services/signaler/stream.ts:186-196 | Retry chains of first requests are bounded if and only if no policy exceeds 3. |
| `StreamBounds.PotentialStep` | services/signaler/stream.ts:124-184 | No step raises the runs made plus the weight of what can still be run, but for a new request's own allowance. |
| `StreamBounds.CallbackRunsAreBounded` | services/signaler/stream.ts:124-343 | However consumers crash, reclaim and retry, the callback runs of a whole run never exceed the sum of its requests' allowances. |
| `StreamBounds.AllowanceOfFirstRequest` | services/signaler/stream.ts:166-196 | One first request with largest policy m is allowed p + p^2 + ... + p^(m+2) callback runs, p being the runs of one entry: the size of a complete tree of retries. |
| `StreamBounds.RunCostIsGeometric` | services/signaler/stream.ts:166-196 | What one run and its retries can cost is the sum of a geometric series. |
| `StreamExactness.CallbackRunsAreBoundedExactly` | services/signaler/stream.ts:124-343 | Over all runs that one request begins, the callback runs have a bound if and only if no policy exceeds 3 and a policy for code 999, if any, is below the request's try count. |
| `StreamExactness.RetriesRunForEver` | services/signaler/stream.ts:186-196 | With a policy of 4 or more there is, for every n, a run with n callback runs. |
| `StreamExactness.ExpiriesRunForEver` | services/signaler/stream.ts:300-343 | So there is with a policy that has expired messages retried, if a consumer keeps dying before its acknowledgement. |
| `Signaler.StreamSignaler.Respond` | services/signaler/stream.ts:166-196 | Nothing only without a result; any result that is no error is responded with as it is; an error without a code throws; a retry is granted exactly when the code has a policy that is at least the lesser of the try count and 4, and is the request with one try more; any other error is responded with, rebuilt with the request's metadata. |
| `Signaler.StreamSignaler.ConsumeOne` | services/signaler/stream.ts:124-164 | The exact new stream after consuming one message, deleted meanwhile or not. A success or interim answer is in the engine's stream when the message is removed; no answer, no response; a callback that threw leaves one retry or one error 500. Left pending if answering throws; discarded unrun if not JSON. |
| `Signaler.StreamSignaler.ExpireUnacknowledged` | services/signaler/stream.ts:300-343 | A message delivered too often is removed, and one retry or one error 999 on its account is in a stream; one that is not JSON stays. |
| `Signaler.StreamSignaler.XPending` | services/signaler/stream.ts:279-282 | The first pending messages, lowest ids first, with their present delivery counts. |
| `Signaler.FirstPendingAre` | services/signaler/stream.ts:279-282 | They are pending, ordered, at most the limit, and nothing pending before the last is missing. |
| `Signaler.StreamSignaler.ExecStreamLeg` | services/signaler/stream.ts:148-157 | The callback's own answer or, if it threw, an error 500 with the request's metadata. |
| `Signaler.StreamSignaler.ReclaimOne` | services/signaler/stream.ts:282-297 | One idle message is claimed and either handed back to be run or expired, by the count read before the claim. |
| `Signaler.StreamSignaler.ClaimUnacknowledged` | services/signaler/stream.ts:279-298 | Every listed message ends as its idleness and count demand; exactly those to be run are returned; others are untouched. |
| `Symbols.SymKeyRoundTrip` | modules/utils.ts:109-118 | A key symbol is three letters from which its number can be read back. |
| `Symbols.SymValRoundTrip` | modules/utils.ts:120-128 | A value symbol is two letters from which its number can be read back. |
| `Symbols.SymKeyInjective` | modules/utils.ts:109-118 | Different numbers have different key symbols. |
| `Symbols.SymValInjective` | modules/utils.ts:120-128 | Different numbers have different value symbols. |
| `Symbols.SymbolsAreSpelled` | modules/utils.ts:109-128 | Which letters a number's symbols have, in which order, and that there are 52^3 and 52^2 of them. |
| `Allocator.BindingFailsExactly` | services/compiler/deployer.ts:74-90 | Binding throws if and only if the paths without a symbol do not fit in what is left of the range or of the alphabet. |
| `Allocator.NewSymbolsName` | services/compiler/deployer.ts:74-90 | Every path ends with a symbol, only the paths that had none get a new one, and the range's end is respected. |
| `Allocator.NewSymbolsAreNumbered` | services/compiler/deployer.ts:74-90 | New symbols are numbered without gap from where the count starts, all different. |
| `Allocator.SeedsAre` | services/store/index.ts:245-268 | Seeded metadata take the first numbers of the range, all different. |
| `Allocator.SeedsName` | services/store/index.ts:252-268 | The seeds name each metadata path under its own number, and nothing else. |
| `Allocator.SeedsFailExactly` | services/store/index.ts:245-268 | Seeding throws if and only if the numbers of its keys reach the end of the alphabet. |
| `Allocator.FirstDeployNamesMetadata` | services/store/index.ts:196-207 | After a first deployment that succeeds every metadata path of the target has a symbol. |
| `Allocator.MetadataAreNamed` | services/store/index.ts:196-221 | In every sequence of deployments they have one from the target's first deployment on, even where that threw, if the range begins low enough. |
| `Allocator.LaterTableOk` | services/store/index.ts:208-219 | Restarting behind slots plus the number of all symbols, metadata counted again, passes every symbol in use. |
| `Allocator.FirstTableOk` | services/store/index.ts:196-207 | A first deployment's symbols and the seeds merge soundly even where their paths overlap. |
| `Allocator.FirstDeployRenames` | services/store/index.ts:200-207 | A path in a target's first deployment, a seeded metadata path included, ends with a number behind the metadata slots. |
| `Allocator.DeployKeeps` | services/compiler/deployer.ts:49-72 | One target's deployment, succeeding or throwing at any point, keeps ranges apart and symbols unique, and changes no earlier symbol. |
| `Allocator.RangesAreDisjoint` | services/store/index.ts:196-221 | After any sequence of deployments the ranges of different targets never meet. |
| `Allocator.NoRangeSpills` | services/store/index.ts:196-221 | No symbol lies outside its target's range. |
| `Allocator.SymbolsAreUnique` | services/store/index.ts:196-221 | After any sequence of deployments no two paths of the app share a symbol. |
| `Allocator.SymbolsNeverChange` | services/compiler/deployer.ts:49-90 | Once deployed, a path's symbol is never changed by a later deployment. |
| `Allocator.LaterDeployFailsExactly` | services/compiler/deployer.ts:74-90 | A later deployment of a target fails if and only if its new paths do not fit behind those it has. |
| `Allocator.DeployedPathsHaveSymbols` | services/compiler/deployer.ts:49-72 | After a successful deployment each of its paths has a symbol. |
| `Deployer.StoreService.SeedSymbols` | services/store/index.ts:245-268 | The loop gives each metadata path, spelled out, the symbol of its own number and nothing else; it throws exactly when the numbers run out. |
| `Deployer.StoreService.ReserveSymbolRange` | services/store/index.ts:196-221 | First time: the cursor moves by 286, the range begins where it was, the stored table gives every metadata path its symbol, and counting starts behind 26 slots with no symbols known. Later: nothing stored changes and counting goes on behind the slots and all symbols stored. |
| `Deployer.StoreService.AddSymbols` | services/store/index.ts:236-243 | The new symbols are merged into the target's table; nothing happens without any. |
| `Deployer.Compiler.BindSymbols` | services/compiler/deployer.ts:74-90 | The binding loop computes the new symbols of the specification or throws with it. |
| `Deployer.Compiler.GenerateGraph` | services/compiler/deployer.ts:52-71 | The trigger's target first, then each activity's, up to the first that throws. |
| `Deployer.Compiler.GenerateSymKeys` | services/compiler/deployer.ts:49-72 | A whole version's deployment, wherever it fails, keeps the tables sound and extends them. If it reaches its end, every path its graphs bind has a symbol, in the topic's or the activity's own table, and so have all metadata of jobs and activities that are new. |
| `Deployer.DeployAllKeeps` | services/compiler/deployer.ts:49-72 | The same for any list of targets. |
| `Deployer.DeployAllNames` | services/compiler/deployer.ts:49-72 | Any list of targets that is deployed to its end leaves each of their paths with a symbol. |
| `Deployer.DeployAllSeeds` | services/store/index.ts:196-207 | And each metadata path of every target that was new. |
| `Values.TagRoundTrip` | services/serializer/index.ts:177-221 | Tagging and untagging gives a value back exactly unless it is a string that looks tagged. |
| `Values.FieldRoundTrip` | services/serializer/index.ts:144-221 | Storing a value and reading it back gives the value if and only if it is no empty string and no string that looks tagged, for any table of 2-letter symbols. |
| `Values.RestoreAbbreviated` | services/serializer/index.ts:144-175 | Abbreviating and restoring a text, 2-letter strings behind any number of colons included. |
| `Values.ExtendedKeeps` | services/serializer/index.ts:68-84 | Adding values keeps the table on exactly the first symbols, injective, unchanged where it was, and complete or full. |
| `Values.FilterExtends` | services/serializer/index.ts:68-84 | The symbols that filtering returns, merged into the table, are exactly that extension. |
| `Values.BuiltTablesAreSound` | services/compiler/deployer.ts:195-205 | Every table built by any sequence of deployments uses exactly the first n symbols, each for another value, and never moves one. |
| `Compression.PassedIs` | services/serializer/index.ts:86-112 | A list of maps leaves a name alone or turns it into its symbol in one of them. |
| `Compression.NameRoundTripExactly` | services/serializer/index.ts:86-141 | A name survives shortening and restoring if and only if it is not spelled like one of the symbols. |
| `Compression.VisitKeeps` | services/serializer/index.ts:92-104 | One turn of the in-place loop, on a field of the document or on a name it put in itself, keeps the pass half done as it should be. |
| `Compression.CompressPassOk` | services/serializer/index.ts:105-111 | Each pass of a compression confuses no two fields and finds its own results settled. |
| `Compression.DecompressPassOk` | services/serializer/index.ts:133-139 | Each pass of a decompression likewise. |
| `Compression.DocumentRoundTrip` | services/serializer/index.ts:86-141 | Restoring a shortened document gives the document. |
| `Serializer.SerializerService.ReverseMap` | services/serializer/index.ts:48-66 | The reversed map names, for each symbol, a path that has it. |
| `Serializer.SerializerService.ResetSymbols` | services/serializer/index.ts:38-46 | New maps and tables, and no reversed map left of the old ones. |
| `Serializer.SerializerService.GetReverseKeyMap` | services/serializer/index.ts:48-58 | The cached or freshly built reverse of a map. |
| `Serializer.SerializerService.RenamePass` | services/serializer/index.ts:92-104 | The in-place loop renames every field, whatever order the keys come in and whether or not inserted keys are visited. |
| `Serializer.SerializerService.Compress` | services/serializer/index.ts:86-112 | Every name of the document shortened by the maps selected; ids without a map are skipped; no maps, no change. |
| `Serializer.SerializerService.Decompress` | services/serializer/index.ts:114-141 | Gives back any document that was shortened to this one by some of the same maps. |
| `Serializer.CompressThenDecompress` | services/serializer/index.ts:86-141 | The two together are the identity for documents whose keys and values are no symbols. |
| `Serializer.SerializerService.Stringify` | services/serializer/index.ts:144-158 | Each field holds its value's text, every kind spelled out: behind a colon if it looks like a symbol, as its symbol if the table has it, else as it is; undefined and empty strings are left out. |
| `Serializer.SerializerService.Parse` | services/serializer/index.ts:161-175 | Each field is restored from its text. |
| `Serializer.ParseUndoesStringify` | services/serializer/index.ts:144-221 | Field by field, parsing what was stringified gives the value back if and only if it is storable. |
| `Serializer.SerializerService.FilterSymVals` | services/serializer/index.ts:68-84 | The loop computes the symbols of the specification, stopping when they run out. |
| `Serializer.SerializerService.Package` | services/serializer/index.ts:223-226 | Stringified, then shortened. |
| `Serializer.SerializerService.Unpackage` | services/serializer/index.ts:228-231 | Restored, then parsed. |
| `JobState.AllocatedTablesAreSound` | services/store/index.ts:290-301 | What deployments allocate meets the assumptions of the state operations, if no path looks like a symbol. |
| `Coherence.DeployedTablesServeJobs` | services/compiler/deployer.ts:49-72 | After any sequence of deployments of manifests whose activity ids hold no slash, the tables meet all that the state operations assume, for every job's set of names. |
| `Coherence.GraphItemsFit` | services/compiler/deployer.ts:52-71 | The targets and paths that such a graph binds are of that form. |
| `Coherence.LedgersAreNamedExactly` | services/store/index.ts:511-523 | In every sequence of deployments, failed ones included, an activity's ledger path has a symbol, which `StateStore.JobStateStore.Collate` asks for, if and only if its range begins at least 10 below the end of the alphabet. |
| `Coherence.DeployedLedgersAreNamed` | services/compiler/deployer.ts:49-72 | The ledger of every new activity of a version deployed to its end has a symbol. |
| `JobState.FieldOfPath` | services/activities/activity.ts:285-302 | Whoever of the job's writers or readers names a path's symbol set, the path is stored under one and the same field. |
| `JobState.WriteRepresents` | services/store/index.ts:451-466 | After HSET of a packaged document the hash represents the old plain map overwritten by the fields written. |
| `JobState.FetchIsShortened` | services/store/index.ts:468-496 | What HMGET returns is the stored texts under their symbols, and the status. |
| `StateStore.JobStateStore.SetState` | services/store/index.ts:451-466 | Afterwards each path written with a value, but for `metadata/js`, has that value, every other path what it had; the status is set or kept. |
| `StateStore.JobStateStore.FieldsOf` | services/store/index.ts:474-486 | The fields fetched: the status, and each consumed path's symbol or, without one, the path. |
| `StateStore.JobStateStore.GetState` | services/store/index.ts:468-509 | Every consumed path reads as the plain map has it, the status is the hash's, and `metadata/js` repeats it; not found only without a status. |
| `StateStore.JobStateStore.SetStateNX` | services/store/index.ts:525-529 | A job is created once, with status 1. |
| `StateStore.JobStateStore.SetStatus` | services/store/index.ts:440-443 | The semaphore is stepped and returned, the plain map untouched. |
| `StateStore.JobStateStore.Collate` | services/store/index.ts:511-523 | The increment hits the very field under which the ledger's path is written and read, and the plain map then holds the sum. |
| `StateStore.ReadAfterWrites` | services/store/index.ts:451-509 | For any sequence of writes followed by a read that names the writers' symbol sets, each consumed path has the value of the last write that set it, and is undefined if none did. |
| `StateStore.LastSetIsRead` | services/store/index.ts:451-509 | The plain map of any writes holds, for each path, the value of the last write that set it. |
| `Hierarchy.InsertRepresents` | modules/utils.ts:154-170 | Adding a key to the tree of a prefix-free hash gives the tree of the hash with the key; nothing is ever in the way. |
| `Hierarchy.RepresentedOnce` | modules/utils.ts:154-170 | A hash has at most one tree. |
| `Hierarchy.RestoreHierarchy` | modules/utils.ts:154-170 | Built in any key order, the result is the tree of the hash. |
| `Hierarchy.GetValueByPath` | modules/utils.ts:141-152 | The walking loop throws if and only if null lies on the way, before the path's end; otherwise it finds what the path leads to, or nothing. |
| `Hierarchy.LookupGivesFlatValue` | modules/utils.ts:141-170 | Looking up any key in the rebuilt tree gives the flat hash's value. |
| `Hierarchy.LookupThrowsExactly` | modules/utils.ts:141-170 | Looking a path up in the rebuilt tree throws if and only if the flat hash has null at a key that is a proper beginning of the path. |
| `Hierarchy.GetUnrepresented` | modules/utils.ts:141-152 | A path that no key begins with or goes on from leads nowhere. |
| `Hierarchy.OrderDoesNotMatter` | modules/utils.ts:154-170 | Two key orders build the same tree. |
| `Hierarchy.OverlappingKeysDependOnOrder` | modules/utils.ts:154-170 | Two concrete keys, one the beginning of the other, for which the order decides. |
| `Hierarchy.FalsyGivesWay` | modules/utils.ts:154-170 | Where a key goes on below a plain value, the value gives way exactly if JavaScript takes it for false; any other stops the loop. |
| `TimeHooks.SlotIsJustBefore` | services/task/index.ts:52-56 | The slot is the one multiple of 15 s at most, and less than 15 s before, the time asked for. |
| `TimeHooks.EventRoundTrip` | services/store/index.ts:726-747 | The activity and job ids survive the `::` encoding, for any job id, if and only if the activity id neither holds `::` nor ends in a colon. |
| `TimeHooks.StoreService.RegisterTimeHook` | services/store/index.ts:726-734 | The event joins the end of its slot's list, and no list that holds something is missing from the sorted set. |
| `TimeHooks.StoreService.ZRangeByScore` | services/store/index.ts:150-156 | The earliest list that is due. |
| `TimeHooks.StoreService.GetNextTimeJob` | services/store/index.ts:736-749 | Hands out the first event of the list given or of the earliest due one; registered = handed out ++ waiting is kept for every slot by any caller. |
| `TimeHooks.TaskService.RegisterTimeHook` | services/task/index.ts:52-56 | The hook is registered for its slot. |
| `TimeHooks.TaskService.ProcessTimeHooks` | services/task/index.ts:58-76 | Everything due is handed out and the hook called for it exactly once, slots in order, registration order within a slot, nothing before its slot. |
| `TimeHooks.CallsAreTheHooksRegistered` | services/task/index.ts:58-76 | If activity ids are free of the separator, these calls are for exactly the (job, activity) pairs registered, in order. |
| `TimeHooks.RegisteredDecodes` | services/store/index.ts:726-747 | A slot's list decodes to the pairs registered for it. |
| `WorkQueues.WorkItemRoundTrip` | services/task/index.ts:28-30 | A work item's key is read back as it was put together if and only if topic and list key are free of the separator. |
| `WorkQueues.MovedNext` | services/store/index.ts:715-717 | One LMOVE keeps processed ++ remaining equal to the original list. |
| `WorkQueues.RenamedBack` | services/store/index.ts:706-713 | The final RENAME restores the lists. |
| `WorkQueues.TaskStore.GetActiveTaskQueue` | services/store/index.ts:693-704 | The cached work item or, with none cached, a member whose time no other member's is below. |
| `WorkQueues.TaskStore.AddTaskQueues` | services/store/index.ts:684-691 | Of any two members the earlier one in the set has the lower time or, within one millisecond, the name that is a prefix or has the lower byte where they first differ; none twice, and earlier ones keep their time. |
| `WorkQueues.InsertKeepsOrder` | services/store/index.ts:684-691 | Inserting a member adds exactly that member and keeps the set in that order. |
| `WorkQueues.RemovalKeepsOrder` | services/store/index.ts:706-713 | So does removing one. |
| `WorkQueues.OrderedSays` | services/store/index.ts:684-704 | What the order of the sorted set means, in times and bytes of names. |
| `WorkQueues.TaskStore.ProcessTaskQueue` | services/store/index.ts:715-717 | The first id moves to the end of the processed list. |
| `WorkQueues.TaskStore.DeleteProcessedTaskQueue` | services/store/index.ts:706-713 | The item goes, the others stay in the order of their times, and the list is put back; without a processed list it fails with the item gone and the cache kept. |
| `WorkQueues.TaskService.ProcessWebHooks` | services/task/index.ts:25-40 | The whole effect of one turn in every case. |
| `WorkQueues.TaskService.Drain` | services/task/index.ts:25-40 | Up to the first empty list, the hook is called once per id, in order; every list ends as it was, the items done are gone. |
| `WorkQueues.CallsInOrder` | services/task/index.ts:25-40 | The calls of several items: the j-th id of the i-th item, with that item's topic and data, follows all ids of the items before it. |
| `Graphs.ChainIsTheWay` | services/collator/index.ts:155-175 | The ancestor list is the one and only way from a trigger to an activity. |
| `Graphs.ChainIsAWay` | services/collator/index.ts:155-175 | It is such a way. |
| `Graphs.Manifest.Dfs` | services/collator/index.ts:164-171 | The traversal ends and gives every activity below a node its ancestors, leaving others alone. |
| `Graphs.Manifest.BindAncestorArray` | services/collator/index.ts:155-175 | Every activity of the forest gets its ancestors. |
| `Graphs.Manifest.BindParents` | services/compiler/deployer.ts:149-163 | Every activity gets its one parent. |
| `Graphs.DeployTransitions` | services/compiler/deployer.ts:351-380 | One entry, behind a dot, for each activity that has transitions, holding exactly its targets. |
| `Graphs.FindTopKey` | modules/utils.ts:57-65 | Climbing ends, at the first of the ancestors; triggers and strangers have none. |
| `Graphs.DerivationsAgree` | modules/utils.ts:57-65 | The last ancestor is the parent; the first, which `Graphs.FindTopKey` is proved to return as the end of the climb, is a trigger. |
| `Versions.AnswersAreCurrent` | services/engine/index.ts:190-207 | From handling the activation of v, while nothing but v is written or announced to it, every answer of an engine is the version stored at that time. |
| `Versions.StoredIsWritten` | services/store/index.ts:323-356 | That version is v if v was stored when the message came or has been written since. |
| `Versions.ActivatableExactly` | services/store/index.ts:323-356 | In every run, a version can be activated if and only if it has been deployed. |
| `Versions.EnginesAgree` | services/engine/index.ts:190-213 | Any two engines that have handled the activation give the same answer, v. |
| `Versions.ReturnsToCacheOnlyOnReading` | services/engine/index.ts:190-200 | An engine returns to its copy only in an answer that read the version it was told to wait for. |
| `Versions.DeploymentLeavesCopiesStale` | services/store/index.ts:323-335 | Without the message a copy goes on answering the old version after a deployment. |
| `Quorum.EngineService.GetVID` | services/engine/index.ts:190-207 | An engine that does not cache answers the stored version, and caches again exactly when that is the one it waits for; one that caches answers its copy; one without a copy answers the version given and keeps it. All this is the step of the step relation. |
| `Quorum.QuorumService.Handle` | services/quorum/index.ts:104-126 | An activation sets the engine; only answers to this engine's own roll call count. |
| `Quorum.QuorumService.RequestQuorum` | services/quorum/index.ts:136-146 | Returns the answers to the roll call before and counts those of this one. |
| `Quorum.QuorumService.Activate` | services/quorum/index.ts:167-198 | The version is announced if and only if three successive roll calls had the same, non-zero number of answers, and written only if the engine was then told to wait for it and the version exists. |
| `Quorum.StoreService.ActivateAppVersion` | services/store/index.ts:337-356 | Only a deployed version can be activated, and then it is the activation step of the step relation. |
| `Quorum.StoreService.SetApp` | services/store/index.ts:323-335 | The version given is the stored one and can be activated from then on, other versions stay as they were; it is the deployment step, whatever the engines hold. |

## Left out

- JobTheorems.SemaphoreCountsLive: for runs in which two leg-2 deliveries of one activity do not overlap, which the code does not prevent; `Overlaps.SemaphoreCountsLiveExactly` shows that it holds only for those.
- JobTheorems.CompletionsAreBounded: bounds completions, not pending replies, of which a worker may send any number.
- Activities.Activity.Process: mapping, telemetry and the registration of hooks are left out; a rule of a transition appears as whether it holds.
- Activities.Activity.ProcessEvent: an event that throws is re-published by the signaler as an error event; this is followed for await activities, in `Nesting`, and otherwise a refusal is stated at the gate.
- Nesting.EnclosingJobsStayOpen: for await activities whose messages the rules call safe; a trigger that throws after it has created its job, for another reason than a duplicate, is not followed.
- Hook events carry no dimensional address, so the addresses of a hook's children are stated for activities that know their own.
- Signaler.StreamSignaler.ConsumeOne: the endless loop around it with its sleep and graduated restarts is not modelled; a failing command appears as the consumer's crash.
- StreamBounds.CallbackRunsAreBounded: for requests with modest policies; for any other request `StreamExactness.CallbackRunsAreBoundedExactly` shows that there is no bound.
- Streams.NoMessageIsLost: for messages added once the consumer group exists; the group is created at `$`, so one added before is never read.
- Allocator.DeployKeeps: takes the reservation of a range as one step, without the moment at which the range still reads `?:?`; a target named `:cursor` is not considered.
- StateStore.JobStateStore.GetState: fields that the hash does not have are left out of the document at once, not carried through as null; store-side caches of symbols are not modelled.
- StateStore.ReadAfterWrites: for values that survive storage, and manifests whose activity ids hold no slash and are not `data` or `metadata` (`Coherence.DeployedTablesServeJobs`).
- Hierarchy.RestoreHierarchy: builds the tree as a value; sharing between its objects and keys that go on below a stored JSON object are not captured.
- Hierarchy.GetValueByPath: names that JavaScript values have by themselves, like `length` of a string or `constructor` of an object, are not considered.
- Graphs.FindTopKey: for apps without private subscriptions and ids that do not begin with a dot.
- TimeHooks.StoreService.GetNextTimeJob: one step, without the gap between LPOP and ZREM.
- TimeHooks.TaskService.ProcessTimeHooks: one pass at a fixed time; the source sleeps between lists and goes on for ever.
- WorkQueues.TaskService.Drain: one engine, no ids pushed meanwhile, no empty id, and the processed list's place free.
- Versions.AnswersAreCurrent: a store read and its answer are one step; an app without any version is not considered.
- Redis clients, connections, subscriptions, logging, telemetry, YAML and file loading: input and output.
- Pipe functions, mapping rules, hook conditions, the validator, reports and statistics, and the durable wrapper: they compute on one value at a time and take no part in coordinating engines.
- JSON encoding, dates and fractions: values are kept apart by their text only.
