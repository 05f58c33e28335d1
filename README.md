# Scheduling bookkeeping of the task master

This project models the master of a small distributed task runner. The master
keeps a collection of tasks in a document store. Each document has a name, a
sleep time, a state (`created`, `running`, `killed` or `success`) and, once
dispatched, the address of the worker running it. In memory it keeps:

- a registry of the workers it knows, keyed by address;
- a queue of tasks waiting for a worker;
- a queue of workers ready for a task;
- a `done` flag.

Workers announce themselves with `connect` and report finished tasks with
`complete`. A health loop probes every known worker, declares the silent ones
dead and requeues what they were running. A dispatch loop pairs the next
waiting task with the next ready worker.

The model is layered as follows:

- `TaskStates` is the task-state enumeration and its string encoding.
- `TaskStore` is the task collection as a sequence of documents. It models the
  three filters the master uses and the update and find-and-update calls.
  Each update acts on the first matching document in collection order.
- `Scheduling` is the master's state as a value (`MasterState`). Each handler,
  each pass of the health loop and each step of the dispatch loop is a
  function from state to state. The state also records where the dispatch
  thread stands: at the top of its loop, blocked on the task queue, or blocked
  on the ready queue while holding a task. So a step that blocks can be
  resumed by the next one.
- `RecoveryFacts`, `HandlerFacts`, `HealthFacts` and `DispatchFacts` hold what
  the master promises about each of those functions.
- `Master.Server` is the server object itself. Its fields are updated in place
  by methods with loops. Each method is proved to move the object's state
  exactly as the matching `Scheduling` function does, so the lemmas about the
  functions hold of the object.
- `Scenarios` are concrete runs: a task's round trip, a worker reconnecting,
  a held task going to the next worker to connect, and the two runs where the
  code does something other than what it evidently intends.

A registry entry is a `Slave(remoteAddr, handle)`. The handle is the number
of entries built before it, because `create_slave` builds a new entry object
on each call. This keeps an old entry, still waiting in the ready queue,
distinguishable from the one that replaced it.

### Where the code departs from its evident intent

The model follows the code.

- **A successful task can be set back to running.** A task is meant never to
  leave `success` once it is stored there. But `send_task` sets `running` on
  whatever document carries the task's name. Suppose a worker's task is
  requeued after a failed probe, and the worker then reports the task
  complete. The requeued copy is still dispatched, and the document goes from
  `success` back to `running`. `Scenarios.SuccessOverwrittenByStaleCopy`
  exhibits this run.
- **One address can be dispatched to twice.** At most one entry per address
  is meant to be a dispatch target. But `connect` leaves a
  reconnecting worker's old entry in the ready queue. After two quick
  connects from `w`, both entries for `w` can be handed out.
  `Scenarios.ReconnectKeepsStaleEntry` exhibits this run.
- **Unknown states are skipped, not refused.** A stored state string that is
  not one of the four is not rejected at load time. The code logs it and skips
  the document, and so does `Scheduling.RecoveryStep`.

## Model

| member | source | states |
|---|---|---|
| TaskStates.Decode | master/master.py:22-26 | A decoded string is exactly the encoding of the state it decodes to; a string that decodes to nothing is the encoding of no state |
| TaskStates.DecodeEncode | master/master.py:22-26 | Decoding the stored value of a state gives that state back |
| TaskStates.EncodeInjective | master/master.py:22-26 | Two states have the same stored value if and only if they are the same state |
| TaskStore.FirstMatch | master/master.py:108-111 | The document an update acts on matches the filter and no earlier document does; no match means no document matches |
| TaskStore.Find | master/master.py:153 | A query returns only matching documents, and every matching document is among them |
| TaskStore.FindEmpty | master/master.py:153-156 | The unfinished-task query is empty if and only if no document matches it |
| TaskStore.UpdateOneTouchesFirstMatchOnly | master/master.py:108-111 | An update changes at most the first matching document, setting only the named fields; nothing changes when nothing matches |
| TaskStore.FindOneAndUpdatePreImage | master/master.py:141-143 | Find-and-update returns nothing exactly when no document matches, and then leaves the collection alone. Otherwise it returns the first matching document as it was before the update, and the updated form sits in that document's place |
| RecoveryFacts.NeedsRunDecoded | master/master.py:69-72 | A document is requeued exactly when its state decodes to created or killed, and is tracked as running exactly when it decodes to running |
| RecoveryFacts.RecoverFromKeeps | master/master.py:66-80 | The startup loop never writes the store and leaves the ready queue and the done flag alone |
| RecoveryFacts.RecoverFromQueue | master/master.py:66-71 | The startup loop appends to the waiting queue exactly the documents needing a run, in collection order |
| RecoveryFacts.PendingExactlyOnce | master/master.py:66-71 | Each created or killed document is queued as many times as it occurs in the collection, and no other document is queued |
| RecoveryFacts.PendingOnlyNeedsRun | master/master.py:69-78 | Nothing queued at startup is running or already successful |
| RecoveryFacts.RecoveryStepRegistry | master/master.py:72-76 | One startup step registers the host of a running document once, leaves existing entries untouched and keeps the registry well formed |
| RecoveryFacts.RecoverFromKeepsEntries | master/master.py:72-76 | Entries already in the registry survive the startup loop unchanged, and the registry stays well formed |
| RecoveryFacts.RecoverFromHosts | master/master.py:72-76 | After the startup loop the registry's addresses are the earlier ones plus the hosts of running documents |
| RecoveryFacts.RecoverFromCountsHosts | master/master.py:75-76 | An entry is built only for a host not yet known, so the registry grows by exactly the number of entries built |
| RecoveryFacts.RunningHostsMembers | master/master.py:72-76 | An address is a running host if and only if some running document names it as its host |
| RecoveryFacts.RecoveryCorrect | master/master.py:55-80 | A freshly started master is well formed. Its store is the collection and its ready queue is empty. It is not done. Its waiting queue is the documents needing a run. Its registry holds exactly the hosts of running documents, one entry each |
| HandlerFacts.AssumeDeadEffect | master/master.py:135-150 | At most one running task of the address becomes killed, keeping its host. One is chosen if any exists. A killed copy is requeued if and only if one was found and the address was registered. The address leaves the registry and no other entry changes |
| HandlerFacts.AssumeDeadValid | master/master.py:135-150 | Declaring a worker dead keeps the master well formed |
| HandlerFacts.AssumeDeadKeepsSuccess | master/master.py:137-143 | Declaring a worker dead never changes a successful task |
| HandlerFacts.ConnectEffect | master/master.py:95-103 | A connect registers a new entry for the address, different from every entry already waiting, and appends it to the ready queue. A known address is first declared dead, which then cannot fail |
| HandlerFacts.ConnectKeepsSuccess | master/master.py:95-103 | A connect never changes a successful task |
| HandlerFacts.CompleteTaskEffect | master/master.py:105-118 | The first document with the reported name becomes successful and nothing else in the store changes. An unknown reporter is registered. The reporter's entry joins the ready queue and the waiting queue is unchanged |
| HandlerFacts.CompleteTaskKeepsSuccess | master/master.py:105-111 | A completion never turns a successful task into anything else |
| HandlerFacts.SendTaskEffect | master/master.py:120-130 | A send that raises changes nothing. A delivered send marks the first document with the task's name as running on the worker's address, and changes nothing else |
| HandlerFacts.CheckIfDoneEffect | master/master.py:152-156 | The done flag becomes set exactly when every task is successful (once set it stays set), and nothing else changes |
| HealthFacts.FailedAddrsMembers | master/master.py:161-164 | An address is declared dead in a pass if and only if its probe in the snapshot failed |
| HealthFacts.ProbeNeverRaises | master/master.py:161-164 | Declaring a worker dead inside a pass over a snapshot of the registry never hits a missing registry entry |
| HealthFacts.ProbeRegistry | master/master.py:161-164 | After a pass the registry is the earlier one minus the workers whose probe failed |
| HealthFacts.ProbeValid | master/master.py:161-164 | A pass keeps the master well formed |
| HealthFacts.ProbeTasks | master/master.py:161-164 | The only documents a pass changes are running tasks of failed workers, each set to killed |
| HealthFacts.ProbeKillsOnePerWorker | master/master.py:161-164 | No two documents a pass changes belong to the same worker |
| HealthFacts.ProbeKillsInStore | master/master.py:161-164 | Every failed worker that was running a task has one of its running documents set to killed in the store |
| HealthFacts.ProbeQueue | master/master.py:161-164 | A pass only appends to the waiting queue, and what it appends are killed tasks of failed workers |
| HealthFacts.ProbeReclaimedAt | master/master.py:161-164 | Each task a pass appends is the killed form of a document that was running on a failed worker, and the store now holds that killed form in the document's place |
| HealthFacts.ProbeAppendsReclaimed | master/master.py:161-164 | Every task a pass appends is reclaimed in that way |
| HealthFacts.ProbeAppendsDistinct | master/master.py:161-164 | No two tasks a pass appends belong to the same worker |
| HealthFacts.ProbeReclaims | master/master.py:161-164 | Every failed worker that was running a task gets a killed task of its own appended to the waiting queue |
| HealthFacts.ProbeCount | master/master.py:161-164 | A pass appends exactly as many tasks as there are failed workers that were running a task |
| HealthFacts.HealthPassEffect | master/master.py:158-167 | A stopped master is left alone. Otherwise the pass drops the failed workers. For each failed worker that was running a task, exactly one of its running documents is set to killed in the store and exactly one killed task is requeued, taken from a document it killed. No other document changes. Done is then set exactly when every task is successful |
| DispatchFacts.DeliverEffect | master/master.py:173-179 | With enough ready workers, the task goes to the first one whose send does not raise, every worker taken before it is consumed, and the thread returns to the top of its loop. Otherwise the loop drains the ready queue and blocks holding the task, with the store unchanged |
| DispatchFacts.DeliverDispatched | master/master.py:173-179 | The retry loop keeps the registry and done unchanged. With enough ready workers, the store records exactly that the task runs on the worker that got it, and nothing else in the store changes |
| DispatchFacts.DeliverValid | master/master.py:173-179 | The retry loop keeps the master well formed |
| DispatchFacts.RunTasksEffect | master/master.py:169-179 | At the top of the loop, a done master stops with nothing changed. A thread taking a task from an empty waiting queue blocks there with nothing else changed. A thread taking a task from a non-empty queue removes the front task and dispatches it. A thread that was blocked holding a task dispatches that task and leaves the waiting queue alone. Dispatching marks the task running on the first worker whose send succeeds, changing no other document, or blocks holding the task |
| Scenarios.StartedState | master/master.py:66-103 | A master started on one created task, with worker `w` connected, has that task queued and `w`'s first entry ready |
| Scenarios.DispatchedState | master/master.py:169-179 | Dispatching in that state marks the task running on `w` and empties both queues |
| Scenarios.RoundTrip | master/master.py:105-118 | After `w` reports the task complete, the next health pass sets done |
| Scenarios.Reconnect | master/master.py:95-103 | When `w` reconnects while running the task, the task is killed and requeued and `w` gets a new entry that becomes ready |
| Scenarios.ReconnectKeepsStaleEntry | master/master.py:95-103 | A second connect from `w` leaves both its old and its new entry in the ready queue |
| Scenarios.HeldTaskGoesToNextWorker | master/master.py:169-179 | With no worker connected, the dispatcher takes the task and blocks holding it. After `w` connects, the next step sends that same task to `w` |
| Scenarios.SuccessOverwrittenByStaleCopy | master/master.py:120-130 | A requeued copy of a task that has since succeeded is dispatched again, and the document leaves the success state |
| Master.Server.constructor | master/master.py:55-80 | The startup loop leaves the object in exactly the recovered state (see `RecoveryFacts.RecoveryCorrect`) |
| Master.Server.CreateSlave | master/master.py:85-89 | Registers a new entry under the address, replacing any earlier one, and keeps the object well formed |
| Master.Server.Connect | master/master.py:95-103 | Updates the object as `Scheduling.Connect` does and keeps it well formed |
| Master.Server.CompleteTask | master/master.py:105-118 | Updates the object as `Scheduling.CompleteTask` does and keeps it well formed |
| Master.Server.SendTask | master/master.py:120-130 | Updates the store as `Scheduling.SendTask` does and keeps the object well formed |
| Master.Server.GetAvailableSlave | master/master.py:132-133 | Takes the front of the ready queue, or reports that it would block, and keeps the object well formed |
| Master.Server.AssumeDead | master/master.py:135-150 | Updates the object as `Scheduling.AssumeDead` does, and reports the missing-entry failure exactly when `Scheduling.AssumeDeadRaises` holds |
| Master.Server.CheckIfDone | master/master.py:152-156 | Sets done exactly as `Scheduling.CheckIfDone` does and keeps the object well formed |
| Master.Server.HealthLoopPass | master/master.py:158-167 | One pass of the health loop over a snapshot of the registry yields `Scheduling.HealthPass` and keeps the object well formed |
| Master.Server.RunTasksIteration | master/master.py:169-179 | One step of the dispatch thread, resumed where it stands and retrying failed sends, yields `Scheduling.RunTasks` and keeps the object well formed |

## Left out

- The HTTP layer is not modelled: Flask routing, `setup_server` and the `ClientApi` requests. A probe's answer is the `alive` parameter. A send's outcome is the `delivered` parameter, or in the dispatch loop the number of sends that raise before one succeeds.
- Connecting to the document store is not modelled. The collection is a sequence of documents, and the store's `_id` field is not modelled.
- When several documents match a filter, the store may update any of them. The model always updates the first in collection order.
- Threads, `time.sleep` and `Server.run` are not modelled. Each handler, each health pass and each dispatch step is one atomic step. Any interleaving of those steps can be built by composing the functions.
- A blocking `get` is modelled as the end of a dispatch step. The step reports `NoTask` or `WaitingForWorker`, and the state records where the thread is blocked. The next step resumes from there.
- The health loop and the dispatch loop are modelled one iteration at a time. Termination of the `while not self.done` loops is not modelled.
- The order in which the registry dict is iterated is the `snapshot` parameter. It is required to list the registry.
- The command-line check, logging, and the sleep time a task carries are not modelled. The sleep time is carried through unchanged.
- slave/slave.py, run_stress.py and mongo/task_setup.py are not part of this model.
- Master.Server.constructor: a running document without a host makes the startup loop fail with a missing-key error. The model requires every running document to record its host instead of modelling that failure.
- HealthFacts.ProbeQueue: states which tasks the pass appends, but not the order of the appended tasks, which follows the snapshot.
- HealthFacts.HealthPassEffect: states which tasks are requeued and how many, but not their order in the queue, which follows the snapshot.
