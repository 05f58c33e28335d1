/**
 * The master's scheduling bookkeeping as a state machine over values: the
 * task store, the worker registry (`slaves`), the queue of pending tasks
 * (`queued_tasks`), the queue of idle workers (`idle_slaves`) and the `done`
 * flag. Each function is one handler or one loop iteration of `Server`; the
 * lemmas state what master/master.py promises about them.
 */
module Scheduling {
  import opened Wrappers
  import opened TaskStates
  import opened TaskStore

  /**
   * A registry entry built by `create_slave`. Every call builds a new entry, so
   * an entry left in the idle queue from an earlier registration is a different
   * entry from the current one for the same address; `handle` tells them apart.
   */
  datatype Slave = Slave(remoteAddr: string, handle: nat)

  /**
   * Where the `run_tasks` thread stands between two of its steps: at the top
   * of its outer loop, blocked in `queued_tasks.get()`, or blocked in
   * `get_available_slave()` while holding the task it took.
   */
  datatype Dispatcher = AtLoopHead | AwaitingTask | AwaitingWorker(task: Task)

  /**
   * Everything `Server` keeps, plus the position of the `run_tasks` thread;
   * `nextHandle` numbers the entries `create_slave` builds.
   */
  datatype MasterState = MasterState(
    tasks: seq<Task>,
    slaves: map<string, Slave>,
    queued: seq<Task>,
    idle: seq<Slave>,
    done: bool,
    nextHandle: nat,
    dispatcher: Dispatcher)

  /** Each registry entry sits under its own address and every entry was built before `nextHandle`. */
  predicate Valid(m: MasterState)
  {
    && (forall a :: a in m.slaves ==> m.slaves[a].remoteAddr == a && m.slaves[a].handle < m.nextHandle)
    && (forall i :: 0 <= i < |m.idle| ==> m.idle[i].handle < m.nextHandle)
  }

  predicate IsRunning(d: Task)
  {
    d.state == Encode(Running)
  }

  predicate IsSuccess(d: Task)
  {
    d.state == Encode(Success)
  }

  // ---------------------------------------------------------------------------
  // Registry and handlers
  // ---------------------------------------------------------------------------

  /** `create_slave(addr)`: a fresh entry under `addr`, replacing any previous one. */
  function CreateSlave(m: MasterState, addr: string): MasterState
  {
    m.(slaves := m.slaves[addr := Slave(addr, m.nextHandle)], nextHandle := m.nextHandle + 1)
  }

  /**
   * `assume_dead(slave)`: mark the first running task of the address killed,
   * drop the registry entry and requeue the task it found, with its state set
   * to killed. When the address is no longer registered, `del` raises after the
   * store update and nothing is requeued.
   */
  function AssumeDead(m: MasterState, slave: Slave): MasterState
  {
    var addr := slave.remoteAddr;
    var found := FindOneAndUpdate(m.tasks, RunningOn(addr), SetFields(Killed, None));
    if addr !in m.slaves then
      m.(tasks := found.0)
    else
      m.(tasks := found.0,
         slaves := m.slaves - {addr},
         queued := if found.1.Some? then m.queued + [found.1.value.(state := Encode(Killed))] else m.queued)
  }

  /** Whether `assume_dead(slave)` raises `KeyError` at its `del`. */
  predicate AssumeDeadRaises(m: MasterState, slave: Slave)
  {
    slave.remoteAddr !in m.slaves
  }

  /** The `connect` handler: treat a known address as dead, register it afresh and make it idle. */
  function Connect(m: MasterState, addr: string): MasterState
  {
    var m1 := if addr in m.slaves then AssumeDead(m, m.slaves[addr]) else m;
    var m2 := CreateSlave(m1, addr);
    m2.(idle := m2.idle + [m2.slaves[addr]])
  }

  /** The `complete` handler: mark the task successful, re-register an unknown worker, make it idle. */
  function CompleteTask(m: MasterState, addr: string, name: string): MasterState
  {
    var m1 := m.(tasks := UpdateOne(m.tasks, NameIs(name), SetFields(Success, None)));
    var m2 := if addr in m1.slaves then m1 else CreateSlave(m1, addr);
    m2.(idle := m2.idle + [m2.slaves[addr]])
  }

  /**
   * `send_task(task, slave)`: `delivered` says whether the `run_task` request
   * returned; when it raised, the store update after it never runs.
   */
  function SendTask(m: MasterState, task: Task, slave: Slave, delivered: bool): MasterState
  {
    if !delivered then m
    else m.(tasks := UpdateOne(m.tasks, NameIs(task.name), SetFields(Running, Some(slave.remoteAddr))))
  }

  /** `get_available_slave`: the head of the idle queue, or `None` where `Queue.get` would block. */
  function TakeIdle(m: MasterState): (MasterState, Option<Slave>)
  {
    if |m.idle| == 0 then (m, None) else (m.(idle := m.idle[1..]), Some(m.idle[0]))
  }

  /** `check_if_done`: set `done` when the store holds no task outside `success`. */
  function CheckIfDone(m: MasterState): MasterState
  {
    if |Find(m.tasks, NotSucceeded)| == 0 then m.(done := true) else m
  }

  // ---------------------------------------------------------------------------
  // Startup recovery
  // ---------------------------------------------------------------------------

  /** `task['host']` of a running document is read unguarded: it must be there. */
  predicate HostRecorded(d: Task)
  {
    IsRunning(d) ==> d.host.Some?
  }

  /** The state `Server.__init__` starts from, before its loop over the store. */
  function Initial(docs: seq<Task>): MasterState
  {
    MasterState(docs, map[], [], [], false, 0, AtLoopHead)
  }

  /** One pass of the recovery loop over the stored document `d`. */
  function RecoveryStep(m: MasterState, d: Task): MasterState
    requires HostRecorded(d)
  {
    match Decode(d.state)
    case Some(Created) => m.(queued := m.queued + [d])
    case Some(Killed) => m.(queued := m.queued + [d])
    case Some(Running) => if d.host.value in m.slaves then m else CreateSlave(m, d.host.value)
    case Some(Success) => m
    case None => m
  }

  /** The recovery loop run over `docs` in order, starting from `m`. */
  function RecoverFrom(m: MasterState, docs: seq<Task>): MasterState
    requires forall i :: 0 <= i < |docs| ==> HostRecorded(docs[i])
    decreases |docs|
  {
    if |docs| == 0 then m else RecoverFrom(RecoveryStep(m, docs[0]), docs[1..])
  }

  function Recover(docs: seq<Task>): MasterState
    requires forall i :: 0 <= i < |docs| ==> HostRecorded(docs[i])
  {
    RecoverFrom(Initial(docs), docs)
  }

  /** A document that has to be (re-)run: created or killed. */
  predicate NeedsRun(d: Task)
  {
    d.state == Encode(Created) || d.state == Encode(Killed)
  }

  /** Reference definition of the recovered queue: the documents needing a run, in store order. */
  function Pending(docs: seq<Task>): seq<Task>
  {
    if |docs| == 0 then [] else (if NeedsRun(docs[0]) then [docs[0]] else []) + Pending(docs[1..])
  }

  /** Reference definition of the hosts recovery has to track: those of running documents. */
  function RunningHosts(docs: seq<Task>): set<string>
  {
    if |docs| == 0 then {}
    else (if IsRunning(docs[0]) && docs[0].host.Some? then {docs[0].host.value} else {}) + RunningHosts(docs[1..])
  }

  // ---------------------------------------------------------------------------
  // The health loop
  // ---------------------------------------------------------------------------

  /** Every entry of `snapshot` is the current registry entry of its address, and no address repeats. */
  predicate Listed(slaves: map<string, Slave>, snapshot: seq<Slave>)
  {
    && (forall i :: 0 <= i < |snapshot| ==>
          snapshot[i].remoteAddr in slaves && slaves[snapshot[i].remoteAddr] == snapshot[i])
    && (forall i, j :: 0 <= i < j < |snapshot| ==> snapshot[i].remoteAddr != snapshot[j].remoteAddr)
  }

  /** `list(self.slaves.values())`: the registry's entries, each once, in some order. */
  predicate SnapshotOf(slaves: map<string, Slave>, snapshot: seq<Slave>)
  {
    && Listed(slaves, snapshot)
    && (forall a :: a in slaves ==> exists i :: 0 <= i < |snapshot| && snapshot[i].remoteAddr == a)
  }

  /** The addresses in `snapshot` whose status probe failed (`alive` runs alongside `snapshot`). */
  function FailedAddrs(snapshot: seq<Slave>, alive: seq<bool>): set<string>
    requires |alive| == |snapshot|
  {
    if |snapshot| == 0 then {}
    else (if alive[0] then {} else {snapshot[0].remoteAddr}) + FailedAddrs(snapshot[1..], alive[1..])
  }

  /** The probes of one health pass, in snapshot order: each failed probe runs `assume_dead`. */
  function Probe(m: MasterState, snapshot: seq<Slave>, alive: seq<bool>): MasterState
    requires |alive| == |snapshot|
    decreases |snapshot|
  {
    if |snapshot| == 0 then m
    else Probe(if alive[0] then m else AssumeDead(m, snapshot[0]), snapshot[1..], alive[1..])
  }

  /** Whether one of the `assume_dead` calls of `Probe` would raise. */
  predicate ProbeRaises(m: MasterState, snapshot: seq<Slave>, alive: seq<bool>)
    requires |alive| == |snapshot|
    decreases |snapshot|
  {
    && |snapshot| > 0
    && ((!alive[0] && AssumeDeadRaises(m, snapshot[0]))
        || ProbeRaises(if alive[0] then m else AssumeDead(m, snapshot[0]), snapshot[1..], alive[1..]))
  }

  /** One iteration of `health_loop`: none once `done` is set; else the probes, then `check_if_done`. */
  function HealthPass(m: MasterState, snapshot: seq<Slave>, alive: seq<bool>): MasterState
    requires |alive| == |snapshot|
  {
    if m.done then m else CheckIfDone(Probe(m, snapshot, alive))
  }

  // ---------------------------------------------------------------------------
  // The dispatcher
  // ---------------------------------------------------------------------------

  /** Where one step of the `run_tasks` thread ends. */
  datatype Dispatch =
    | Stopped                      // `done` was set at the top of the loop: the loop is over
    | NoTask                       // `queued_tasks.get()` blocks
    | Sent(task: Task, slave: Slave)
    | WaitingForWorker(task: Task) // `get_available_slave()` blocks while holding `task`

  /**
   * The inner retry loop of `run_tasks` for `task`: take idle workers in
   * order; the first `failures` sends raise, the next one is delivered and the
   * thread returns to the top of its loop. With no idle worker left it blocks
   * holding `task`.
   */
  function Deliver(m: MasterState, task: Task, failures: nat): (MasterState, Dispatch)
    decreases |m.idle|
  {
    var taken := TakeIdle(m);
    match taken.1
    case None => (taken.0.(dispatcher := AwaitingWorker(task)), WaitingForWorker(task))
    case Some(slave) =>
      if failures == 0 then (SendTask(taken.0, task, slave, true).(dispatcher := AtLoopHead), Sent(task, slave))
      else Deliver(SendTask(taken.0, task, slave, false), task, failures - 1)
  }

  /** `queued_tasks.get()` and the retry loop after it; blocks on an empty queue. */
  function TakeTask(m: MasterState, failures: nat): (MasterState, Dispatch)
  {
    if |m.queued| == 0 then (m.(dispatcher := AwaitingTask), NoTask)
    else Deliver(m.(queued := m.queued[1..]), m.queued[0], failures)
  }

  /**
   * One step of the `run_tasks` thread, resumed where it stands: a thread
   * holding a task goes on looking for a worker for it; one blocked on the
   * task queue takes the next task; one at the top of the loop first stops
   * if `done` is set.
   */
  function RunTasks(m: MasterState, failures: nat): (MasterState, Dispatch)
  {
    match m.dispatcher
    case AwaitingWorker(task) => Deliver(m, task, failures)
    case AwaitingTask => TakeTask(m, failures)
    case AtLoopHead => if m.done then (m, Stopped) else TakeTask(m, failures)
  }
}
