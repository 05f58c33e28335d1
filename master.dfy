/**
 * The `Server` object of master/master.py. Its fields are updated in place by
 * the recovery loop of its constructor, by the `connect` and `complete`
 * handlers, and by the health and dispatch loops; each method is proved to
 * move `State()` exactly as the matching function of `Scheduling` does, so the
 * lemmas about those functions hold of the object.
 */
module Master {
  import opened Wrappers
  import opened TaskStates
  import opened TaskStore
  import opened Scheduling
  import RecoveryFacts
  import HandlerFacts
  import HealthFacts
  import DispatchFacts

  class Server {
    /** The `tasks` collection. */
    var tasks: seq<Task>
    /** `self.slaves`: registry entries by worker address. */
    var slaves: map<string, Slave>
    /** `self.queued_tasks`, front first. */
    var queuedTasks: seq<Task>
    /** `self.idle_slaves`, front first. */
    var idleSlaves: seq<Slave>
    var done: bool
    /** Number of registry entries built so far; the next one gets this handle. */
    var nextHandle: nat
    /** Where the `run_tasks` thread stands, with the task it holds while it waits for a worker. */
    var dispatcher: Dispatcher

    function State(): MasterState
      reads this
    {
      MasterState(tasks, slaves, queuedTasks, idleSlaves, done, nextHandle, dispatcher)
    }

    ghost predicate Valid()
      reads this
    {
      Scheduling.Valid(State())
    }

    /** `Server.__init__`: load every stored task and rebuild the pending queue and the registry. */
    constructor (docs: seq<Task>)
      requires forall i :: 0 <= i < |docs| ==> HostRecorded(docs[i])
      ensures Valid()
      ensures State() == Recover(docs)
    {
      tasks := docs;
      slaves := map[];
      queuedTasks := [];
      idleSlaves := [];
      done := false;
      nextHandle := 0;
      dispatcher := AtLoopHead;
      new;
      for i := 0 to |docs|
        invariant Valid()
        invariant tasks == docs
        invariant RecoverFrom(State(), docs[i..]) == Recover(docs)
      {
        var task := docs[i];
        assert docs[i..][1..] == docs[i + 1..];
        RecoveryFacts.RecoveryStepRegistry(State(), task);
        match Decode(task.state)
        case Some(Created) =>
          queuedTasks := queuedTasks + [task];
        case Some(Killed) =>
          queuedTasks := queuedTasks + [task];
        case Some(Running) =>
          if task.host.value !in slaves {
            CreateSlave(task.host.value);
          }
        case Some(Success) =>
        case None =>
      }
      RecoveryFacts.RecoveryCorrect(docs);
    }

    /** `create_slave(addr)`. */
    method CreateSlave(addr: string)
      requires Valid()
      modifies this
      ensures Valid()
      ensures State() == Scheduling.CreateSlave(old(State()), addr)
    {
      slaves := slaves[addr := Slave(addr, nextHandle)];
      nextHandle := nextHandle + 1;
    }

    /** The `connect` handler. */
    method Connect(addr: string)
      requires Valid()
      modifies this
      ensures Valid()
      ensures State() == Scheduling.Connect(old(State()), addr)
    {
      HandlerFacts.ConnectEffect(State(), addr);
      if addr in slaves {
        var raised := AssumeDead(slaves[addr]);
        assert !raised;
      }
      CreateSlave(addr);
      idleSlaves := idleSlaves + [slaves[addr]];
    }

    /** The `complete` handler. */
    method CompleteTask(addr: string, name: string)
      requires Valid()
      modifies this
      ensures Valid()
      ensures State() == Scheduling.CompleteTask(old(State()), addr, name)
    {
      HandlerFacts.CompleteTaskEffect(State(), addr, name);
      tasks := UpdateOne(tasks, NameIs(name), SetFields(Success, None));
      if addr !in slaves {
        CreateSlave(addr);
      }
      idleSlaves := idleSlaves + [slaves[addr]];
    }

    /** `send_task(task, slave)`; `delivered` is whether the `run_task` request returned. */
    method SendTask(task: Task, slave: Slave, delivered: bool)
      requires Valid()
      modifies this
      ensures Valid()
      ensures State() == Scheduling.SendTask(old(State()), task, slave, delivered)
    {
      if !delivered {
        return;
      }
      tasks := UpdateOne(tasks, NameIs(task.name), SetFields(Running, Some(slave.remoteAddr)));
    }

    /** `get_available_slave`: pop the idle queue; `None` where `Queue.get` would block. */
    method GetAvailableSlave() returns (slave: Option<Slave>)
      requires Valid()
      modifies this
      ensures Valid()
      ensures (State(), slave) == TakeIdle(old(State()))
    {
      if |idleSlaves| == 0 {
        return None;
      }
      slave := Some(idleSlaves[0]);
      idleSlaves := idleSlaves[1..];
    }

    /** `assume_dead(slave)`; `raised` is whether its `del` raises `KeyError`. */
    method AssumeDead(slave: Slave) returns (raised: bool)
      requires Valid()
      modifies this
      ensures Valid()
      ensures raised == AssumeDeadRaises(old(State()), slave)
      ensures State() == Scheduling.AssumeDead(old(State()), slave)
    {
      HandlerFacts.AssumeDeadValid(State(), slave);
      var found := FindOneAndUpdate(tasks, RunningOn(slave.remoteAddr), SetFields(Killed, None));
      tasks := found.0;
      if slave.remoteAddr !in slaves {
        return true;
      }
      slaves := slaves - {slave.remoteAddr};
      if found.1.Some? {
        queuedTasks := queuedTasks + [found.1.value.(state := Encode(Killed))];
      }
      return false;
    }

    /** `check_if_done`. */
    method CheckIfDone()
      requires Valid()
      modifies this
      ensures Valid()
      ensures State() == Scheduling.CheckIfDone(old(State()))
    {
      var remaining := Find(tasks, NotSucceeded);
      if |remaining| == 0 {
        done := true;
      }
    }

    /**
     * One iteration of `health_loop`, given the snapshot `list(self.slaves.values())`
     * in its iteration order and the outcome of each entry's status probe.
     */
    method HealthLoopPass(snapshot: seq<Slave>, alive: seq<bool>)
      requires Valid()
      requires |alive| == |snapshot| && SnapshotOf(slaves, snapshot)
      modifies this
      ensures Valid()
      ensures State() == HealthPass(old(State()), snapshot, alive)
    {
      if done {
        return;
      }
      for i := 0 to |snapshot|
        invariant Valid()
        invariant Listed(slaves, snapshot[i..])
        invariant Probe(State(), snapshot[i..], alive[i..]) == Probe(old(State()), snapshot, alive)
      {
        assert snapshot[i..][1..] == snapshot[i + 1..] && alive[i..][1..] == alive[i + 1..];
        HealthFacts.ListedTail(State(), snapshot[i..], alive[i..]);
        if !alive[i] {
          var raised := AssumeDead(snapshot[i]);
          assert !raised;
        }
      }
      CheckIfDone();
    }

    /**
     * One step of the `run_tasks` thread, resumed where it stands: the first
     * `failures` sends of the retry loop raise and the next one is delivered.
     */
    method RunTasksIteration(failures: nat) returns (outcome: Dispatch)
      requires Valid()
      modifies this
      ensures Valid()
      ensures (State(), outcome) == RunTasks(old(State()), failures)
    {
      var task: Task;
      match dispatcher {
        case AwaitingWorker(held) =>
          task := held;
        case _ =>
          if dispatcher == AtLoopHead && done {
            return Stopped;
          }
          if |queuedTasks| == 0 {
            dispatcher := AwaitingTask;
            return NoTask;
          }
          task := queuedTasks[0];
          queuedTasks := queuedTasks[1..];
      }
      var attempt := 0;
      while true
        invariant Valid()
        invariant attempt <= failures
        invariant Deliver(State(), task, failures - attempt) == RunTasks(old(State()), failures)
        decreases |idleSlaves|
      {
        var slave := GetAvailableSlave();
        if slave.None? {
          dispatcher := AwaitingWorker(task);
          return WaitingForWorker(task);
        }
        var delivered := attempt == failures;
        SendTask(task, slave.value, delivered);
        if delivered {
          dispatcher := AtLoopHead;
          return Sent(task, slave.value);
        }
        attempt := attempt + 1;
      }
    }
  }
}
