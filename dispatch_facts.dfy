/** What one step of the `run_tasks` thread does with the pending queue, the idle queue and the store. */
module DispatchFacts {
  import opened Wrappers
  import opened TaskStates
  import opened TaskStore
  import opened Scheduling
  import opened HandlerFacts

  /**
   * What the retry loop for `task`, started in `m`, leaves behind in `r`: the
   * registry and `done` are untouched; with enough idle workers, the first
   * `failures` of them are dropped (never pushed back or unregistered), the
   * next one gets the task, the store records exactly that the task runs on
   * that worker, and the thread is back at the top of its loop; otherwise the
   * idle queue is drained, the store is untouched and the thread blocks
   * holding `task`.
   */
  predicate Dispatched(m: MasterState, task: Task, failures: nat, r: MasterState, out: Dispatch)
  {
    && r.slaves == m.slaves && r.done == m.done && r.nextHandle == m.nextHandle
    && (failures < |m.idle| ==>
          && out == Sent(task, m.idle[failures])
          && r.dispatcher == AtLoopHead
          && r.idle == m.idle[failures + 1..]
          && |r.tasks| == |m.tasks|
          && (forall j :: 0 <= j < |m.tasks| && FirstNamed(m.tasks, j, task.name) ==>
                IsRunning(r.tasks[j]) && r.tasks[j].host == Some(m.idle[failures].remoteAddr))
          && (forall j :: 0 <= j < |m.tasks| && !FirstNamed(m.tasks, j, task.name) ==>
                r.tasks[j] == m.tasks[j]))
    && (failures >= |m.idle| ==>
          && out == WaitingForWorker(task)
          && r.dispatcher == AwaitingWorker(task)
          && r.idle == [] && r.tasks == m.tasks)
  }

  /**
   * The retry loop consumes idle workers from the front: the first `failures`
   * are dropped, the next one gets the task and the store records it; with
   * too few idle workers the loop blocks holding the task and the store is
   * untouched. The pending queue is left alone.
   */
  lemma {:induction false} DeliverEffect(m: MasterState, task: Task, failures: nat)
    ensures var r := Deliver(m, task, failures).0;
      && r.queued == m.queued && r.slaves == m.slaves && r.done == m.done && r.nextHandle == m.nextHandle
      && (failures < |m.idle| ==>
            && Deliver(m, task, failures).1 == Sent(task, m.idle[failures])
            && r.dispatcher == AtLoopHead
            && r.idle == m.idle[failures + 1..]
            && r.tasks == SendTask(m, task, m.idle[failures], true).tasks)
      && (failures >= |m.idle| ==>
            && Deliver(m, task, failures).1 == WaitingForWorker(task)
            && r.dispatcher == AwaitingWorker(task)
            && r.idle == [] && r.tasks == m.tasks)
    decreases |m.idle|
  {
    if |m.idle| > 0 && failures > 0 {
      var m1 := m.(idle := m.idle[1..]);
      DeliverEffect(m1, task, failures - 1);
      if failures < |m.idle| {
        assert m1.idle[failures - 1..] == m.idle[failures..];
      }
    }
  }

  /** The retry loop keeps the registry invariant. */
  lemma {:induction false} DeliverValid(m: MasterState, task: Task, failures: nat)
    requires Valid(m)
    ensures Valid(Deliver(m, task, failures).0)
    decreases |m.idle|
  {
    if |m.idle| > 0 && failures > 0 {
      DeliverValid(m.(idle := m.idle[1..]), task, failures - 1);
    }
  }

  /** The retry loop for `task` from `m` ends as `Dispatched` says. */
  lemma DeliverDispatched(m: MasterState, task: Task, failures: nat)
    requires Valid(m)
    ensures var (r, out) := Deliver(m, task, failures);
      Valid(r) && Dispatched(m, task, failures, r, out)
  {
    DeliverEffect(m, task, failures);
    DeliverValid(m, task, failures);
    if failures < |m.idle| {
      var slave := m.idle[failures];
      SendTaskEffect(m, task, slave, true);
      UpdateOneTouchesFirstMatchOnly(m.tasks, NameIs(task.name), SetFields(Running, Some(slave.remoteAddr)));
    }
  }

  /**
   * One step of the `run_tasks` thread. At the top of its loop with `done`
   * set, it stops and nothing changes. When it takes a task from an empty
   * pending queue, it blocks there and nothing else changes. When it takes a
   * task from a non-empty queue, the head task leaves the queue and is
   * dispatched. A thread already holding a task dispatches that task and
   * leaves the pending queue alone.
   */
  lemma RunTasksEffect(m: MasterState, failures: nat)
    requires Valid(m)
    ensures var (r, out) := RunTasks(m, failures);
      && Valid(r)
      && (m.dispatcher == AtLoopHead && m.done ==> r == m && out == Stopped)
      && ((m.dispatcher == AwaitingTask || (m.dispatcher == AtLoopHead && !m.done)) ==>
            && (|m.queued| == 0 ==> r == m.(dispatcher := AwaitingTask) && out == NoTask)
            && (|m.queued| > 0 ==>
                  r.queued == m.queued[1..] && Dispatched(m, m.queued[0], failures, r, out)))
      && (m.dispatcher.AwaitingWorker? ==>
            r.queued == m.queued && Dispatched(m, m.dispatcher.task, failures, r, out))
  {
    match m.dispatcher
    case AwaitingWorker(task) =>
      DeliverEffect(m, task, failures);
      DeliverDispatched(m, task, failures);
    case _ =>
      if |m.queued| > 0 && (m.dispatcher == AwaitingTask || !m.done) {
        var m1 := m.(queued := m.queued[1..]);
        DeliverEffect(m1, m.queued[0], failures);
        DeliverDispatched(m1, m.queued[0], failures);
      }
  }
}
