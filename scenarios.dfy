/** Concrete runs of the master built from the transitions of `Scheduling`. */
module Scenarios {
  import opened Wrappers
  import opened TaskStates
  import opened TaskStore
  import opened Scheduling
  import RecoveryFacts
  import HandlerFacts
  import HealthFacts
  import DispatchFacts

  function T0(): Task
  {
    Task("t0", 1, Encode(Created), None)
  }

  /** The master restarted on a store holding the one created task `t0`, then worker `w` connected. */
  function Started(): MasterState
  {
    Connect(Recover([T0()]), "w")
  }

  /** After recovery and `connect("w")`: `t0` pending, `w` registered and idle. */
  lemma StartedState()
    ensures Started() == MasterState([T0()], map["w" := Slave("w", 0)], [T0()], [Slave("w", 0)], false, 1, AtLoopHead)
  {
    var docs := [T0()];
    var m0 := Recover(docs);
    RecoveryFacts.RecoveryCorrect(docs);
    assert Pending(docs) == [T0()] by {
      assert NeedsRun(T0());
    }
    assert m0.slaves == map[] by {
      RecoveryFacts.RunningHostsMembers(docs);
      EncodeInjective(Created, Running);
    }
    assert m0 == MasterState(docs, map[], [T0()], [], false, 0, AtLoopHead);
    var m1 := CreateSlave(m0, "w");
    assert m1.slaves == map["w" := Slave("w", 0)];
    assert Started() == m1.(idle := [Slave("w", 0)]);
  }

  /** The dispatcher's first iteration sends `t0` to `w` and records it running there. */
  lemma DispatchedState()
    ensures RunTasks(Started(), 0) ==
      (MasterState([T0().(state := Encode(Running), host := Some("w"))], map["w" := Slave("w", 0)], [], [], false, 1, AtLoopHead),
       Sent(T0(), Slave("w", 0)))
  {
    StartedState();
    var m1 := Started();
    var q := m1.(queued := [], idle := []);
    assert m1.queued[1..] == [] && m1.idle[1..] == [];
    assert TakeIdle(m1.(queued := [])) == (q, Some(Slave("w", 0)));
    assert RunTasks(m1, 0) == (SendTask(q, T0(), Slave("w", 0), true), Sent(T0(), Slave("w", 0)));
    assert FirstMatch(q.tasks, NameIs("t0")) == Some(0);
    assert UpdateOne(q.tasks, NameIs("t0"), SetFields(Running, Some("w"))) ==
      [T0().(state := Encode(Running), host := Some("w"))];
  }

  /**
   * A created task and one connected worker: the task is dispatched to that
   * worker and recorded as running there, the completion report makes it
   * successful and the worker idle again, it is never queued again, and the
   * next health pass with the worker answering sets `done`.
   */
  lemma RoundTrip()
    ensures var (m2, out) := RunTasks(Started(), 0);
      && out == Sent(T0(), Slave("w", 0))
      && m2.tasks == [T0().(state := Encode(Running), host := Some("w"))]
      && m2.queued == [] && m2.idle == []
      && var m3 := CompleteTask(m2, "w", "t0");
         && m3.tasks == [T0().(state := Encode(Success), host := Some("w"))]
         && m3.queued == [] && m3.idle == [Slave("w", 0)]
         && HealthPass(m3, [Slave("w", 0)], [true]).done
  {
    DispatchedState();
    var m2 := RunTasks(Started(), 0).0;
    var m3 := CompleteTask(m2, "w", "t0");
    assert FirstMatch(m2.tasks, NameIs("t0")) == Some(0);
    assert m3 == MasterState([T0().(state := Encode(Success), host := Some("w"))], map["w" := Slave("w", 0)], [], [Slave("w", 0)], false, 1, AtLoopHead);
    assert Probe(m3, [Slave("w", 0)], [true]) == m3;
    assert IsSuccess(m3.tasks[0]);
    FindEmpty(m3.tasks, NotSucceeded);
  }

  /**
   * A worker that reconnects while the store says it runs `t0` is treated as
   * dead first: `t0` is marked killed and requeued, and the worker is
   * registered again under a new entry. Its old entry, if it was still in the
   * idle queue, stays there.
   */
  lemma Reconnect()
    ensures var m2 := RunTasks(Started(), 0).0;
      var m3 := Connect(m2, "w");
      && m3.tasks == [T0().(state := Encode(Killed), host := Some("w"))]
      && m3.queued == [T0().(state := Encode(Killed), host := Some("w"))]
      && m3.slaves == map["w" := Slave("w", 1)]
      && m3.idle == [Slave("w", 1)]
  {
    DispatchedState();
    var m2 := RunTasks(Started(), 0).0;
    assert Matches(m2.tasks[0], RunningOn("w"));
    assert FirstMatch(m2.tasks, RunningOn("w")) == Some(0);
  }

  /**
   * `connect` does not take the old entry of a reconnecting worker out of the
   * idle queue: after `w` connects twice, the idle queue holds its old and its
   * new entry, and the dispatcher can hand out both.
   */
  lemma ReconnectKeepsStaleEntry()
    ensures var m := Connect(Started(), "w");
      && m.slaves == map["w" := Slave("w", 1)]
      && m.idle == [Slave("w", 0), Slave("w", 1)]
      && m.queued == [T0()]
  {
    StartedState();
    var m := Started();
    assert FirstMatch(m.tasks, RunningOn("w")) == None by {
      EncodeInjective(Created, Running);
    }
  }

  /**
   * With no worker connected, the dispatcher takes `t0` and blocks holding
   * it; when `w` then connects, the next step sends that same task to `w`,
   * though the pending queue is empty by then.
   */
  lemma HeldTaskGoesToNextWorker()
    ensures var (m1, out1) := RunTasks(Recover([T0()]), 0);
      && out1 == WaitingForWorker(T0())
      && m1.queued == [] && m1.dispatcher == AwaitingWorker(T0())
      && var (m2, out2) := RunTasks(Connect(m1, "w"), 0);
         && out2 == Sent(T0(), Slave("w", 0))
         && m2.tasks == [T0().(state := Encode(Running), host := Some("w"))]
         && m2.queued == [] && m2.idle == [] && m2.dispatcher == AtLoopHead
  {
    var docs := [T0()];
    var m0 := Recover(docs);
    RecoveryFacts.RecoveryCorrect(docs);
    assert Pending(docs) == [T0()] by {
      assert NeedsRun(T0());
    }
    assert m0.slaves == map[] by {
      RecoveryFacts.RunningHostsMembers(docs);
      EncodeInjective(Created, Running);
    }
    assert m0 == MasterState(docs, map[], [T0()], [], false, 0, AtLoopHead);
    var m1 := RunTasks(m0, 0).0;
    assert m1 == MasterState(docs, map[], [], [], false, 0, AwaitingWorker(T0()));
    var c := Connect(m1, "w");
    assert c == MasterState(docs, map["w" := Slave("w", 0)], [], [Slave("w", 0)], false, 1, AwaitingWorker(T0()));
    assert FirstMatch(c.tasks, NameIs("t0")) == Some(0);
    assert UpdateOne(c.tasks, NameIs("t0"), SetFields(Running, Some("w"))) ==
      [T0().(state := Encode(Running), host := Some("w"))];
  }

  /**
   * The store can take a task back from `success` to `running`: the worker
   * running `t0` misses one probe, `t0` is killed and requeued, the worker
   * then reports `t0` complete, and the dispatcher sends the requeued copy to
   * the worker again and records it as running.
   */
  lemma SuccessOverwrittenByStaleCopy()
    ensures var m2 := RunTasks(Started(), 0).0;
      var m3 := HealthPass(m2, [Slave("w", 0)], [false]);
      var m4 := CompleteTask(m3, "w", "t0");
      var m5 := RunTasks(m4, 0).0;
      IsSuccess(m4.tasks[0]) && IsRunning(m5.tasks[0])
  {
    DispatchedState();
    var m2 := RunTasks(Started(), 0).0;
    var m3 := HealthPass(m2, [Slave("w", 0)], [false]);
    assert FirstMatch(m2.tasks, RunningOn("w")) == Some(0);
    assert Probe(m2, [Slave("w", 0)], [false]) == AssumeDead(m2, Slave("w", 0));
    EncodeInjective(Killed, Success);
    assert m3.queued == [T0().(state := Encode(Killed), host := Some("w"))];
    var m4 := CompleteTask(m3, "w", "t0");
    assert FirstNamed(m3.tasks, 0, "t0");
    assert IsSuccess(m4.tasks[0]);
    assert m4.idle == [Slave("w", 1)];
    DispatchFacts.RunTasksEffect(m4, 0);
    assert FirstNamed(m4.tasks, 0, "t0");
  }
}
