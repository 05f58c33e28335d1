/** What the `connect` and `complete` handlers, `send_task`, `assume_dead` and `check_if_done` do to the state. */
module HandlerFacts {
  import opened Wrappers
  import opened TaskStates
  import opened TaskStore
  import opened Scheduling

  /**
   * `assume_dead` changes at most one document, a running one on the dead
   * address, into the same document in state killed (its host is kept); it
   * finds one whenever one exists; it forgets the address; and it requeues the
   * killed document exactly when it found one and the address was registered.
   */
  lemma AssumeDeadEffect(m: MasterState, slave: Slave)
    ensures var r := AssumeDead(m, slave); var addr := slave.remoteAddr;
      && |r.tasks| == |m.tasks|
      && (forall j :: 0 <= j < |m.tasks| && r.tasks[j] != m.tasks[j] ==>
            IsRunning(m.tasks[j]) && m.tasks[j].host == Some(addr) &&
            r.tasks[j] == m.tasks[j].(state := Encode(Killed)))
      && (forall j, k :: 0 <= j < |m.tasks| && 0 <= k < |m.tasks| && j != k && r.tasks[j] != m.tasks[j] ==>
            r.tasks[k] == m.tasks[k])
      && ((forall j :: 0 <= j < |m.tasks| ==> !Matches(m.tasks[j], RunningOn(addr))) ==>
            r.tasks == m.tasks && r.queued == m.queued)
      && (forall j :: 0 <= j < |m.tasks| && Matches(m.tasks[j], RunningOn(addr)) ==>
            exists i :: 0 <= i < |m.tasks| && r.tasks[i] != m.tasks[i] &&
              r.queued == if addr in m.slaves then m.queued + [r.tasks[i]] else m.queued)
      && addr !in r.slaves
      && (forall a :: a != addr ==> (a in r.slaves <==> a in m.slaves))
      && (forall a :: a in r.slaves ==> r.slaves[a] == m.slaves[a])
      && r.idle == m.idle && r.done == m.done && r.nextHandle == m.nextHandle && r.dispatcher == m.dispatcher
  {
    var addr := slave.remoteAddr;
    var u := SetFields(Killed, None);
    UpdateOneTouchesFirstMatchOnly(m.tasks, RunningOn(addr), u);
    EncodeInjective(Running, Killed);
    match FirstMatch(m.tasks, RunningOn(addr))
    case None =>
    case Some(i) =>
      var r := AssumeDead(m, slave);
      assert r.tasks[i] == m.tasks[i].(state := Encode(Killed)) != m.tasks[i];
  }

  /** `assume_dead` keeps the registry invariant. */
  lemma AssumeDeadValid(m: MasterState, slave: Slave)
    requires Valid(m)
    ensures Valid(AssumeDead(m, slave))
  {
  }

  /**
   * `connect(addr)`: `addr` ends up registered under an entry newer than every
   * entry in the idle queue, that entry and nothing else is appended to the idle
   * queue, other addresses keep their entries, and the store and the pending
   * queue change only through `assume_dead` of the old entry, which is run
   * exactly when `addr` was already registered (and then does not raise).
   */
  lemma ConnectEffect(m: MasterState, addr: string)
    requires Valid(m)
    ensures var r := Connect(m, addr);
      && Valid(r)
      && addr in r.slaves && r.slaves[addr] == Slave(addr, m.nextHandle)
      && (forall i :: 0 <= i < |m.idle| ==> m.idle[i] != r.slaves[addr])
      && r.idle == m.idle + [r.slaves[addr]]
      && (forall a :: a != addr ==> (a in r.slaves <==> a in m.slaves))
      && (forall a :: a != addr && a in m.slaves ==> r.slaves[a] == m.slaves[a])
      && r.done == m.done && r.dispatcher == m.dispatcher
      && (addr !in m.slaves ==> r.tasks == m.tasks && r.queued == m.queued)
      && (addr in m.slaves ==>
            !AssumeDeadRaises(m, m.slaves[addr]) &&
            r.tasks == AssumeDead(m, m.slaves[addr]).tasks &&
            r.queued == AssumeDead(m, m.slaves[addr]).queued)
  {
    if addr in m.slaves {
      AssumeDeadValid(m, m.slaves[addr]);
    }
  }

  /**
   * `complete(addr, name)`: the first document named `name` becomes
   * successful, no other document and no other field changes; `addr` ends up
   * registered (keeping its entry if it had one, a new one otherwise) and that
   * entry is appended to the idle queue; the pending queue is untouched.
   */
  lemma CompleteTaskEffect(m: MasterState, addr: string, name: string)
    requires Valid(m)
    ensures var r := CompleteTask(m, addr, name);
      && Valid(r)
      && |r.tasks| == |m.tasks|
      && (forall j :: 0 <= j < |m.tasks| && r.tasks[j] != m.tasks[j] ==>
            m.tasks[j].name == name && r.tasks[j] == m.tasks[j].(state := Encode(Success)))
      && (forall j, k :: 0 <= j < |m.tasks| && 0 <= k < |m.tasks| && j != k && r.tasks[j] != m.tasks[j] ==>
            r.tasks[k] == m.tasks[k])
      && (forall j :: FirstNamed(m.tasks, j, name) ==> IsSuccess(r.tasks[j]))
      && addr in r.slaves
      && r.idle == m.idle + [r.slaves[addr]]
      && (addr in m.slaves ==> r.slaves == m.slaves && r.nextHandle == m.nextHandle)
      && (addr !in m.slaves ==> r.slaves == m.slaves[addr := Slave(addr, m.nextHandle)])
      && r.queued == m.queued && r.done == m.done && r.dispatcher == m.dispatcher
  {
    var u := SetFields(Success, None);
    UpdateOneTouchesFirstMatchOnly(m.tasks, NameIs(name), u);
    var r := CompleteTask(m, addr, name);
    forall j | FirstNamed(m.tasks, j, name)
      ensures IsSuccess(r.tasks[j])
    {
      assert FirstMatch(m.tasks, NameIs(name)) == Some(j);
    }
  }

  /**
   * `send_task(task, slave)`: when the request raised, nothing changes; when
   * it returned, the first document named like the task is running on the
   * worker's address, and no other document, field, queue or registry entry
   * changes.
   */
  lemma SendTaskEffect(m: MasterState, task: Task, slave: Slave, delivered: bool)
    ensures var r := SendTask(m, task, slave, delivered);
      && (!delivered ==> r == m)
      && r.slaves == m.slaves && r.queued == m.queued && r.idle == m.idle
      && r.done == m.done && r.nextHandle == m.nextHandle && r.dispatcher == m.dispatcher
      && |r.tasks| == |m.tasks|
      && (forall j :: 0 <= j < |m.tasks| && r.tasks[j] != m.tasks[j] ==>
            m.tasks[j].name == task.name &&
            r.tasks[j] == m.tasks[j].(state := Encode(Running), host := Some(slave.remoteAddr)))
      && (forall j, k :: 0 <= j < |m.tasks| && 0 <= k < |m.tasks| && j != k && r.tasks[j] != m.tasks[j] ==>
            r.tasks[k] == m.tasks[k])
      && (delivered ==> forall j :: FirstNamed(m.tasks, j, task.name) ==>
            IsRunning(r.tasks[j]) && r.tasks[j].host == Some(slave.remoteAddr))
  {
    var u := SetFields(Running, Some(slave.remoteAddr));
    UpdateOneTouchesFirstMatchOnly(m.tasks, NameIs(task.name), u);
    if delivered {
      var r := SendTask(m, task, slave, delivered);
      forall j | FirstNamed(m.tasks, j, task.name)
        ensures IsRunning(r.tasks[j]) && r.tasks[j].host == Some(slave.remoteAddr)
      {
        assert FirstMatch(m.tasks, NameIs(task.name)) == Some(j);
      }
    }
  }

  /**
   * `check_if_done`: `done` becomes true exactly when every stored task is
   * successful (or it already was), and it never goes back to false.
   */
  lemma CheckIfDoneEffect(m: MasterState)
    ensures var r := CheckIfDone(m);
      && r.done == (m.done || forall j :: 0 <= j < |m.tasks| ==> IsSuccess(m.tasks[j]))
      && r == m.(done := r.done)
  {
    FindEmpty(m.tasks, NotSucceeded);
  }

  /** `assume_dead` never moves a task out of `success`: it only touches running tasks. */
  lemma AssumeDeadKeepsSuccess(m: MasterState, slave: Slave)
    ensures forall j :: 0 <= j < |m.tasks| && IsSuccess(m.tasks[j]) ==> IsSuccess(AssumeDead(m, slave).tasks[j])
  {
    EncodeInjective(Running, Success);
    AssumeDeadEffect(m, slave);
  }

  /** `connect` never moves a task out of `success`. */
  lemma ConnectKeepsSuccess(m: MasterState, addr: string)
    requires Valid(m)
    ensures forall j :: 0 <= j < |m.tasks| && IsSuccess(m.tasks[j]) ==> IsSuccess(Connect(m, addr).tasks[j])
  {
    ConnectEffect(m, addr);
    if addr in m.slaves {
      AssumeDeadKeepsSuccess(m, m.slaves[addr]);
    }
  }

  /** `complete` never moves a task out of `success`: the only state it writes is `success`. */
  lemma CompleteTaskKeepsSuccess(m: MasterState, addr: string, name: string)
    requires Valid(m)
    ensures forall j :: 0 <= j < |m.tasks| && IsSuccess(m.tasks[j]) ==> IsSuccess(CompleteTask(m, addr, name).tasks[j])
  {
    CompleteTaskEffect(m, addr, name);
  }
}
