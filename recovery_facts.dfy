/** What the startup recovery loop of `Server.__init__` rebuilds from the store. */
module RecoveryFacts {
  import opened Wrappers
  import opened TaskStates
  import opened TaskStore
  import opened Scheduling

  /** A created or killed document, and only such a document, decodes to a state recovery queues. */
  lemma NeedsRunDecoded(d: Task)
    ensures NeedsRun(d) <==> Decode(d.state) == Some(Created) || Decode(d.state) == Some(Killed)
    ensures IsRunning(d) <==> Decode(d.state) == Some(Running)
  {
    DecodeEncode(Created);
    DecodeEncode(Killed);
    DecodeEncode(Running);
  }

  /** Recovery reads the store but never writes it, and touches neither the idle queue nor `done`. */
  lemma {:induction false} RecoverFromKeeps(m: MasterState, docs: seq<Task>)
    requires forall i :: 0 <= i < |docs| ==> HostRecorded(docs[i])
    ensures var r := RecoverFrom(m, docs);
      r.tasks == m.tasks && r.idle == m.idle && r.done == m.done && r.nextHandle >= m.nextHandle
    decreases |docs|
  {
    if |docs| > 0 {
      RecoverFromKeeps(RecoveryStep(m, docs[0]), docs[1..]);
    }
  }

  /** The loop appends to the queue exactly the documents needing a run, in store order. */
  lemma {:induction false} RecoverFromQueue(m: MasterState, docs: seq<Task>)
    requires forall i :: 0 <= i < |docs| ==> HostRecorded(docs[i])
    ensures RecoverFrom(m, docs).queued == m.queued + Pending(docs)
    decreases |docs|
  {
    if |docs| > 0 {
      var m1 := RecoveryStep(m, docs[0]);
      NeedsRunDecoded(docs[0]);
      assert m1.queued == m.queued + (if NeedsRun(docs[0]) then [docs[0]] else []);
      RecoverFromQueue(m1, docs[1..]);
    }
  }

  /** One pass of the loop registers the host of a running document, and nothing else. */
  lemma RecoveryStepRegistry(m: MasterState, d: Task)
    requires Valid(m) && HostRecorded(d)
    ensures var m1 := RecoveryStep(m, d);
      && Valid(m1)
      && m1.slaves.Keys == m.slaves.Keys + (if IsRunning(d) then {d.host.value} else {})
      && (forall a :: a in m.slaves ==> m1.slaves[a] == m.slaves[a])
      && m1.nextHandle >= m.nextHandle
      && |m1.slaves| == |m.slaves| + (m1.nextHandle - m.nextHandle)
  {
    var m1 := RecoveryStep(m, d);
    assert IsRunning(d) <==> Decode(d.state) == Some(Running) by {
      NeedsRunDecoded(d);
    }
    if Decode(d.state) == Some(Running) {
      var h := d.host.value;
      if h !in m.slaves {
        assert m1 == CreateSlave(m, h);
        assert |m1.slaves| == |m.slaves| + 1;
      } else {
        assert m1 == m;
      }
    } else {
      assert m1.slaves == m.slaves && m1.nextHandle == m.nextHandle;
    }
  }

  /** The loop keeps the entries it started with and the registry invariant. */
  lemma {:induction false} RecoverFromKeepsEntries(m: MasterState, docs: seq<Task>)
    requires Valid(m)
    requires forall i :: 0 <= i < |docs| ==> HostRecorded(docs[i])
    ensures var r := RecoverFrom(m, docs);
      && Valid(r)
      && m.slaves.Keys <= r.slaves.Keys
      && (forall a :: a in m.slaves ==> r.slaves[a] == m.slaves[a])
    decreases |docs|
  {
    if |docs| > 0 {
      RecoveryStepRegistry(m, docs[0]);
      RecoverFromKeepsEntries(RecoveryStep(m, docs[0]), docs[1..]);
    }
  }

  /** The loop registers exactly the hosts of running documents. */
  lemma {:induction false} RecoverFromHosts(m: MasterState, docs: seq<Task>)
    requires Valid(m)
    requires forall i :: 0 <= i < |docs| ==> HostRecorded(docs[i])
    ensures RecoverFrom(m, docs).slaves.Keys == m.slaves.Keys + RunningHosts(docs)
    decreases |docs|
  {
    if |docs| > 0 {
      var d := docs[0];
      var m1 := RecoveryStep(m, d);
      var here: set<string> := if IsRunning(d) then {d.host.value} else {};
      var later := RunningHosts(docs[1..]);
      var keys1 := m1.slaves.Keys;
      var keysR := RecoverFrom(m, docs).slaves.Keys;
      assert Valid(m1) && keys1 == m.slaves.Keys + here by {
        RecoveryStepRegistry(m, d);
      }
      assert keysR == keys1 + later by {
        assert RecoverFrom(m, docs) == RecoverFrom(m1, docs[1..]);
        RecoverFromHosts(m1, docs[1..]);
      }
      assert RunningHosts(docs) == here + later;
    }
  }

  /** The loop builds one registry entry per newly seen host, however many of its tasks are running. */
  lemma {:induction false} RecoverFromCountsHosts(m: MasterState, docs: seq<Task>)
    requires Valid(m)
    requires forall i :: 0 <= i < |docs| ==> HostRecorded(docs[i])
    ensures var r := RecoverFrom(m, docs);
      r.nextHandle >= m.nextHandle && |r.slaves| == |m.slaves| + (r.nextHandle - m.nextHandle)
    decreases |docs|
  {
    if |docs| > 0 {
      RecoveryStepRegistry(m, docs[0]);
      RecoverFromCountsHosts(RecoveryStep(m, docs[0]), docs[1..]);
    }
  }

  /** A host is in `RunningHosts` exactly when some running document names it. */
  lemma {:induction false} RunningHostsMembers(docs: seq<Task>)
    ensures forall h :: h in RunningHosts(docs) <==>
      exists i :: 0 <= i < |docs| && IsRunning(docs[i]) && docs[i].host == Some(h)
  {
    if |docs| > 0 {
      RunningHostsMembers(docs[1..]);
      assert forall i :: 1 <= i < |docs| ==> docs[i] == docs[1..][i - 1];
      forall h | h in RunningHosts(docs)
        ensures exists i :: 0 <= i < |docs| && IsRunning(docs[i]) && docs[i].host == Some(h)
      {
        if !(IsRunning(docs[0]) && docs[0].host == Some(h)) {
          var k :| 0 <= k < |docs[1..]| && IsRunning(docs[1..][k]) && docs[1..][k].host == Some(h);
          assert docs[k + 1] == docs[1..][k];
        }
      }
    }
  }

  /** A created or killed document is queued exactly as often as it is stored; nothing else is queued. */
  lemma {:induction false} PendingExactlyOnce(docs: seq<Task>)
    ensures forall d :: multiset(Pending(docs))[d] == if NeedsRun(d) then multiset(docs)[d] else 0
  {
    if |docs| > 0 {
      PendingExactlyOnce(docs[1..]);
      assert docs == [docs[0]] + docs[1..];
    }
  }

  /** Only created and killed documents are pending: no running or successful one. */
  lemma PendingOnlyNeedsRun(docs: seq<Task>)
    ensures forall t :: t in Pending(docs) ==> NeedsRun(t) && !IsRunning(t) && !IsSuccess(t)
  {
    PendingExactlyOnce(docs);
    EncodeInjective(Created, Running);
    EncodeInjective(Created, Success);
    EncodeInjective(Killed, Running);
    EncodeInjective(Killed, Success);
    forall t | t in Pending(docs)
      ensures NeedsRun(t)
    {
      assert multiset(Pending(docs))[t] > 0;
    }
  }

  /**
   * Startup recovery: the store is kept as it is, the pending queue holds the
   * created and killed documents in store order, no running or successful task is
   * queued, every host of a running task is tracked and only those, each tracked
   * host was registered once, and no worker is idle yet.
   */
  lemma RecoveryCorrect(docs: seq<Task>)
    requires forall i :: 0 <= i < |docs| ==> HostRecorded(docs[i])
    ensures var r := Recover(docs);
      && Valid(r)
      && r.tasks == docs && r.idle == [] && !r.done
      && r.queued == Pending(docs)
      && (forall t :: t in r.queued ==> NeedsRun(t) && !IsRunning(t) && !IsSuccess(t))
      && (forall i :: 0 <= i < |docs| && IsRunning(docs[i]) ==> docs[i].host.value in r.slaves)
      && (forall a :: a in r.slaves ==> exists i :: 0 <= i < |docs| && IsRunning(docs[i]) && docs[i].host == Some(a))
      && r.nextHandle == |r.slaves|
  {
    var r := Recover(docs);
    var init := Initial(docs);
    assert Valid(init);
    assert r.tasks == docs && r.idle == [] && !r.done by {
      RecoverFromKeeps(init, docs);
    }
    assert r.queued == Pending(docs) by {
      RecoverFromQueue(init, docs);
    }
    assert Valid(r) by {
      RecoverFromKeepsEntries(init, docs);
    }
    assert r.slaves.Keys == RunningHosts(docs) by {
      RecoverFromHosts(init, docs);
    }
    assert r.nextHandle == |r.slaves| by {
      RecoverFromCountsHosts(init, docs);
    }
    assert forall t :: t in r.queued ==> NeedsRun(t) && !IsRunning(t) && !IsSuccess(t) by {
      PendingOnlyNeedsRun(docs);
    }
    var hosts := RunningHosts(docs);
    RunningHostsMembers(docs);
    forall i | 0 <= i < |docs| && IsRunning(docs[i])
      ensures docs[i].host.value in r.slaves
    {
      assert docs[i].host.value in hosts;
    }
    forall a | a in r.slaves
      ensures exists i :: 0 <= i < |docs| && IsRunning(docs[i]) && docs[i].host == Some(a)
    {
      assert a in hosts;
    }
  }
}
