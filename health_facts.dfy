/** What one pass of `health_loop` does: probe the snapshot of the registry, reclaim, re-check completion. */
module HealthFacts {
  import opened Wrappers
  import opened TaskStates
  import opened TaskStore
  import opened Scheduling
  import opened HandlerFacts

  /** The state after the probe of the first snapshot entry. */
  function ProbeHead(m: MasterState, snapshot: seq<Slave>, alive: seq<bool>): MasterState
    requires |alive| == |snapshot| > 0
  {
    if alive[0] then m else AssumeDead(m, snapshot[0])
  }

  /** The probe of entry `i` failed while document `j` was running on that worker. */
  predicate FailedWhileRunning(m: MasterState, snapshot: seq<Slave>, alive: seq<bool>, i: int, j: int)
    requires |alive| == |snapshot|
  {
    0 <= i < |snapshot| && !alive[i] && 0 <= j < |m.tasks| && Matches(m.tasks[j], RunningOn(snapshot[i].remoteAddr))
  }

  /** Going from `before` to `after`, a task of worker `addr` was appended to the pending queue. */
  predicate RequeuedFor(before: MasterState, after: MasterState, addr: string)
  {
    exists k :: |before.queued| <= k < |after.queued| && after.queued[k].host == Some(addr)
  }

  /** Going from `before` to `after`, a task running on worker `addr` was set to killed in the store. */
  predicate KilledInStore(before: MasterState, after: MasterState, addr: string)
  {
    exists c :: 0 <= c < |before.tasks| && c < |after.tasks| && Matches(before.tasks[c], RunningOn(addr)) &&
      after.tasks[c] == before.tasks[c].(state := Encode(Killed))
  }

  /**
   * Entry `k` of the pending queue after the pass is the killed form of a
   * document that was running on a failed worker, and the store now holds
   * that killed form in the document's place.
   */
  predicate ReclaimedFrom(before: MasterState, after: MasterState, snapshot: seq<Slave>, alive: seq<bool>, k: int)
    requires |alive| == |snapshot|
  {
    && 0 <= k < |after.queued|
    && exists c :: 0 <= c < |before.tasks| && c < |after.tasks| &&
         IsRunning(before.tasks[c]) && before.tasks[c].host.Some? &&
         before.tasks[c].host.value in FailedAddrs(snapshot, alive) &&
         after.queued[k] == before.tasks[c].(state := Encode(Killed)) && after.tasks[c] == after.queued[k]
  }

  /** Some document of the store is running on worker `addr`. */
  predicate HasRunning(m: MasterState, addr: string)
  {
    exists j :: 0 <= j < |m.tasks| && Matches(m.tasks[j], RunningOn(addr))
  }

  /** Reference definition of the workers a pass reclaims from: failed probe and a running task. */
  function FailedRunning(m: MasterState, snapshot: seq<Slave>, alive: seq<bool>): set<string>
    requires |alive| == |snapshot|
  {
    set a | a in FailedAddrs(snapshot, alive) && HasRunning(m, a)
  }

  /** An address is in `FailedAddrs` exactly when some snapshot entry for it failed its probe. */
  lemma {:induction false} FailedAddrsMembers(snapshot: seq<Slave>, alive: seq<bool>)
    requires |alive| == |snapshot|
    ensures forall a :: a in FailedAddrs(snapshot, alive) <==>
      exists i :: 0 <= i < |snapshot| && !alive[i] && snapshot[i].remoteAddr == a
  {
    if |snapshot| > 0 {
      FailedAddrsMembers(snapshot[1..], alive[1..]);
      assert FailedAddrs(snapshot, alive) ==
        (if alive[0] then {} else {snapshot[0].remoteAddr}) + FailedAddrs(snapshot[1..], alive[1..]);
      forall a | a in FailedAddrs(snapshot, alive)
        ensures exists i :: 0 <= i < |snapshot| && !alive[i] && snapshot[i].remoteAddr == a
      {
        if alive[0] || snapshot[0].remoteAddr != a {
          var k :| 0 <= k < |snapshot[1..]| && !alive[1..][k] && snapshot[1..][k].remoteAddr == a;
          assert !alive[k + 1] && snapshot[k + 1].remoteAddr == a;
        }
      }
      forall a, i | 0 <= i < |snapshot| && !alive[i] && snapshot[i].remoteAddr == a
        ensures a in FailedAddrs(snapshot, alive)
      {
        if i > 0 {
          assert !alive[1..][i - 1] && snapshot[1..][i - 1].remoteAddr == a;
        }
      }
    }
  }

  /** Every address failing later in a listed snapshot differs from the first entry's. */
  lemma FailedAddrsTail(m: MasterState, snapshot: seq<Slave>, alive: seq<bool>)
    requires |alive| == |snapshot| > 0 && Listed(m.slaves, snapshot)
    ensures snapshot[0].remoteAddr !in FailedAddrs(snapshot[1..], alive[1..])
  {
    FailedAddrsMembers(snapshot[1..], alive[1..]);
  }

  /** Probing the first entry leaves the rest of a listed snapshot listed. */
  lemma ListedTail(m: MasterState, snapshot: seq<Slave>, alive: seq<bool>)
    requires |alive| == |snapshot| > 0 && Listed(m.slaves, snapshot)
    ensures Listed(ProbeHead(m, snapshot, alive).slaves, snapshot[1..])
  {
    if !alive[0] {
      AssumeDeadEffect(m, snapshot[0]);
    }
  }

  /** Given a snapshot of the registry, no `assume_dead` of the pass hits its `KeyError`. */
  lemma {:induction false} ProbeNeverRaises(m: MasterState, snapshot: seq<Slave>, alive: seq<bool>)
    requires |alive| == |snapshot| && Listed(m.slaves, snapshot)
    ensures !ProbeRaises(m, snapshot, alive)
    decreases |snapshot|
  {
    if |snapshot| > 0 {
      ListedTail(m, snapshot, alive);
      ProbeNeverRaises(ProbeHead(m, snapshot, alive), snapshot[1..], alive[1..]);
    }
  }

  /** The pass forgets exactly the workers whose probe failed; idle queue, `done` and handles untouched. */
  lemma {:induction false} ProbeRegistry(m: MasterState, snapshot: seq<Slave>, alive: seq<bool>)
    requires |alive| == |snapshot| && Listed(m.slaves, snapshot)
    ensures var r := Probe(m, snapshot, alive);
      && r.slaves == m.slaves - FailedAddrs(snapshot, alive)
      && r.idle == m.idle && r.done == m.done && r.nextHandle == m.nextHandle && r.dispatcher == m.dispatcher
    decreases |snapshot|
  {
    if |snapshot| > 0 {
      var m1 := ProbeHead(m, snapshot, alive);
      AssumeDeadEffect(m, snapshot[0]);
      ListedTail(m, snapshot, alive);
      FailedAddrsTail(m, snapshot, alive);
      ProbeRegistry(m1, snapshot[1..], alive[1..]);
      assert m1.slaves == m.slaves - (if alive[0] then {} else {snapshot[0].remoteAddr});
    }
  }

  /** The pass keeps the registry invariant. */
  lemma {:induction false} ProbeValid(m: MasterState, snapshot: seq<Slave>, alive: seq<bool>)
    requires |alive| == |snapshot| && Valid(m)
    ensures Valid(Probe(m, snapshot, alive))
    decreases |snapshot|
  {
    if |snapshot| > 0 {
      if !alive[0] {
        AssumeDeadValid(m, snapshot[0]);
      }
      ProbeValid(ProbeHead(m, snapshot, alive), snapshot[1..], alive[1..]);
    }
  }

  /**
   * The only documents the pass changes are running tasks of workers whose
   * probe failed, each turned into the same document in state killed.
   */
  lemma {:induction false} ProbeTasks(m: MasterState, snapshot: seq<Slave>, alive: seq<bool>)
    requires |alive| == |snapshot|
    ensures var r := Probe(m, snapshot, alive);
      && |r.tasks| == |m.tasks|
      && (forall j :: 0 <= j < |m.tasks| && r.tasks[j] != m.tasks[j] ==>
            IsRunning(m.tasks[j]) && m.tasks[j].host.Some? &&
            m.tasks[j].host.value in FailedAddrs(snapshot, alive) &&
            r.tasks[j] == m.tasks[j].(state := Encode(Killed)))
    decreases |snapshot|
  {
    if |snapshot| > 0 {
      var m1 := ProbeHead(m, snapshot, alive);
      var r := Probe(m, snapshot, alive);
      AssumeDeadEffect(m, snapshot[0]);
      ProbeTasks(m1, snapshot[1..], alive[1..]);
      EncodeInjective(Running, Killed);
      forall j | 0 <= j < |m.tasks| && r.tasks[j] != m.tasks[j]
        ensures IsRunning(m.tasks[j]) && m.tasks[j].host.Some? &&
          m.tasks[j].host.value in FailedAddrs(snapshot, alive) &&
          r.tasks[j] == m.tasks[j].(state := Encode(Killed))
      {
        if m1.tasks[j] != m.tasks[j] {
          assert !IsRunning(m1.tasks[j]);
        }
      }
    }
  }

  /** The pass kills at most one task per worker: no two documents it changes share a host. */
  lemma {:induction false} ProbeKillsOnePerWorker(m: MasterState, snapshot: seq<Slave>, alive: seq<bool>)
    requires |alive| == |snapshot| && Listed(m.slaves, snapshot)
    ensures var r := Probe(m, snapshot, alive);
      && |r.tasks| == |m.tasks|
      && forall j1, j2 :: 0 <= j1 < j2 < |m.tasks| && r.tasks[j1] != m.tasks[j1] && r.tasks[j2] != m.tasks[j2] ==>
           m.tasks[j1].host != m.tasks[j2].host
    decreases |snapshot|
  {
    if |snapshot| > 0 {
      var m1 := ProbeHead(m, snapshot, alive);
      var r := Probe(m, snapshot, alive);
      var a0 := snapshot[0].remoteAddr;
      assert r == Probe(m1, snapshot[1..], alive[1..]);
      ListedTail(m, snapshot, alive);
      ProbeKillsOnePerWorker(m1, snapshot[1..], alive[1..]);
      assert |m1.tasks| == |m.tasks| &&
        (forall j :: 0 <= j < |m.tasks| && m1.tasks[j] != m.tasks[j] ==>
           m.tasks[j].host == Some(a0) && !IsRunning(m1.tasks[j])) &&
        (forall j, k :: 0 <= j < |m.tasks| && 0 <= k < |m.tasks| && j != k && m1.tasks[j] != m.tasks[j] ==>
           m1.tasks[k] == m.tasks[k]) by {
        AssumeDeadEffect(m, snapshot[0]);
        EncodeInjective(Running, Killed);
      }
      assert |r.tasks| == |m1.tasks| &&
        forall j :: 0 <= j < |m1.tasks| && r.tasks[j] != m1.tasks[j] ==>
          IsRunning(m1.tasks[j]) && m1.tasks[j].host.Some? &&
          m1.tasks[j].host.value in FailedAddrs(snapshot[1..], alive[1..]) by {
        ProbeTasks(m1, snapshot[1..], alive[1..]);
      }
      assert a0 !in FailedAddrs(snapshot[1..], alive[1..]) by {
        FailedAddrsTail(m, snapshot, alive);
      }
      forall j1, j2 | 0 <= j1 < j2 < |m.tasks| && r.tasks[j1] != m.tasks[j1] && r.tasks[j2] != m.tasks[j2]
        ensures m.tasks[j1].host != m.tasks[j2].host
      {
        if m1.tasks[j1] != m.tasks[j1] {
          assert m1.tasks[j2] == m.tasks[j2];
        } else if m1.tasks[j2] != m.tasks[j2] {
          assert m1.tasks[j1] == m.tasks[j1];
        }
      }
    }
  }

  /**
   * The pass only appends to the pending queue, and what it appends are
   * killed tasks of workers whose probe failed.
   */
  lemma {:induction false} ProbeQueue(m: MasterState, snapshot: seq<Slave>, alive: seq<bool>)
    requires |alive| == |snapshot|
    ensures var r := Probe(m, snapshot, alive);
      && |r.queued| >= |m.queued| && r.queued[..|m.queued|] == m.queued
      && (forall k :: |m.queued| <= k < |r.queued| ==>
            r.queued[k].state == Encode(Killed) && r.queued[k].host.Some? &&
            r.queued[k].host.value in FailedAddrs(snapshot, alive))
    decreases |snapshot|
  {
    if |snapshot| > 0 {
      var m1 := ProbeHead(m, snapshot, alive);
      if !alive[0] {
        FindOneAndUpdatePreImage(m.tasks, RunningOn(snapshot[0].remoteAddr), SetFields(Killed, None));
      }
      ProbeQueue(m1, snapshot[1..], alive[1..]);
    }
  }

  /**
   * Every worker whose probe failed while one of its tasks was running gets
   * a killed task of its own appended to the pending queue.
   */
  lemma {:induction false} ProbeReclaims(m: MasterState, snapshot: seq<Slave>, alive: seq<bool>)
    requires |alive| == |snapshot| && Listed(m.slaves, snapshot)
    ensures forall i, j :: FailedWhileRunning(m, snapshot, alive, i, j) ==>
      RequeuedFor(m, Probe(m, snapshot, alive), snapshot[i].remoteAddr)
    decreases |snapshot|
  {
    if |snapshot| > 0 {
      var m1 := ProbeHead(m, snapshot, alive);
      var r := Probe(m, snapshot, alive);
      AssumeDeadEffect(m, snapshot[0]);
      ListedTail(m, snapshot, alive);
      ProbeQueue(m1, snapshot[1..], alive[1..]);
      ProbeReclaims(m1, snapshot[1..], alive[1..]);
      forall i, j | FailedWhileRunning(m, snapshot, alive, i, j)
        ensures RequeuedFor(m, r, snapshot[i].remoteAddr)
      {
        var a := snapshot[i].remoteAddr;
        if i == 0 {
          var c :| 0 <= c < |m.tasks| && m1.tasks[c] != m.tasks[c] && m1.queued == m.queued + [m1.tasks[c]];
          assert r.queued[..|m1.queued|] == m1.queued;
          assert r.queued[|m.queued|] == m1.tasks[c];
        } else {
          assert snapshot[1..][i - 1] == snapshot[i] && !alive[1..][i - 1];
          assert a != snapshot[0].remoteAddr;
          assert m1.tasks[j] == m.tasks[j];
          assert FailedWhileRunning(m1, snapshot[1..], alive[1..], i - 1, j);
          var k :| |m1.queued| <= k < |r.queued| && r.queued[k].host == Some(a);
        }
      }
    }
  }

  /** The task the probe of the first entry appends, if any, is reclaimed from that worker. */
  lemma ProbeHeadReclaimed(m: MasterState, snapshot: seq<Slave>, alive: seq<bool>)
    requires |alive| == |snapshot| > 0
    requires |ProbeHead(m, snapshot, alive).queued| > |m.queued|
    ensures ReclaimedFrom(m, Probe(m, snapshot, alive), snapshot, alive, |m.queued|)
  {
    var m1 := ProbeHead(m, snapshot, alive);
    var r := Probe(m, snapshot, alive);
    var a0 := snapshot[0].remoteAddr;
    var u := SetFields(Killed, None);
    assert r == Probe(m1, snapshot[1..], alive[1..]);
    var c :| 0 <= c < |m.tasks| && Matches(m.tasks[c], RunningOn(a0)) &&
      m1.tasks[c] == m.tasks[c].(state := Encode(Killed)) && m1.queued == m.queued + [m1.tasks[c]] by {
      var (t, pre) := FindOneAndUpdate(m.tasks, RunningOn(a0), u);
      FindOneAndUpdatePreImage(m.tasks, RunningOn(a0), u);
    }
    assert !alive[0] && a0 in FailedAddrs(snapshot, alive) by {
      assert FailedAddrs(snapshot, alive) ==
        (if alive[0] then {} else {a0}) + FailedAddrs(snapshot[1..], alive[1..]);
    }
    assert r.queued[|m.queued|] == m1.tasks[c] by {
      ProbeQueue(m1, snapshot[1..], alive[1..]);
      assert r.queued[..|m1.queued|] == m1.queued;
    }
    assert |r.tasks| == |m1.tasks| && r.tasks[c] == m1.tasks[c] by {
      ProbeTasks(m1, snapshot[1..], alive[1..]);
      EncodeInjective(Running, Killed);
    }
    assert Matches(m.tasks[c], RunningOn(a0));
    assert IsRunning(m.tasks[c]) && m.tasks[c].host == Some(a0);
  }

  /**
   * Entry `k` of those the pass appends to the pending queue is the killed
   * form of a document that was running on a failed worker, and the store now
   * holds that killed form in the document's place.
   */
  lemma {:induction false} ProbeReclaimedAt(m: MasterState, snapshot: seq<Slave>, alive: seq<bool>, k: int)
    requires |alive| == |snapshot| && Listed(m.slaves, snapshot)
    requires |m.queued| <= k < |Probe(m, snapshot, alive).queued|
    ensures ReclaimedFrom(m, Probe(m, snapshot, alive), snapshot, alive, k)
    decreases |snapshot|
  {
    var m1 := ProbeHead(m, snapshot, alive);
    var r := Probe(m, snapshot, alive);
    if k >= |m1.queued| {
      assert r == Probe(m1, snapshot[1..], alive[1..]);
      ListedTail(m, snapshot, alive);
      ProbeReclaimedAt(m1, snapshot[1..], alive[1..], k);
      var c :| 0 <= c < |m1.tasks| && c < |r.tasks| &&
        IsRunning(m1.tasks[c]) && m1.tasks[c].host.Some? &&
        m1.tasks[c].host.value in FailedAddrs(snapshot[1..], alive[1..]) &&
        r.queued[k] == m1.tasks[c].(state := Encode(Killed)) && r.tasks[c] == r.queued[k];
      assert |m1.tasks| == |m.tasks| && m1.tasks[c] == m.tasks[c] by {
        AssumeDeadEffect(m, snapshot[0]);
        EncodeInjective(Running, Killed);
      }
      assert FailedAddrs(snapshot[1..], alive[1..]) <= FailedAddrs(snapshot, alive) by {
        assert FailedAddrs(snapshot, alive) ==
          (if alive[0] then {} else {snapshot[0].remoteAddr}) + FailedAddrs(snapshot[1..], alive[1..]);
      }
    } else {
      assert k == |m.queued| by {
        AssumeDeadEffect(m, snapshot[0]);
      }
      ProbeHeadReclaimed(m, snapshot, alive);
    }
  }

  /** Every task the pass appends is reclaimed from a failed worker's running document. */
  lemma ProbeAppendsReclaimed(m: MasterState, snapshot: seq<Slave>, alive: seq<bool>)
    requires |alive| == |snapshot| && Listed(m.slaves, snapshot)
    ensures var r := Probe(m, snapshot, alive);
      forall k :: |m.queued| <= k < |r.queued| ==> ReclaimedFrom(m, r, snapshot, alive, k)
  {
    forall k | |m.queued| <= k < |Probe(m, snapshot, alive).queued|
      ensures ReclaimedFrom(m, Probe(m, snapshot, alive), snapshot, alive, k)
    {
      ProbeReclaimedAt(m, snapshot, alive, k);
    }
  }

  /** No two tasks the pass appends to the pending queue belong to the same worker. */
  lemma {:induction false} ProbeAppendsDistinct(m: MasterState, snapshot: seq<Slave>, alive: seq<bool>)
    requires |alive| == |snapshot| && Listed(m.slaves, snapshot)
    ensures var r := Probe(m, snapshot, alive);
      forall k1, k2 :: |m.queued| <= k1 < k2 < |r.queued| ==> r.queued[k1].host != r.queued[k2].host
    decreases |snapshot|
  {
    if |snapshot| > 0 {
      var m1 := ProbeHead(m, snapshot, alive);
      var r := Probe(m, snapshot, alive);
      var a0 := snapshot[0].remoteAddr;
      ListedTail(m, snapshot, alive);
      FailedAddrsTail(m, snapshot, alive);
      ProbeAppendsDistinct(m1, snapshot[1..], alive[1..]);
      ProbeQueue(m1, snapshot[1..], alive[1..]);
      assert |m.queued| <= |m1.queued| <= |m.queued| + 1 &&
        (|m1.queued| > |m.queued| ==> m1.queued[|m.queued|].host == Some(a0)) by {
        AssumeDeadEffect(m, snapshot[0]);
      }
      if |m1.queued| > |m.queued| {
        var k := |m.queued|;
        assert r.queued[k] == m1.queued[k] by {
          assert r.queued[..|m1.queued|] == m1.queued;
        }
        forall k2 | k < k2 < |r.queued|
          ensures r.queued[k].host != r.queued[k2].host
        {
          assert r.queued[k2].host.value in FailedAddrs(snapshot[1..], alive[1..]);
        }
      }
    }
  }

  /** An appended task of worker `a` reclaimed from the store means a task of `a` was killed there. */
  lemma ReclaimedKills(m: MasterState, r: MasterState, snapshot: seq<Slave>, alive: seq<bool>, k: int, a: string)
    requires |alive| == |snapshot| && ReclaimedFrom(m, r, snapshot, alive, k) && r.queued[k].host == Some(a)
    ensures KilledInStore(m, r, a)
  {
    var c :| 0 <= c < |m.tasks| && c < |r.tasks| &&
      IsRunning(m.tasks[c]) && m.tasks[c].host.Some? &&
      m.tasks[c].host.value in FailedAddrs(snapshot, alive) &&
      r.queued[k] == m.tasks[c].(state := Encode(Killed)) && r.tasks[c] == r.queued[k];
    assert Matches(m.tasks[c], RunningOn(a));
  }

  /** The worker of failed probe `i`, running document `j`, has a task killed in the store. */
  lemma ProbeKillsFor(m: MasterState, snapshot: seq<Slave>, alive: seq<bool>, i: int, j: int)
    requires |alive| == |snapshot| && Listed(m.slaves, snapshot)
    requires FailedWhileRunning(m, snapshot, alive, i, j)
    ensures KilledInStore(m, Probe(m, snapshot, alive), snapshot[i].remoteAddr)
  {
    var r := Probe(m, snapshot, alive);
    var a := snapshot[i].remoteAddr;
    assert RequeuedFor(m, r, a) by {
      ProbeReclaims(m, snapshot, alive);
    }
    var k :| |m.queued| <= k < |r.queued| && r.queued[k].host == Some(a);
    ProbeReclaimedAt(m, snapshot, alive, k);
    ReclaimedKills(m, r, snapshot, alive, k, a);
  }

  /** Every failed worker that was running a task has one of them killed in the store. */
  lemma ProbeKillsInStore(m: MasterState, snapshot: seq<Slave>, alive: seq<bool>)
    requires |alive| == |snapshot| && Listed(m.slaves, snapshot)
    ensures forall i, j :: FailedWhileRunning(m, snapshot, alive, i, j) ==>
      KilledInStore(m, Probe(m, snapshot, alive), snapshot[i].remoteAddr)
  {
    forall i, j | FailedWhileRunning(m, snapshot, alive, i, j)
      ensures KilledInStore(m, Probe(m, snapshot, alive), snapshot[i].remoteAddr)
    {
      ProbeKillsFor(m, snapshot, alive, i, j);
    }
  }

  /** Running tasks on worker `a` are the same before and after a step that only touches `a0`'s tasks. */
  lemma HasRunningElsewhere(m: MasterState, m1: MasterState, a0: string, a: string)
    requires |m1.tasks| == |m.tasks| && a != a0
    requires forall j :: 0 <= j < |m.tasks| && m1.tasks[j] != m.tasks[j] ==>
      m.tasks[j].host == Some(a0) && m1.tasks[j].host == Some(a0)
    ensures HasRunning(m1, a) == HasRunning(m, a)
  {
    if HasRunning(m, a) {
      var j :| 0 <= j < |m.tasks| && Matches(m.tasks[j], RunningOn(a));
      assert Matches(m1.tasks[j], RunningOn(a));
    }
    if HasRunning(m1, a) {
      var j :| 0 <= j < |m1.tasks| && Matches(m1.tasks[j], RunningOn(a));
      assert Matches(m.tasks[j], RunningOn(a));
    }
  }

  /**
   * The first probe of a pass: it appends one task exactly when it fails on a
   * worker that was running one, and the workers reclaimed from later in the
   * pass are the remaining ones.
   */
  lemma FailedRunningHead(m: MasterState, snapshot: seq<Slave>, alive: seq<bool>)
    requires |alive| == |snapshot| > 0 && Listed(m.slaves, snapshot)
    ensures var m1 := ProbeHead(m, snapshot, alive); var a0 := snapshot[0].remoteAddr;
      var here := !alive[0] && HasRunning(m, a0);
      && |m1.queued| == |m.queued| + (if here then 1 else 0)
      && FailedRunning(m, snapshot, alive) ==
           FailedRunning(m1, snapshot[1..], alive[1..]) + (if here then {a0} else {})
      && a0 !in FailedRunning(m1, snapshot[1..], alive[1..])
  {
    var m1 := ProbeHead(m, snapshot, alive);
    var a0 := snapshot[0].remoteAddr;
    var tail := FailedRunning(m1, snapshot[1..], alive[1..]);
    assert a0 !in tail by {
      FailedAddrsTail(m, snapshot, alive);
    }
    assert FailedAddrs(snapshot, alive) ==
      (if alive[0] then {} else {a0}) + FailedAddrs(snapshot[1..], alive[1..]);
    if !alive[0] {
      assert |m1.tasks| == |m.tasks| &&
        (forall j :: 0 <= j < |m.tasks| && m1.tasks[j] != m.tasks[j] ==>
           m.tasks[j].host == Some(a0) && m1.tasks[j].host == Some(a0)) &&
        (HasRunning(m, a0) ==> |m1.queued| == |m.queued| + 1) &&
        (!HasRunning(m, a0) ==> m1.queued == m.queued) by {
        AssumeDeadEffect(m, snapshot[0]);
      }
      forall a | a != a0
        ensures HasRunning(m1, a) == HasRunning(m, a)
      {
        HasRunningElsewhere(m, m1, a0, a);
      }
    }
  }

  /** The pass appends exactly as many tasks as there are failed workers that were running one. */
  lemma {:induction false} ProbeCount(m: MasterState, snapshot: seq<Slave>, alive: seq<bool>)
    requires |alive| == |snapshot| && Listed(m.slaves, snapshot)
    ensures |Probe(m, snapshot, alive).queued| == |m.queued| + |FailedRunning(m, snapshot, alive)|
    decreases |snapshot|
  {
    if |snapshot| > 0 {
      var m1 := ProbeHead(m, snapshot, alive);
      var a0 := snapshot[0].remoteAddr;
      var tail := FailedRunning(m1, snapshot[1..], alive[1..]);
      ListedTail(m, snapshot, alive);
      ProbeCount(m1, snapshot[1..], alive[1..]);
      FailedRunningHead(m, snapshot, alive);
      if !alive[0] && HasRunning(m, a0) {
        assert |tail + {a0}| == |tail| + 1;
      }
    }
  }

  /**
   * One iteration of `health_loop`: none once `done` is set. Otherwise, given a
   * snapshot of the registry: no `assume_dead` raises, exactly the workers whose
   * probe failed are forgotten, the only documents changed are their running
   * tasks (now killed), the pending queue only grows, by killed tasks of those
   * workers, each such worker that was running a task has exactly one of its
   * tasks killed in the store and exactly one requeued, and `done` is then set
   * exactly when every task is successful.
   */
  lemma HealthPassEffect(m: MasterState, snapshot: seq<Slave>, alive: seq<bool>)
    requires Valid(m) && |alive| == |snapshot| && SnapshotOf(m.slaves, snapshot)
    ensures var r := HealthPass(m, snapshot, alive);
      && (m.done ==> r == m)
      && (!m.done ==>
            && !ProbeRaises(m, snapshot, alive)
            && Valid(r)
            && r.slaves == m.slaves - FailedAddrs(snapshot, alive)
            && r.idle == m.idle && r.dispatcher == m.dispatcher
            && |r.tasks| == |m.tasks|
            && (forall j :: 0 <= j < |m.tasks| && r.tasks[j] != m.tasks[j] ==>
                  IsRunning(m.tasks[j]) && m.tasks[j].host.Some? &&
                  m.tasks[j].host.value in FailedAddrs(snapshot, alive) &&
                  r.tasks[j] == m.tasks[j].(state := Encode(Killed)))
            && |r.queued| >= |m.queued| && r.queued[..|m.queued|] == m.queued
            && (forall k :: |m.queued| <= k < |r.queued| ==>
                  r.queued[k].state == Encode(Killed) && r.queued[k].host.Some? &&
                  r.queued[k].host.value in FailedAddrs(snapshot, alive))
            && (forall k :: |m.queued| <= k < |r.queued| ==> ReclaimedFrom(m, r, snapshot, alive, k))
            && (forall k1, k2 :: |m.queued| <= k1 < k2 < |r.queued| ==> r.queued[k1].host != r.queued[k2].host)
            && |r.queued| == |m.queued| + |FailedRunning(m, snapshot, alive)|
            && (forall j1, j2 :: 0 <= j1 < j2 < |m.tasks| && r.tasks[j1] != m.tasks[j1] && r.tasks[j2] != m.tasks[j2] ==>
                  m.tasks[j1].host != m.tasks[j2].host)
            && (forall i, j :: FailedWhileRunning(m, snapshot, alive, i, j) ==>
                  KilledInStore(m, r, snapshot[i].remoteAddr) && RequeuedFor(m, r, snapshot[i].remoteAddr))
            && r.done == forall j :: 0 <= j < |r.tasks| ==> IsSuccess(r.tasks[j]))
  {
    if !m.done {
      var p := Probe(m, snapshot, alive);
      var r := HealthPass(m, snapshot, alive);
      ProbeNeverRaises(m, snapshot, alive);
      ProbeRegistry(m, snapshot, alive);
      ProbeValid(m, snapshot, alive);
      ProbeTasks(m, snapshot, alive);
      ProbeQueue(m, snapshot, alive);
      ProbeAppendsDistinct(m, snapshot, alive);
      ProbeKillsOnePerWorker(m, snapshot, alive);
      ProbeCount(m, snapshot, alive);
      CheckIfDoneEffect(p);
      assert r.tasks == p.tasks && r.queued == p.queued;
      forall k | |m.queued| <= k < |r.queued|
        ensures ReclaimedFrom(m, r, snapshot, alive, k)
      {
        ProbeReclaimedAt(m, snapshot, alive, k);
      }
      forall i, j | FailedWhileRunning(m, snapshot, alive, i, j)
        ensures KilledInStore(m, r, snapshot[i].remoteAddr) && RequeuedFor(m, r, snapshot[i].remoteAddr)
      {
        ProbeKillsFor(m, snapshot, alive, i, j);
        assert RequeuedFor(m, p, snapshot[i].remoteAddr) by {
          ProbeReclaims(m, snapshot, alive);
        }
      }
    }
  }
}
