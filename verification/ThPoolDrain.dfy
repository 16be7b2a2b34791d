/** What thpool_shutdown drains: exactly which accepted tasks are left behind when the workers are gone. */
module ThPoolDrain {
  import opened Options
  import opened Sums
  import opened Tasks
  import opened ThPoolModel
  import opened ThPoolInvariant
  import opened ThPoolTheorems
  import opened ThPoolProgress
  import opened ThPoolRuns
  import opened Trails

  /** Inserts made in a schedule when every worker had committed to leave: nobody but a try_once takes these. */
  function Orphans(s: State, es: seq<Event>): nat
    decreases |es|
  {
    if es == [] then 0 else (if Committed(s) && Inserts(s, es[0]) then 1 else 0) + Orphans(Next(s, es[0]), es[1..])
  }

  /** Tasks taken from then on, which only thpool_worker_try_once can do. */
  function Rescues(s: State, es: seq<Event>): nat
    decreases |es|
  {
    if es == [] then 0 else (if Committed(s) && Pops(s, es[0]) then 1 else 0) + Rescues(Next(s, es[0]), es[1..])
  }

  lemma {:induction false} ScheduleDrain(s: State, es: seq<Event>)
    requires Inv(s) && s.workers >= 1 && Committed(Schedule(s, es))
    ensures |Schedule(s, es).sh.queue| + Rescues(s, es)
            == Orphans(s, es) + (if Committed(s) then |s.sh.queue| else 0)
    decreases |es|
  {
    if es != [] {
      NextDrain(s, es[0]);
      NextInv(s, es[0]);
      SameShape(s, [es[0]]);
      ScheduleDrain(Next(s, es[0]), es[1..]);
    }
  }

  /** The tasks left in the queue of a pool whose workers are leaving are exactly as many as were inserted after
      the last of them had decided to leave, less those that a thpool_worker_try_once took since.  */
  lemma {:induction false} LeftBehind(workers: nat, clients: nat, size: nat, es: seq<Event>)
    requires workers >= 1 && Committed(Schedule(Init(workers, clients, size), es))
    ensures var s := Init(workers, clients, size);
            |Schedule(s, es).sh.queue| + Rescues(s, es) == Orphans(s, es)
  {
    InitInv(workers, clients, size);
    assert Init(workers, clients, size).threads[0] == Work(WTop);
    ScheduleDrain(Init(workers, clients, size), es);
  }

  /** The first n tasks ever accepted have each run exactly once. */
  predicate AllExecuted(s: State, es: seq<Event>, n: nat) {
    forall k: nat :: k < n ==> Executions(s, es, k) == 1
  }

  /** Once every worker has exited and no try_once is running, every accepted task has been executed, once, if and
      only if each insert made after the last worker's decision to leave was made good by a try_once.  Without
      try_once from then on: if and only if there was no such insert.  None after the shutdown store is enough. */
  lemma {:induction false} Drained(workers: nat, clients: nat, size: nat, es: seq<Event>)
    requires workers >= 1
    requires var r := Schedule(Init(workers, clients, size), es); AllExited(r) && NobodyRuns(r)
    ensures var s := Init(workers, clients, size);
            var r := Schedule(s, es);
            && (AllExecuted(s, es, |r.sh.accepted|) <==> Orphans(s, es) == Rescues(s, es))
            && (Rescues(s, es) == 0 ==>
                  (AllExecuted(s, es, |r.sh.accepted|) <==> Orphans(s, es) == 0))
            && (!r.sh.late ==> Orphans(s, es) == Rescues(s, es))
  {
    var s := Init(workers, clients, size);
    var r := Schedule(s, es);
    ExecutedIffEmpty(workers, clients, size, es);
    LeftBehind(workers, clients, size, es);
  }

  /** In such a state what has not run is what is queued. */
  lemma {:induction false} ExecutedIffEmpty(workers: nat, clients: nat, size: nat, es: seq<Event>)
    requires workers >= 1
    requires var r := Schedule(Init(workers, clients, size), es); AllExited(r) && NobodyRuns(r)
    ensures var s := Init(workers, clients, size);
            var r := Schedule(s, es);
            && r.workers == workers
            && (AllExecuted(s, es, |r.sh.accepted|) <==> r.sh.queue == [])
            && (!r.sh.late ==> r.sh.queue == [])
  {
    var s := Init(workers, clients, size);
    var r := Schedule(s, es);
    InitInv(workers, clients, size);
    ScheduleInv(s, es);
    SameShape(s, es);
    assert PcOk(r.sh, 0, r.threads[0]);
    SumZero(Active, r.threads);
    if r.sh.queue == [] {
      QuietMeansDone(r);
      forall k: nat | k < |r.sh.accepted| ensures Executions(s, es, k) == 1 {
        ExecutedOnce(s, es, k);
      }
    } else {
      var k := |r.sh.started|;
      assert k < |r.sh.accepted| && k !in r.sh.completed;
      ExecutedOnce(s, es, k);
      assert Executions(s, es, k) != 1;
    }
  }

  // ---------------------------------------------------------------- an orphan

  predicate NoTryOnce(es: seq<Event>) {
    forall e :: e in es && e.act.Call? ==> !e.act.op.TryOnce?
  }

  /** A rescue is a start. */
  lemma {:induction false} RescuesStart(s: State, es: seq<Event>)
    requires Inv(s)
    ensures |s.sh.started| + Rescues(s, es) <= |Schedule(s, es).sh.started|
    decreases |es|
  {
    if es != [] {
      NextStarted(s, es[0]);
      NextInv(s, es[0]);
      RescuesStart(Next(s, es[0]), es[1..]);
    }
  }

  lemma {:induction false} NextStarted(s: State, e: Event)
    requires |s.sh.owner| == |s.sh.started| && Local(s)
    ensures |Next(s, e).sh.started| == |s.sh.started| + (if Pops(s, e) then 1 else 0)
  {
    NextShape(s, e);
    if Steps(s, e) {
      assert PcOk(s.sh, e.t, s.threads[e.t]);
      ChangeHistory(s.sh, e.t, s.threads[e.t]);
    }
  }

  /** Nobody but a try_once takes a task once the workers have committed to leave: what is queued then stays. */
  lemma {:induction false} OrphansStay(s: State, es: seq<Event>)
    requires Inv(s) && s.workers >= 1 && Committed(s)
    requires forall t :: 0 <= t < |s.threads| ==> !Trying(s.threads[t])
    requires NoTryOnce(es)
    ensures s.sh.queue <= Schedule(s, es).sh.queue && Committed(Schedule(s, es))
    decreases |es|
  {
    if es != [] {
      var r := Next(s, es[0]);
      NextDrain(s, es[0]);
      NextInv(s, es[0]);
      QueueKept(s, es[0]);
      OrphansStay(r, es[1..]);
    }
  }

  lemma {:induction false} QueueKept(s: State, e: Event)
    requires |s.sh.owner| == |s.sh.started| && Local(s)
    requires forall t :: 0 <= t < |s.threads| ==> !Trying(s.threads[t])
    requires Committed(s) && Roles(s)
    requires e.act.Call? ==> !e.act.op.TryOnce?
    ensures s.sh.queue <= Next(s, e).sh.queue
    ensures forall t :: 0 <= t < |Next(s, e).threads| ==> !Trying(Next(s, e).threads[t])
  {
    NextShape(s, e);
    if Steps(s, e) {
      assert PcOk(s.sh, e.t, s.threads[e.t]);
      StepKeepsRole(s.sh, s.threads[e.t]);
      if e.t < s.workers { assert s.threads[e.t].Work?; }
      StepChange(s.sh, e.t, s.threads[e.t]);
      ChangeKeepsQueue(s.sh, e.t, Step(s.sh, s.threads[e.t]).change);
    }
  }

  lemma ChangeKeepsQueue(sh: Shared, t: nat, c: Change)
    requires !c.Dequeue?
    ensures sh.queue <= Apply(sh, t, c).queue
  {
  }

  /** thpool_shutdown up to its joins, in a pool in which nobody sleeps. */
  lemma {:induction false} ShutdownAlone(s: State, t: nat) returns (es: seq<Event>)
    requires t < |s.threads| && Ready(s.threads[t]) && s.sh.lock == None
    requires forall u :: 0 <= u < |s.threads| ==> !OnNotify(s.threads[u])
    ensures Schedule(s, es) == Put(s, s.sh.(shutdown := true, told := true), t, Joining(0))
    ensures forall e :: e in es && e.act.Call? ==> e == Event(t, Call(Shutdown))
  {
    var s1 := Put(s, s.sh.(shutdown := true, lock := Some(t)), t, Control(SBroadcast));
    StoresAlone(s, t);
    BroadcastsAlone(s1, t);
    assert s1.threads[t := Joining(0)] == s.threads[t := Joining(0)];
    es := CallThen(t, Shutdown, 2) + (Solo(t, 0, 1) + Solo(t, 0, 1));
    FoldAppend(Next, s, CallThen(t, Shutdown, 2), Solo(t, 0, 1) + Solo(t, 0, 1));
  }

  lemma {:induction false} StoresAlone(s: State, t: nat)
    requires t < |s.threads| && Ready(s.threads[t]) && s.sh.lock == None
    ensures Schedule(s, CallThen(t, Shutdown, 2))
            == Put(s, s.sh.(shutdown := true, lock := Some(t)), t, Control(SBroadcast))
  {
    Called(s, t, Shutdown, 2);
    StoreWalk(s.sh, t);
    WalkRuns(s, s.sh, t, Control(SStore), 2);
  }

  lemma {:induction false} StoreWalk(sh: Shared, t: nat)
    requires sh.lock == None
    ensures Walk(sh, t, Control(SStore), 2)
            == Place(sh.(shutdown := true, lock := Some(t)), Control(SBroadcast), true)
  {
    assert Walk(sh.(shutdown := true), t, Control(SLock), 1)
        == Place(sh.(shutdown := true, lock := Some(t)), Control(SBroadcast), true);
  }

  lemma {:induction false} BroadcastsAlone(s: State, t: nat)
    requires t < |s.threads| && s.threads[t] == Control(SBroadcast)
    requires forall u :: 0 <= u < |s.threads| ==> !OnNotify(s.threads[u])
    ensures Schedule(s, Solo(t, 0, 1) + Solo(t, 0, 1)) == Put(s, s.sh.(told := true, lock := None), t, Joining(0))
  {
    var s1 := Put(s, s.sh.(told := true), t, Control(SUnlock));
    BroadcastsToNobody(s, t);
    assert Walk(s1.sh, t, Control(SUnlock), 1) == Place(s.sh.(told := true, lock := None), Joining(0), true);
    Walks(s1, t, 1);
    assert s1.threads[t := Joining(0)] == s.threads[t := Joining(0)];
    FoldAppend(Next, s, Solo(t, 0, 1), Solo(t, 0, 1));
  }

  lemma {:induction false} BroadcastsToNobody(s: State, t: nat)
    requires t < |s.threads| && s.threads[t] == Control(SBroadcast)
    requires forall u :: 0 <= u < |s.threads| ==> !OnNotify(s.threads[u])
    ensures Schedule(s, Solo(t, 0, 1)) == Put(s, s.sh.(told := true), t, Control(SUnlock))
  {
    SoloStep(s, t, 0, 1);
    assert WakeAll(s.threads) == s.threads;
  }

  /** In every pool: after a's thpool_shutdown has returned, b's thpool_add_task returns 0, and from then on the
      task is never taken, whatever happens, unless somebody calls thpool_worker_try_once. */
  lemma {:induction false} LateInsertIsLost(workers: nat, clients: nat, size: nat, a: nat, b: nat, task: Task)
    returns (es: seq<Event>)
    requires workers >= 1 && size >= 1
    requires workers <= a < workers + clients && workers <= b < workers + clients
    ensures forall e :: e in es && e.act.Call? ==> e == Event(a, Call(Shutdown)) || e == Event(b, Call(Add(task, 0)))
    ensures var s := Init(workers, clients, size);
            var r := Schedule(s, es);
            && AllExited(r) && NobodyRuns(r) && b < |r.threads| && r.threads[b] == Idle(0)
            && r.sh.accepted == r.sh.queue == [task] && Orphans(s, es) == 1 && Rescues(s, es) == 0
            && forall more :: NoTryOnce(more) ==> r.sh.queue <= Schedule(r, more).sh.queue
  {
    var s0 := Init(workers, clients, size);
    es := ShutdownThenAdd(workers, clients, size, a, b, task);
    var r := Schedule(s0, es);
    InitInv(workers, clients, size);
    ScheduleInv(s0, es);
    SameShape(s0, es);
    RescuesStart(s0, es);
    LeftBehind(workers, clients, size, es);
    forall more | NoTryOnce(more) ensures r.sh.queue <= Schedule(r, more).sh.queue {
      OrphansStay(r, more);
    }
  }

  lemma {:induction false} ShutdownThenAdd(workers: nat, clients: nat, size: nat, a: nat, b: nat, task: Task)
    returns (es: seq<Event>)
    requires workers >= 1 && size >= 1
    requires workers <= a < workers + clients && workers <= b < workers + clients
    ensures forall e :: e in es && e.act.Call? ==> e == Event(a, Call(Shutdown)) || e == Event(b, Call(Add(task, 0)))
    ensures var r := Schedule(Init(workers, clients, size), es);
            && AllExited(r) && b < |r.threads| && r.threads[b] == Idle(0)
            && (forall u :: workers <= u < |r.threads| ==> Ready(r.threads[u]))
            && r.workers == workers && r.sh.accepted == r.sh.queue == [task] && r.sh.started == []
  {
    var s0 := Init(workers, clients, size);
    var down := ShutdownAlone(s0, a);
    var s1 := Schedule(s0, down);
    var exit := ExitWorkers(s1, 0, workers);
    var s2 := Schedule(s1, exit);
    assert Put(s2, s2.sh, a, Joining(0)) == s2 by { assert s2.threads[a := Joining(0)] == s2.threads; }
    var join := JoinAll(s2, a, 0);
    var s3 := Schedule(s2, join);
    var add := AddAlone(s3, b, task);
    es := down + (exit + (join + add));
    FoldAppend(Next, s2, join, add);
    FoldAppend(Next, s1, exit, join + add);
    FoldAppend(Next, s0, down, exit + (join + add));
  }
}
