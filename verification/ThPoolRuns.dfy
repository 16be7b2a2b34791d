/** Building blocks of runs: what one thread does while the others stand still. */
module ThPoolRuns {
  import opened Options
  import opened Tasks
  import opened ThPoolModel
  import opened ThPoolTheorems
  import opened ThPoolProgress
  import opened Trails

  /** Among the calls made, thpool_wait is by a thread in `waiters`, thpool_worker_try_once by one in `tries`. */
  predicate Obeys(es: seq<Event>, waiters: set<nat>, tries: set<nat>) {
    forall e :: e in es && e.act.Call? ==> (e.act.op.Wait? ==> e.t in waiters) && (e.act.op.TryOnce? ==> e.t in tries)
  }

  /** Nobody makes a call. */
  predicate NoCalls(es: seq<Event>) {
    forall e :: e in es ==> !e.act.Call?
  }

  /** State s with the pool at `sh` and thread t at `pc`. */
  function Put(s: State, sh: Shared, t: nat, pc: Pc): State
    requires t < |s.threads|
  {
    s.(sh := sh, threads := s.threads[t := pc])
  }

  /** Thread t and the pool after k steps of t alone; `silent` if none of them touched a sleeper. */
  datatype Place = Place(sh: Shared, pc: Pc, silent: bool)

  function Walk(sh: Shared, t: nat, pc: Pc, k: nat): Place
    decreases k
  {
    if k == 0 then Place(sh, pc, true)
    else if pc.Joining? || Broadcasts(pc) || SignalsEmpty(pc) || SignalsNotify(pc) then Place(sh, pc, false)
    else var m := Step(sh, pc); Walk(Apply(sh, t, m.change), t, m.pc, k - 1)
  }

  lemma {:induction false} WalkRuns(s: State, sh: Shared, t: nat, pc: Pc, k: nat)
    requires t < |s.threads| && Walk(sh, t, pc, k).silent
    ensures var p := Walk(sh, t, pc, k); Schedule(Put(s, sh, t, pc), Solo(t, 0, k)) == Put(s, p.sh, t, p.pc)
    decreases k
  {
    if k > 0 {
      var m := Step(sh, pc);
      SoloStep(Put(s, sh, t, pc), t, 0, k);
      assert s.threads[t := pc][t := m.pc] == s.threads[t := m.pc];
      WalkRuns(s, Apply(sh, t, m.change), t, m.pc, k - 1);
    }
  }

  /** k steps of t from where it stands. */
  lemma {:induction false} Walks(s: State, t: nat, k: nat)
    requires t < |s.threads| && Walk(s.sh, t, s.threads[t], k).silent
    ensures var p := Walk(s.sh, t, s.threads[t], k); Schedule(s, Solo(t, 0, k)) == Put(s, p.sh, t, p.pc)
  {
    assert s.threads[t := s.threads[t]] == s.threads;
    WalkRuns(s, s.sh, t, s.threads[t], k);
  }

  /** A signal on notify while nobody sleeps there. */
  lemma {:induction false} SignalsNobody(s: State, t: nat)
    requires t < |s.threads| && s.threads[t] == Adding(ASignal)
    requires forall u :: 0 <= u < |s.threads| ==> !OnNotify(s.threads[u])
    ensures Schedule(s, Solo(t, 0, 1)) == Put(s, s.sh, t, Adding(AUnlock))
  {
    SoloStep(s, t, 0, 1);
  }

  /** A call, then k steps of the caller. */
  function CallThen(t: nat, op: Op, k: nat): seq<Event> {
    [Event(t, Call(op))] + Solo(t, 0, k)
  }

  lemma {:induction false} Called(s: State, t: nat, op: Op, k: nat)
    requires t < |s.threads| && Ready(s.threads[t])
    ensures Schedule(s, CallThen(t, op, k)) == Schedule(Put(s, s.sh, t, Start(s.sh, op)), Solo(t, 0, k))
  {
    assert CallThen(t, op, k)[1..] == Solo(t, 0, k);
  }

  /** The pool with one more task accepted. */
  function Added(sh: Shared, task: Task): Shared {
    sh.(queue := sh.queue + [task], accepted := sh.accepted + [task], late := sh.late || sh.shutdown)
  }

  /** thpool_add_task, with room in the queue and nobody asleep on notify. */
  lemma {:induction false} AddAlone(s: State, t: nat, task: Task) returns (es: seq<Event>)
    requires t < |s.threads| && Ready(s.threads[t]) && s.sh.lock == None && |s.sh.queue| < s.sh.size
    requires forall u :: 0 <= u < |s.threads| ==> !OnNotify(s.threads[u])
    ensures Schedule(s, es) == Put(s, Added(s.sh, task), t, Idle(0))
    ensures forall e :: e in es && e.act.Call? ==> e == Event(t, Call(Add(task, 0)))
  {
    var sh := Added(s.sh, task);
    var s1 := Put(s, sh.(lock := Some(t)), t, Adding(ASignal));
    var s2 := Put(s, sh.(lock := Some(t)), t, Adding(AUnlock));
    Called(s, t, Add(task, 0), 3);
    AddWalk(s.sh, t, task);
    WalkRuns(s, s.sh, t, Adding(ALock(task, 0)), 3);
    SignalsNobody(s1, t);
    assert Put(s1, s1.sh, t, Adding(AUnlock)) == s2;
    assert Walk(s2.sh, t, Adding(AUnlock), 1) == Place(sh, Idle(0), true);
    Walks(s2, t, 1);
    es := CallThen(t, Add(task, 0), 3) + (Solo(t, 0, 1) + Solo(t, 0, 1));
    FoldAppend(Next, s, CallThen(t, Add(task, 0), 3), Solo(t, 0, 1) + Solo(t, 0, 1));
    FoldAppend(Next, s1, Solo(t, 0, 1), Solo(t, 0, 1));
    assert Put(s2, sh, t, Idle(0)) == Put(s, sh, t, Idle(0));
  }

  lemma {:induction false} AddWalk(sh: Shared, t: nat, task: Task)
    requires sh.lock == None && |sh.queue| < sh.size
    ensures Walk(sh, t, Adding(ALock(task, 0)), 3) == Place(Added(sh, task).(lock := Some(t)), Adding(ASignal), true)
  {
  }

  /** The pool once its first task has been taken by t. */
  function AfterTake(sh: Shared, t: nat): Shared
    requires sh.queue != []
  {
    sh.(running := sh.running + 1, queue := sh.queue[1..], started := sh.started + [sh.queue[0]],
        owner := sh.owner + [t])
  }

  /** From the decision to run a task to the start of its function. */
  lemma {:induction false} TakeWalk(sh: Shared, t: nat, worker: bool)
    requires sh.lock == None && sh.queue != [] && (worker ==> !sh.hold)
    ensures Walk(sh.(lock := Some(t)), t, Run(worker, Incr), 3)
            == Place(AfterTake(sh, t), Run(worker, Exec(|sh.started|, sh.queue[0])), true)
  {
    var locked := AfterTake(sh, t).(lock := Some(t));
    var taken := Run(worker, Exec(|sh.started|, sh.queue[0]));
    assert locked.(lock := None) == AfterTake(sh, t);
    assert Walk(locked, t, Run(worker, PopUnlock(|sh.started|, sh.queue[0])), 1)
        == Place(AfterTake(sh, t), taken, true);
  }

  /** thpool_worker_try_once, up to the start of the task's function, on hold or not. */
  lemma {:induction false} TryTakes(s: State, t: nat)
    requires t < |s.threads| && Ready(s.threads[t]) && s.sh.lock == None && s.sh.queue != []
    ensures Schedule(s, CallThen(t, TryOnce, 5))
            == Put(s, AfterTake(s.sh, t), t, Run(false, Exec(|s.sh.started|, s.sh.queue[0])))
  {
    Called(s, t, TryOnce, 5);
    TakeWalk(s.sh, t, false);
    assert Walk(s.sh, t, Control(TLock), 5) == Walk(s.sh.(lock := Some(t)), t, Run(false, Incr), 3);
    WalkRuns(s, s.sh, t, Control(TLock), 5);
  }

  /** The same for a worker at its loop top. */
  lemma {:induction false} WorkerTakes(s: State, t: nat)
    requires t < |s.threads| && s.threads[t] == Work(WTop) && s.sh.lock == None && s.sh.queue != [] && !s.sh.hold
    ensures Schedule(s, Solo(t, 0, 6))
            == Put(s, AfterTake(s.sh, t), t, Run(true, Exec(|s.sh.started|, s.sh.queue[0])))
  {
    TakeWalk(s.sh, t, true);
    assert Walk(s.sh, t, Work(WTop), 6) == Walk(s.sh.(lock := Some(t)), t, Run(true, Incr), 3);
    Walks(s, t, 6);
  }

  /** thpool_wait with something queued or running goes to sleep. */
  lemma {:induction false} WaitSleeps(s: State, t: nat)
    requires t < |s.threads| && Ready(s.threads[t]) && s.sh.lock == None && (s.sh.queue != [] || s.sh.running != 0)
    ensures Schedule(s, CallThen(t, Wait, 3)) == Put(s, s.sh, t, Waiting(|s.sh.accepted|, CAsleep))
  {
    var n := |s.sh.accepted|;
    Called(s, t, Wait, 3);
    assert Walk(s.sh, t, Waiting(n, CLock), 3) == Place(s.sh, Waiting(n, CAsleep), true) by {
      assert s.sh.(lock := Some(t)).(lock := None) == s.sh;
    }
    WalkRuns(s, s.sh, t, Waiting(n, CLock), 3);
  }

  /** A woken waiter that finds everything done returns. */
  lemma {:induction false} WaiterReturns(s: State, t: nat, n: nat)
    requires t < |s.threads| && s.threads[t] == Waiting(n, CWoken) && s.sh.lock == None
    requires s.sh.running == 0 && s.sh.queue == []
    ensures Schedule(s, Solo(t, 0, 5)) == Put(s, s.sh, t, Waited(n, |s.sh.accepted|))
  {
    ReturnWalk(s.sh, t, n);
    Walks(s, t, 5);
  }

  lemma {:induction false} ReturnWalk(sh: Shared, t: nat, n: nat)
    requires sh.lock == None && sh.running == 0 && sh.queue == []
    ensures Walk(sh, t, Waiting(n, CWoken), 5) == Place(sh, Waited(n, |sh.accepted|), true)
  {
    assert sh.(lock := Some(t)).(lock := None) == sh;
    assert Walk(sh, t, Waiting(n, CLock), 3) == Place(sh, Waited(n, |sh.accepted|), true);
  }

  /** A worker that finds nothing queued but something running goes to sleep without a signal. */
  lemma {:induction false} WorkerSleeps(s: State, t: nat)
    requires t < |s.threads| && s.threads[t] == Work(WTop) && s.sh.lock == None && s.sh.queue == []
    requires s.sh.running != 0 && !s.sh.shutdown
    ensures Schedule(s, Solo(t, 0, 5)) == Put(s, s.sh, t, Work(WAsleep))
  {
    SleepWalk(s.sh, t);
    assert Walk(s.sh, t, Work(WTop), 5) == Walk(s.sh.(lock := Some(t)), t, Work(WShutdown), 2);
    Walks(s, t, 5);
  }

  lemma {:induction false} SleepWalk(sh: Shared, t: nat)
    requires sh.lock == None && !sh.shutdown
    ensures Walk(sh.(lock := Some(t)), t, Work(WShutdown), 2) == Place(sh, Work(WAsleep), true)
  {
    assert sh.(lock := Some(t)).(lock := None) == sh;
  }

  lemma {:induction false} IdleWalk(sh: Shared, t: nat)
    requires sh.lock == None && sh.queue == [] && sh.running == 0
    ensures Walk(sh, t, Work(WTop), 3) == Place(sh.(lock := Some(t)), Work(WNotifyEmpty), true)
  {
  }

  lemma {:induction false} ExitWalk(sh: Shared, t: nat)
    requires sh.lock == None && sh.shutdown
    ensures Walk(sh.(lock := Some(t)), t, Work(WShutdown), 2) == Place(sh, Work(WExited), true)
  {
    assert sh.(lock := Some(t)).(lock := None) == sh;
  }

  /** With nothing running it signals one waiter, w, first. */
  lemma {:induction false} WorkerSignals(s: State, t: nat, w: nat) returns (es: seq<Event>)
    requires t < |s.threads| && s.threads[t] == Work(WTop) && s.sh.lock == None && s.sh.queue == []
    requires s.sh.running == 0 && !s.sh.shutdown && w < |s.threads| && w != t && OnEmpty(s.threads[w])
    ensures NoCalls(es) && Schedule(s, es) == Put(Put(s, s.sh, w, Wake(s.threads[w])), s.sh, t, Work(WAsleep))
  {
    var locked := s.sh.(lock := Some(t));
    var s1 := Put(s, locked, t, Work(WNotifyEmpty));
    var woken := Put(s, s.sh, w, Wake(s.threads[w]));
    IdleWalk(s.sh, t);
    Walks(s, t, 3);
    Signal(s1, t, w);
    assert s1.threads[w := Wake(s.threads[w])][t := Work(WShutdown)] == woken.threads[t := Work(WShutdown)];
    SleepWalk(s.sh, t);
    WalkRuns(woken, locked, t, Work(WShutdown), 2);
    es := Solo(t, 0, 3) + (Solo(t, w, 1) + Solo(t, 0, 2));
    FoldAppend(Next, s, Solo(t, 0, 3), Solo(t, w, 1) + Solo(t, 0, 2));
    FoldAppend(Next, s1, Solo(t, w, 1), Solo(t, 0, 2));
  }

  lemma {:induction false} Signal(s: State, t: nat, w: nat)
    requires t < |s.threads| && s.threads[t] == Work(WNotifyEmpty)
    requires w < |s.threads| && w != t && OnEmpty(s.threads[w])
    ensures Schedule(s, Solo(t, w, 1))
            == s.(threads := s.threads[w := Wake(s.threads[w])][t := Work(WShutdown)])
  {
    SoloStep(s, t, w, 1);
  }

  /** Running the task and lowering running_count. */
  lemma {:induction false} Finishes(s: State, t: nat, worker: bool, k: nat, task: Task)
    requires t < |s.threads| && s.threads[t] == Run(worker, Exec(k, task)) && s.sh.running > 0
    ensures Schedule(s, Solo(t, 0, 2))
            == Put(s, s.sh.(completed := s.sh.completed + {k}, running := s.sh.running - 1,
                            retired := s.sh.retired + 1),
                   t, if worker then Work(WTop) else Idle(0))
  {
    Walks(s, t, 2);
  }

  /** A worker that finds nothing queued, nothing running and the pool shut down exits. */
  lemma {:induction false} WorkerExits(s: State, t: nat) returns (es: seq<Event>)
    requires t < |s.threads| && s.threads[t] == Work(WTop) && s.sh.lock == None && s.sh.queue == []
    requires s.sh.running == 0 && s.sh.shutdown
    requires forall u :: 0 <= u < |s.threads| ==> !OnEmpty(s.threads[u])
    ensures NoCalls(es) && Schedule(s, es) == Put(s, s.sh, t, Work(WExited))
  {
    var locked := s.sh.(lock := Some(t));
    var s1 := Put(s, locked, t, Work(WNotifyEmpty));
    IdleWalk(s.sh, t);
    Walks(s, t, 3);
    SignalsNoWaiter(s1, t);
    assert s1.threads[t := Work(WShutdown)] == s.threads[t := Work(WShutdown)];
    ExitWalk(s.sh, t);
    WalkRuns(s, locked, t, Work(WShutdown), 2);
    es := Solo(t, 0, 3) + (Solo(t, 0, 1) + Solo(t, 0, 2));
    FoldAppend(Next, s, Solo(t, 0, 3), Solo(t, 0, 1) + Solo(t, 0, 2));
    FoldAppend(Next, s1, Solo(t, 0, 1), Solo(t, 0, 2));
  }

  lemma {:induction false} SignalsNoWaiter(s: State, t: nat)
    requires t < |s.threads| && s.threads[t] == Work(WNotifyEmpty)
    requires forall u :: 0 <= u < |s.threads| ==> !OnEmpty(s.threads[u])
    ensures Schedule(s, Solo(t, 0, 1)) == Put(s, s.sh, t, Work(WShutdown))
  {
    SoloStep(s, t, 0, 1);
  }

  /** Workers a..b-1 find nothing queued but something running, one after the other, and go to sleep. */
  lemma {:induction false} SleepWorkers(s: State, a: nat, b: nat) returns (es: seq<Event>)
    requires a <= b <= |s.threads| && forall u :: a <= u < b ==> s.threads[u] == Work(WTop)
    requires s.sh.lock == None && s.sh.queue == [] && s.sh.running != 0 && !s.sh.shutdown
    ensures NoCalls(es)
    ensures var r := Schedule(s, es);
            && r == s.(threads := r.threads) && |r.threads| == |s.threads|
            && forall u :: 0 <= u < |s.threads| ==> r.threads[u] == if a <= u < b then Work(WAsleep) else s.threads[u]
    decreases b - a
  {
    if a == b {
      es := [];
    } else {
      WorkerSleeps(s, a);
      var rest := SleepWorkers(Put(s, s.sh, a, Work(WAsleep)), a + 1, b);
      FoldAppend(Next, s, Solo(a, 0, 5), rest);
      es := Solo(a, 0, 5) + rest;
    }
  }

  /** Workers a..b-1 of a pool shut down, with nothing to do, exit one after the other. */
  lemma {:induction false} ExitWorkers(s: State, a: nat, b: nat) returns (es: seq<Event>)
    requires a <= b <= |s.threads| && forall u :: a <= u < b ==> s.threads[u] == Work(WTop)
    requires s.sh.lock == None && s.sh.queue == [] && s.sh.running == 0 && s.sh.shutdown
    requires forall u :: 0 <= u < |s.threads| ==> !OnEmpty(s.threads[u])
    ensures NoCalls(es)
    ensures var r := Schedule(s, es);
            && r == s.(threads := r.threads) && |r.threads| == |s.threads|
            && forall u :: 0 <= u < |s.threads| ==> r.threads[u] == if a <= u < b then Work(WExited) else s.threads[u]
    decreases b - a
  {
    if a == b {
      es := [];
    } else {
      var exit := WorkerExits(s, a);
      var rest := ExitWorkers(Put(s, s.sh, a, Work(WExited)), a + 1, b);
      FoldAppend(Next, s, exit, rest);
      es := exit + rest;
    }
  }

  /** A thread in thpool_shutdown joins the workers from i on, all of which have exited. */
  lemma {:induction false} JoinAll(s: State, t: nat, i: nat) returns (es: seq<Event>)
    requires AllExited(s) && s.workers <= t < |s.threads| && i <= s.workers
    ensures NoCalls(es) && Schedule(Put(s, s.sh, t, Joining(i)), es) == Put(s, s.sh, t, Down)
    decreases s.workers - i
  {
    var s0 := Put(s, s.sh, t, Joining(i));
    assert s0.threads[t := Down] == s.threads[t := Down];
    assert s0.threads[t := Joining(i + 1)] == s.threads[t := Joining(i + 1)];
    if i == s.workers {
      SoloStep(s0, t, 0, 1);
      es := Solo(t, 0, 1);
    } else {
      SoloStep(s0, t, 0, 1);
      var s1 := Put(s, s.sh, t, Joining(i + 1));
      var rest := JoinAll(s, t, i + 1);
      es := Solo(t, 0, 1) + rest;
      FoldAppend(Next, s0, Solo(t, 0, 1), rest);
    }
  }
}
