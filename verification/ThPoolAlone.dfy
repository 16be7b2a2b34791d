/** Each thpool call run alone: what it returns and all that it changes.  What the others share with ThPoolRuns:
    AddAlone, TryTakes, WaitSleeps, WorkerTakes, WorkerSleeps, WorkerExits. */
module ThPoolAlone {
  import opened Options
  import opened Tasks
  import opened Trails
  import opened ThPoolModel
  import opened ThPoolInvariant
  import opened ThPoolTheorems
  import opened ThPoolProgress
  import opened ThPoolRuns

  // ---------------------------------------------------------------- adding

  /** One attempt on a full queue. */
  lemma {:induction false} FullWalk(sh: Shared, t: nat, task: Task, tries: nat, k: nat)
    requires sh.lock == None && |sh.queue| == sh.size
    ensures Walk(sh, t, Adding(ALock(task, tries)), k + 3)
            == Walk(sh, t, if tries == 0 then Idle(-1) else Adding(ALock(task, tries - 1)), k)
  {
    var locked := sh.(lock := Some(t));
    var next := if tries == 0 then Idle(-1) else Adding(ALock(task, tries - 1));
    assert locked.(lock := None) == sh;
    assert Walk(locked, t, Adding(AFull(task, tries)), k + 1) == Walk(sh, t, next, k);
    assert Walk(locked, t, Adding(ATest(task, tries)), k + 2) == Walk(sh, t, next, k);
  }

  lemma {:induction false} GiveUpWalk(sh: Shared, t: nat, task: Task, tries: nat)
    requires sh.lock == None && |sh.queue| == sh.size
    ensures Walk(sh, t, Adding(ALock(task, tries)), 3 * tries + 3) == Place(sh, Idle(-1), true)
    decreases tries
  {
    FullWalk(sh, t, task, tries, 3 * tries);
    if tries > 0 {
      GiveUpWalk(sh, t, task, tries - 1);
    }
  }

  /** thpool_add_task_try on a full queue makes max_try + 1 attempts, none if max_try is negative, and changes
      nothing. */
  lemma {:induction false} AddFull(s: State, t: nat, task: Task, maxTry: int)
    requires t < |s.threads| && Ready(s.threads[t]) && s.sh.lock == None && |s.sh.queue| == s.sh.size
    ensures var k := if maxTry < 0 then 0 else 3 * maxTry + 3;
            Schedule(s, CallThen(t, Add(task, maxTry), k)) == Put(s, s.sh, t, Idle(-1))
  {
    var k := if maxTry < 0 then 0 else 3 * maxTry + 3;
    Called(s, t, Add(task, maxTry), k);
    if maxTry >= 0 {
      GiveUpWalk(s.sh, t, task, maxTry);
      WalkRuns(s, s.sh, t, Adding(ALock(task, maxTry)), k);
    }
  }

  /** A signal on notify while w sleeps there. */
  lemma {:induction false} SignalWakes(s: State, t: nat, w: nat)
    requires t < |s.threads| && SignalsNotify(s.threads[t]) && w < |s.threads| && OnNotify(s.threads[w])
    ensures Schedule(s, Solo(t, w, 1)) == Put(Put(s, s.sh, w, Work(WWoken)), s.sh, t, Step(s.sh, s.threads[t]).pc)
  {
    SoloStep(s, t, w, 1);
  }

  /** thpool_add_task with room wakes a sleeping worker. */
  lemma {:induction false} AddWakes(s: State, t: nat, task: Task, w: nat) returns (es: seq<Event>)
    requires t < |s.threads| && Ready(s.threads[t]) && s.sh.lock == None && |s.sh.queue| < s.sh.size
    requires w < |s.threads| && OnNotify(s.threads[w])
    ensures Schedule(s, es) == Put(Put(s, Added(s.sh, task), w, Work(WWoken)), Added(s.sh, task), t, Idle(0))
  {
    var sh := Added(s.sh, task);
    var s1 := Put(s, sh.(lock := Some(t)), t, Adding(ASignal));
    var s2 := Put(Put(s1, s1.sh, w, Work(WWoken)), s1.sh, t, Adding(AUnlock));
    Called(s, t, Add(task, 0), 3);
    AddWalk(s.sh, t, task);
    WalkRuns(s, s.sh, t, Adding(ALock(task, 0)), 3);
    SignalWakes(s1, t, w);
    assert Walk(s2.sh, t, Adding(AUnlock), 1) == Place(sh, Idle(0), true);
    Walks(s2, t, 1);
    es := CallThen(t, Add(task, 0), 3) + (Solo(t, w, 1) + Solo(t, 0, 1));
    FoldAppend(Next, s, CallThen(t, Add(task, 0), 3), Solo(t, w, 1) + Solo(t, 0, 1));
    FoldAppend(Next, s1, Solo(t, w, 1), Solo(t, 0, 1));
    assert s2.threads[t := Idle(0)] == s.threads[w := Work(WWoken)][t := Idle(0)];
  }

  // ---------------------------------------------------------------- thpool_worker_try_once

  /** On an empty queue it returns -1 and changes nothing. */
  lemma {:induction false} TryFindsNothing(s: State, t: nat)
    requires t < |s.threads| && Ready(s.threads[t]) && s.sh.lock == None && s.sh.queue == []
    ensures Schedule(s, CallThen(t, TryOnce, 3)) == Put(s, s.sh, t, Idle(-1))
  {
    var locked := s.sh.(lock := Some(t));
    Called(s, t, TryOnce, 3);
    assert locked.(lock := None) == s.sh;
    assert Walk(locked, t, Control(TEmpty), 1) == Place(s.sh, Idle(-1), true);
    WalkRuns(s, s.sh, t, Control(TLock), 3);
  }

  /** The pool once t has run its first task to the end. */
  function AfterRun(sh: Shared, t: nat): Shared
    requires sh.queue != []
  {
    AfterTake(sh, t).(running := sh.running, completed := sh.completed + {|sh.started|}, retired := sh.retired + 1)
  }

  /** Otherwise it runs the first task and returns 0, whether the pool is on hold or not. */
  lemma {:induction false} TryRuns(s: State, t: nat) returns (es: seq<Event>)
    requires t < |s.threads| && Ready(s.threads[t]) && s.sh.lock == None && s.sh.queue != []
    ensures Schedule(s, es) == Put(s, AfterRun(s.sh, t), t, Idle(0))
    ensures forall e :: e in es ==> e.t == t && (e.act.Call? ==> e.act.op == Op.TryOnce)
  {
    TryTakes(s, t);
    var s1 := Schedule(s, CallThen(t, TryOnce, 5));
    Finishes(s1, t, false, |s.sh.started|, s.sh.queue[0]);
    assert s1.threads[t := Idle(0)] == s.threads[t := Idle(0)];
    es := CallThen(t, TryOnce, 5) + Solo(t, 0, 2);
    FoldAppend(Next, s, CallThen(t, TryOnce, 5), Solo(t, 0, 2));
  }

  // ---------------------------------------------------------------- waiting and counting

  /** thpool_wait with nothing queued or running returns at once, whether the pool is on hold or not. */
  lemma {:induction false} WaitReturns(s: State, t: nat)
    requires t < |s.threads| && Ready(s.threads[t]) && s.sh.lock == None && s.sh.queue == [] && s.sh.running == 0
    ensures Schedule(s, CallThen(t, Wait, 3)) == Put(s, s.sh, t, Waited(|s.sh.accepted|, |s.sh.accepted|))
  {
    var n, locked := |s.sh.accepted|, s.sh.(lock := Some(t));
    Called(s, t, Wait, 3);
    assert locked.(lock := None) == s.sh;
    assert Walk(locked, t, Waiting(n, CDone(n)), 1) == Place(s.sh, Waited(n, n), true);
    WalkRuns(s, s.sh, t, Waiting(n, CLock), 3);
  }

  lemma {:induction false} TotalWalk(sh: Shared, t: nat)
    requires sh.lock == None
    ensures Walk(sh, t, Control(NLock), 3) == Place(sh, Counted(sh.running + |sh.queue|), true)
  {
    var n, locked := sh.running + |sh.queue|, sh.(lock := Some(t));
    assert locked.(lock := None) == sh;
    assert Walk(locked, t, Control(NUnlock(n)), 1) == Place(sh, Counted(n), true);
    assert Walk(locked, t, Control(NRead), 2) == Place(sh, Counted(n), true);
  }

  /** thpool_total_tasks */
  lemma {:induction false} TotalAlone(s: State, t: nat)
    requires t < |s.threads| && Ready(s.threads[t]) && s.sh.lock == None
    ensures Schedule(s, CallThen(t, Total, 3)) == Put(s, s.sh, t, Counted(s.sh.running + |s.sh.queue|))
  {
    Called(s, t, Total, 3);
    TotalWalk(s.sh, t);
    WalkRuns(s, s.sh, t, Control(NLock), 3);
  }

  /** A waiter woken by chance looks again from the start, and sleeps again if anything is queued or running. */
  lemma {:induction false} WaiterWokenByChance(s: State, t: nat, since: nat)
    requires t < |s.threads| && s.threads[t] == Waiting(since, CAsleep) && s.sh.lock == None
    requires s.sh.queue != [] || s.sh.running != 0
    ensures Next(s, Event(t, Spurious)).threads[t] == Waiting(since, CWoken)
    ensures Schedule(s, [Event(t, Spurious)] + Solo(t, 0, 5)) == s
  {
    var s1 := Put(s, s.sh, t, Waiting(since, CWoken));
    assert Next(s, Event(t, Spurious)) == s1;
    FoldCons(Next, s, Event(t, Spurious), Solo(t, 0, 5));
    LookAgainWalk(s.sh, t, since);
    Walks(s1, t, 5);
    assert s1.threads[t := Waiting(since, CAsleep)] == s.threads;
  }

  lemma {:induction false} LookAgainWalk(sh: Shared, t: nat, since: nat)
    requires sh.lock == None && (sh.queue != [] || sh.running != 0)
    ensures Walk(sh, t, Waiting(since, CWoken), 5) == Place(sh, Waiting(since, CAsleep), true)
  {
    var locked := sh.(lock := Some(t));
    assert locked.(lock := None) == sh;
    assert Walk(locked, t, Waiting(since, CSleep), 1) == Place(sh, Waiting(since, CAsleep), true);
    assert Walk(sh, t, Waiting(since, CLock), 3) == Place(sh, Waiting(since, CAsleep), true);
  }

  /** So does a worker that finds nothing queued but something running. */
  lemma {:induction false} WorkerWokenByChance(s: State, t: nat)
    requires t < |s.threads| && s.threads[t] == Work(WAsleep) && s.sh.lock == None
    requires s.sh.queue == [] && s.sh.running != 0 && !s.sh.shutdown
    ensures Next(s, Event(t, Spurious)).threads[t] == Work(WWoken)
    ensures Schedule(s, [Event(t, Spurious)] + Solo(t, 0, 5)) == s
  {
    var s1 := Put(s, s.sh, t, Work(WWoken));
    assert Next(s, Event(t, Spurious)) == s1;
    FoldCons(Next, s, Event(t, Spurious), Solo(t, 0, 5));
    SleepWalk(s.sh, t);
    assert Walk(s.sh, t, Work(WWoken), 5) == Walk(s.sh.(lock := Some(t)), t, Work(WShutdown), 2);
    Walks(s1, t, 5);
    assert s1.threads[t := Work(WAsleep)] == s.threads;
  }

  // ---------------------------------------------------------------- pausing and resuming

  /** thpool_pause */
  lemma {:induction false} PausesAlone(s: State, t: nat)
    requires t < |s.threads| && Ready(s.threads[t])
    ensures Schedule(s, CallThen(t, Pause, 1))
            == Put(s, s.sh.(hold := true, pausedStarts := if s.sh.hold then s.sh.pausedStarts else 0), t, Idle(0))
  {
    Called(s, t, Pause, 1);
    WalkRuns(s, s.sh, t, Control(PStore), 1);
  }

  lemma {:induction false} ResumeWalk(sh: Shared, t: nat)
    requires sh.lock == None
    ensures Walk(sh, t, Control(RStore), 2) == Place(sh.(hold := false, lock := Some(t)), Control(RSignal), true)
    ensures Walk(sh.(hold := false, lock := Some(t)), t, Control(RUnlock), 1)
            == Place(sh.(hold := false), Idle(0), true)
  {
    assert sh.(hold := false, lock := Some(t)).(lock := None) == sh.(hold := false);
    assert Walk(sh.(hold := false), t, Control(RLock), 1)
        == Place(sh.(hold := false, lock := Some(t)), Control(RSignal), true);
  }

  /** thpool_resume up to its signal, and after it: `woken` is s with the signal's effect on the others. */
  lemma {:induction false} ResumeAround(s: State, t: nat, w: nat, woken: State) returns (es: seq<Event>)
    requires t < |s.threads| && Ready(s.threads[t]) && s.sh.lock == None
    requires woken == s.(threads := woken.threads) && |woken.threads| == |s.threads|
    requires var sh := s.sh.(hold := false, lock := Some(t));
             Schedule(Put(s, sh, t, Control(RSignal)), Solo(t, w, 1)) == Put(woken, sh, t, Control(RUnlock))
    ensures Schedule(s, es) == Put(woken, s.sh.(hold := false), t, Idle(0))
    ensures forall e :: e in es ==> e.t == t && (e.act.Call? ==> e.act.op == Resume)
  {
    var sh := s.sh.(hold := false, lock := Some(t));
    var s2 := Put(woken, sh, t, Control(RUnlock));
    Called(s, t, Resume, 2);
    ResumeWalk(s.sh, t);
    WalkRuns(s, s.sh, t, Control(RStore), 2);
    Walks(s2, t, 1);
    assert s2.threads[t := Idle(0)] == woken.threads[t := Idle(0)];
    es := CallThen(t, Resume, 2) + (Solo(t, w, 1) + Solo(t, 0, 1));
    FoldAppend(Next, s, CallThen(t, Resume, 2), Solo(t, w, 1) + Solo(t, 0, 1));
    FoldAppend(Next, Put(s, sh, t, Control(RSignal)), Solo(t, w, 1), Solo(t, 0, 1));
  }

  /** thpool_resume clears hold. */
  lemma {:induction false} ResumesAlone(s: State, t: nat) returns (es: seq<Event>)
    requires t < |s.threads| && Ready(s.threads[t]) && s.sh.lock == None
    requires forall u :: 0 <= u < |s.threads| ==> !OnNotify(s.threads[u])
    ensures Schedule(s, es) == Put(s, s.sh.(hold := false), t, Idle(0))
    ensures forall e :: e in es ==> e.t == t && (e.act.Call? ==> e.act.op == Resume)
  {
    var s1 := Put(s, s.sh.(hold := false, lock := Some(t)), t, Control(RSignal));
    SoloStep(s1, t, 0, 1);
    assert s1.threads[t := Control(RUnlock)] == s.threads[t := Control(RUnlock)];
    es := ResumeAround(s, t, 0, s);
  }

  /** And it wakes a worker w if one sleeps. */
  lemma {:induction false} ResumeWakes(s: State, t: nat, w: nat) returns (es: seq<Event>)
    requires t < |s.threads| && Ready(s.threads[t]) && s.sh.lock == None
    requires w < |s.threads| && OnNotify(s.threads[w])
    ensures Schedule(s, es) == Put(Put(s, s.sh, w, Work(WWoken)), s.sh.(hold := false), t, Idle(0))
    ensures forall e :: e in es ==> e.t == t && (e.act.Call? ==> e.act.op == Resume)
  {
    var s1 := Put(s, s.sh.(hold := false, lock := Some(t)), t, Control(RSignal));
    var woken := Put(s, s.sh, w, Work(WWoken));
    SignalWakes(s1, t, w);
    assert s1.threads[w := Work(WWoken)][t := Control(RUnlock)] == woken.threads[t := Control(RUnlock)];
    es := ResumeAround(s, t, w, woken);
  }

  // ---------------------------------------------------------------- the worker and the hold

  /** On hold a worker with a task in the queue goes round its loop and leaves it there. */
  lemma {:induction false} WorkerHolds(s: State, t: nat)
    requires t < |s.threads| && s.threads[t] == Work(WTop) && s.sh.lock == None && s.sh.queue != [] && s.sh.hold
    ensures Schedule(s, Solo(t, 0, 5)) == s
  {
    HoldWalk(s.sh, t);
    Walks(s, t, 5);
    assert s.threads[t := Work(WTop)] == s.threads;
  }

  lemma {:induction false} HoldWalk(sh: Shared, t: nat)
    requires sh.lock == None && sh.queue != [] && sh.hold
    ensures Walk(sh, t, Work(WTop), 5) == Place(sh, Work(WTop), true)
  {
    var locked := sh.(lock := Some(t));
    assert locked.(lock := None) == sh;
    assert Walk(sh, t, Work(WHoldSleep), 1) == Place(sh, Work(WTop), true);
    assert Walk(locked, t, Work(WHoldUnlock), 2) == Place(sh, Work(WTop), true);
    assert Walk(locked, t, Work(WTest), 4) == Walk(locked, t, Work(WHoldUnlock), 2);
  }

  /** A worker at its loop top runs the first task to its end. */
  lemma {:induction false} WorkerRuns(s: State, t: nat) returns (es: seq<Event>)
    requires t < |s.threads| && s.threads[t] == Work(WTop) && s.sh.lock == None && s.sh.queue != [] && !s.sh.hold
    ensures OnlySteps(es) && Schedule(s, es) == s.(sh := AfterRun(s.sh, t))
  {
    WorkerTakes(s, t);
    var s1 := Schedule(s, Solo(t, 0, 6));
    Finishes(s1, t, true, |s.sh.started|, s.sh.queue[0]);
    assert s1.threads[t := Work(WTop)] == s.threads;
    es := Solo(t, 0, 6) + Solo(t, 0, 2);
    FoldAppend(Next, s, Solo(t, 0, 6), Solo(t, 0, 2));
  }

  /** What a pause keeps from the workers, a resume gives back: from any state in which a worker u stands at its
      loop top with a task in the queue, after thpool_resume by t, that worker can run the task, without a further
      call. */
  lemma {:induction false} ResumeServes(s: State, t: nat, u: nat) returns (call: seq<Event>, es: seq<Event>)
    requires Inv(s) && t < |s.threads| && Ready(s.threads[t]) && u < |s.threads| && s.threads[u] == Work(WTop)
    requires s.sh.lock == None && s.sh.queue != []
    requires forall i :: 0 <= i < |s.threads| ==> !OnNotify(s.threads[i])
    ensures forall e :: e in call ==> e.t == t && (e.act.Call? ==> e.act.op == Resume)
    ensures OnlySteps(es) && Executions(s, call + es, |s.sh.started|) == 1
  {
    call := ResumesAlone(s, t);
    var s1 := Schedule(s, call);
    es := WorkerRuns(s1, u);
    FoldAppend(Next, s, call, es);
    ExecutedOnce(s, call + es, |s.sh.started|);
  }

  /** In every pool: a pause, an add and a resume by any client, and the task can be run by a worker. */
  lemma {:induction false} PauseAddResume(workers: nat, clients: nat, size: nat, c: nat, task: Task)
    returns (calls: seq<Event>, es: seq<Event>)
    requires workers >= 1 && size >= 1 && workers <= c < workers + clients
    ensures forall e :: e in calls && e.act.Call? ==>
              e == Event(c, Call(Pause)) || e == Event(c, Call(Add(task, 0))) || e == Event(c, Call(Resume))
    ensures OnlySteps(es) && Executions(Init(workers, clients, size), calls + es, 0) == 1
  {
    var s0 := Init(workers, clients, size);
    var pause := CallThen(c, Pause, 1);
    PausesAlone(s0, c);
    var s1 := Schedule(s0, pause);
    var add := AddAlone(s1, c, task);
    var s2 := Schedule(s1, add);
    var resume := ResumesAlone(s2, c);
    var s3 := Schedule(s2, resume);
    es := WorkerRuns(s3, 0);
    calls := pause + (add + resume);
    FoldAppend(Next, s1, add, resume);
    FoldAppend(Next, s0, pause, add + resume);
    FoldAppend(Next, s0, calls, es);
    InitInv(workers, clients, size);
    ExecutedOnce(s0, calls + es, 0);
  }
}
