/** thpool_shutdown of a pool on hold: exactly when it can return without a resume. */
module ThPoolHold {
  import opened Sums
  import opened Tasks
  import opened ThPoolModel
  import opened ThPoolInvariant
  import opened ThPoolTheorems
  import opened ThPoolAlone
  import opened ThPoolDrain
  import opened ThPoolProgress
  import opened ThPoolRuns
  import opened Trails

  /** Nobody is about to resume the pool, or in thpool_worker_try_once. */
  predicate NoRelief(s: State) {
    forall t :: 0 <= t < |s.threads| ==> s.threads[t] != Control(RStore) && !Trying(s.threads[t])
  }

  /** On hold with more queued than the workers past their hold test will take, and a worker not yet leaving. */
  predicate Stuck(s: State) {
    s.sh.hold && NoRelief(s) && |s.sh.queue| > Sum(Starting, s.threads) && !Committed(s)
  }

  lemma StepNoRelief(sh: Shared, pc: Pc)
    requires pc != Control(RStore) && !Trying(pc)
    ensures var m := Step(sh, pc); m.pc != Control(RStore) && !Trying(m.pc) && !m.change.HoldOff?
  {
  }

  lemma {:induction false} NextNoRelief(s: State, e: Event)
    requires NoRelief(s) && !e.act.Call?
    ensures NoRelief(Next(s, e)) && !Resumes(s, e)
  {
    NextShape(s, e);
    if Steps(s, e) {
      StepNoRelief(s.sh, s.threads[e.t]);
    }
  }

  /** What a step takes from the queue of a pool on hold, a worker past its hold test had been going to take. */
  lemma {:induction false} NextBacklog(s: State, e: Event)
    requires Inv(s) && s.sh.hold && NoRelief(s) && !e.act.Call?
    ensures var r := Next(s, e); |r.sh.queue| + Sum(Starting, s.threads) >= |s.sh.queue| + Sum(Starting, r.threads)
  {
    StartingMoves(s, e);
    if Steps(s, e) {
      var pc := s.threads[e.t];
      NextShape(s, e);
      StepWeights(s.sh, e.t, pc);
      StepLeaves(s.sh, e.t, pc);
      StepChange(s.sh, e.t, pc);
      assert !Trying(pc);
    }
  }

  /** Only the stepping thread's weight changes. */
  lemma {:induction false} StartingMoves(s: State, e: Event)
    requires !e.act.Call?
    ensures var r := Next(s, e);
            if Steps(s, e) then
              Sum(Starting, r.threads) + Starting(s.threads[e.t])
              == Sum(Starting, s.threads) + Starting(Step(s.sh, s.threads[e.t]).pc)
            else r.sh == s.sh && Sum(Starting, r.threads) == Sum(Starting, s.threads)
  {
    if Steps(s, e) {
      var pc := s.threads[e.t];
      var ts := Wakes(s.threads, pc, e.act.wake);
      SumSame(Starting, s.threads, ts);
      SumUpdate(Starting, ts, e.t, Step(s.sh, pc).pc);
    } else if e.t < |s.threads| {
      SumUpdate(Starting, s.threads, e.t, Next(s, e).threads[e.t]);
      assert s.threads[e.t := s.threads[e.t]] == s.threads;
    }
  }

  lemma {:induction false} NextStuck(s: State, e: Event)
    requires Inv(s) && Stuck(s) && !e.act.Call?
    ensures Stuck(Next(s, e))
  {
    NextNoRelief(s, e);
    NextPaused(s, e);
    NextBacklog(s, e);
    NextDrain(s, e);
  }

  /** Then no worker that stays ever leaves, and no thpool_shutdown returns, unless somebody makes a call. */
  lemma {:induction false} StuckForGood(s: State, es: seq<Event>, t: nat)
    requires Inv(s) && Stuck(s) && NoCalls(es) && t < |s.threads| && s.threads[t].Joining?
    ensures var r := Schedule(s, es); Stuck(r) && !AllExited(r) && t < |r.threads| && r.threads[t].Joining?
    decreases |es|
  {
    if es != [] {
      var r := Next(s, es[0]);
      NextStuck(s, es[0]);
      NextInv(s, es[0]);
      StillJoining(s, es[0], t);
      StuckForGood(r, es[1..], t);
    }
  }

  lemma {:induction false} StillJoining(s: State, e: Event, t: nat)
    requires Inv(s) && !AllExited(s) && !e.act.Call? && t < |s.threads| && s.threads[t].Joining?
    ensures var r := Next(s, e); t < |r.threads| && r.threads[t].Joining?
  {
    if e.t == t && e.act.Go? { JoinWaitsForAll(s, t, e.act.wake); }
  }

  /** One step of a worker past its hold test, with one task queued. */
  lemma {:induction false} StarterSteps(s: State, u: nat, t: nat)
    requires Inv(s) && s.sh.told && u < |s.threads| && Starting(s.threads[u]) == 1 && |s.sh.queue| == 1
    requires NoInsert(s) && t < |s.threads| && s.threads[t].Joining?
    ensures var r := Next(s, Event(u, Action.Go(0)));
            && |r.threads| == |s.threads| && r.threads[t] == s.threads[t] && r.sh.told && NoInsert(r)
            && if s.threads[u].r.Pop? then r.sh.queue == []
               else r.threads[u] == Run(true, Pop) && r.sh.queue == s.sh.queue
  {
  }

  /** The one worker past its hold test takes the one task there is. */
  lemma {:induction false} LastTaken(s: State, u: nat, t: nat) returns (es: seq<Event>)
    requires Inv(s) && s.sh.told && u < |s.threads| && Starting(s.threads[u]) == 1 && |s.sh.queue| == 1
    requires NoInsert(s) && t < |s.threads| && s.threads[t].Joining?
    ensures OnlySteps(es)
    ensures var r := Schedule(s, es);
            Inv(r) && Ending(r) && NoInsert(r) && t < |r.threads| && r.threads[t] == s.threads[t]
    decreases if s.threads[u].r.Pop? then 0 else 1
  {
    var go := Event(u, Action.Go(0));
    StarterSteps(s, u, t);
    NextInv(s, go);
    var s1, rest := Next(s, go), [];
    if !s.threads[u].r.Pop? {
      rest := LastTaken(s1, u, t);
    } else {
      assert Schedule(s1, []) == s1;
    }
    es := [go] + rest;
    FoldCons(Next, s, go, rest);
  }

  /** After the broadcast, with nobody to resume or to try, thpool_shutdown can return without a further call if and
      only if the pool is not on hold, or every worker is already leaving, or no more is queued than the workers
      past their hold test are about to take: otherwise it hangs until a call relieves it. */
  lemma {:induction false} ShutdownOnHoldIff(s: State, t: nat)
    requires Inv(s) && s.sh.told && NoInsert(s) && NoRelief(s) && t < |s.threads| && s.threads[t].Joining?
    ensures (exists es :: NoCalls(es) && Returned(Schedule(s, es), t))
            <==> (s.sh.hold ==> Committed(s) || |s.sh.queue| <= Sum(Starting, s.threads))
  {
    if s.sh.hold && !Committed(s) && |s.sh.queue| > Sum(Starting, s.threads) {
      forall es | NoCalls(es) ensures !Returned(Schedule(s, es), t) {
        StuckForGood(s, es, t);
      }
    } else {
      var es := Relieved(s, t);
      assert NoCalls(es) && Returned(Schedule(s, es), t);
    }
  }

  predicate Returned(s: State, t: nat) { t < |s.threads| && s.threads[t] == Down }

  lemma {:induction false} Relieved(s: State, t: nat) returns (es: seq<Event>)
    requires Inv(s) && s.sh.told && NoInsert(s) && t < |s.threads| && s.threads[t].Joining?
    requires s.sh.hold ==> Committed(s) || |s.sh.queue| <= Sum(Starting, s.threads)
    ensures OnlySteps(es) && Returned(Schedule(s, es), t)
  {
    if Ending(s) {
      es := EndingReturns(s, t);
    } else {
      OneStarting(s);
      var u := SumWitness(Starting, s.threads);
      var a := LastTaken(s, u, t);
      var b := EndingReturns(Schedule(s, a), t);
      es := a + b;
      FoldAppend(Next, s, a, b);
    }
  }

  // ---------------------------------------------------------------- the hang is real

  /** In every pool: b pauses the pool and adds a task, a calls thpool_shutdown, and from then on, whatever the
      threads do without a further call, the shutdown does not return. */
  lemma {:induction false} PausedShutdownHangs(workers: nat, clients: nat, size: nat, a: nat, b: nat, task: Task)
    returns (es: seq<Event>)
    requires workers >= 1 && size >= 1
    requires workers <= a < workers + clients && workers <= b < workers + clients
    ensures forall e :: e in es && e.act.Call? ==>
              e == Event(b, Call(Pause)) || e == Event(b, Call(Add(task, 0))) || e == Event(a, Call(Shutdown))
    ensures var r := Schedule(Init(workers, clients, size), es);
            && a < |r.threads| && r.threads[a] == Joining(0) && r.sh.queue == [task]
            && forall more :: NoCalls(more) ==> !Returned(Schedule(r, more), a)
  {
    es := PauseAddShutdown(workers, clients, size, a, b, task);
    var r := Schedule(Init(workers, clients, size), es);
    InitInv(workers, clients, size);
    ScheduleInv(Init(workers, clients, size), es);
    WaitingIsStuck(r, a);
    forall more | NoCalls(more) ensures !Returned(Schedule(r, more), a) {
      StuckForGood(r, more, a);
    }
  }

  lemma {:induction false} WaitingIsStuck(s: State, a: nat)
    requires s.sh.hold && s.sh.queue != [] && 1 <= s.workers <= |s.threads|
    requires forall u :: 0 <= u < |s.threads| ==>
               s.threads[u] == if u < s.workers then Work(WTop) else if u == a then Joining(0) else Idle(0)
    ensures Stuck(s)
  {
    SumZero(Starting, s.threads);
    assert s.threads[0] == Work(WTop);
  }

  lemma {:induction false} PauseAddShutdown(workers: nat, clients: nat, size: nat, a: nat, b: nat, task: Task)
    returns (es: seq<Event>)
    requires workers >= 1 && size >= 1
    requires workers <= a < workers + clients && workers <= b < workers + clients
    ensures forall e :: e in es && e.act.Call? ==>
              e == Event(b, Call(Pause)) || e == Event(b, Call(Add(task, 0))) || e == Event(a, Call(Shutdown))
    ensures var r := Schedule(Init(workers, clients, size), es);
            && r.sh.hold && r.sh.queue == [task] && r.workers == workers && |r.threads| == workers + clients
            && forall u :: 0 <= u < |r.threads| ==>
                 r.threads[u] == if u < workers then Work(WTop) else if u == a then Joining(0) else Idle(0)
  {
    var s0 := Init(workers, clients, size);
    PausesAlone(s0, b);
    var pause := CallThen(b, Pause, 1);
    var s1 := Schedule(s0, pause);
    var add := AddAlone(s1, b, task);
    var s2 := Schedule(s1, add);
    var down := ShutdownAlone(s2, a);
    es := pause + (add + down);
    FoldAppend(Next, s1, add, down);
    FoldAppend(Next, s0, pause, add + down);
  }
}
