/** What the invariant of the thread pool is worth to its users, over every schedule. */
module ThPoolTheorems {
  import opened Tasks
  import opened Sums
  import opened Trails
  import opened ThPoolModel
  import opened ThPoolInvariant

  /** The thread of event e takes its next step in s. */
  predicate Steps(s: State, e: Event) {
    && e.t < |s.threads| && e.act.Go? && !s.threads[e.t].Joining?
    && MayWake(s.threads, s.threads[e.t], e.act.wake)
  }

  predicate Inserts(s: State, e: Event) {
    Steps(s, e) && s.threads[e.t].Adding? && s.threads[e.t].a.AInsert?
  }

  predicate Pops(s: State, e: Event) {
    Steps(s, e) && s.threads[e.t].Run? && s.threads[e.t].r.Pop? && s.sh.queue != []
  }

  predicate Executes(s: State, e: Event) {
    Steps(s, e) && s.threads[e.t].Run? && s.threads[e.t].r.Exec?
  }

  // ---------------------------------------------------------------- first in, first out, once

  /** The task an event puts into the queue, and the one it hands to a thread, as that thread holds it. */
  function InsertedBy(s: State, e: Event): seq<Task> {
    if Inserts(s, e) then [s.threads[e.t].a.task] else []
  }

  function DispatchedBy(s: State, e: Event): seq<Task> {
    if Pops(s, e) && HasTask(Next(s, e).threads[e.t]) then [Next(s, e).threads[e.t].r.task] else []
  }

  /** The tasks whose insert succeeded in a schedule, and those handed out in it, in order. */
  function Inserted(s: State, es: seq<Event>): seq<Task>
    decreases |es|
  {
    if es == [] then [] else InsertedBy(s, es[0]) + Inserted(Next(s, es[0]), es[1..])
  }

  function Dispatched(s: State, es: seq<Event>): seq<Task>
    decreases |es|
  {
    if es == [] then [] else DispatchedBy(s, es[0]) + Dispatched(Next(s, es[0]), es[1..])
  }

  /** How often the k-th dispatched task's function runs in a schedule. */
  function Executions(s: State, es: seq<Event>, k: nat): nat
    decreases |es|
  {
    if es == [] then 0 else
    (if Executes(s, es[0]) && s.threads[es[0].t].r.k == k then 1 else 0) + Executions(Next(s, es[0]), es[1..], k)
  }

  /** The pool and the stepping thread after an event. */
  lemma NextShape(s: State, e: Event)
    ensures if Steps(s, e) then
              var m := Step(s.sh, s.threads[e.t]);
              Next(s, e).sh == Apply(s.sh, e.t, m.change) && Next(s, e).threads[e.t] == m.pc
            else Next(s, e).sh == s.sh
    ensures |Next(s, e).threads| == |s.threads| && Next(s, e).workers == s.workers && Next(s, e).sh.size == s.sh.size
  {
  }

  /** History after a step, read off the program counter. */
  lemma ChangeHistory(sh: Shared, t: nat, pc: Pc)
    requires |sh.owner| == |sh.started| && PcOk(sh, t, pc)
    ensures var m := Step(sh, pc);
            var sh' := Apply(sh, t, m.change);
            && sh'.accepted == (if pc.Adding? && pc.a.AInsert? then sh.accepted + [pc.a.task] else sh.accepted)
            && sh'.started == (if pc.Run? && pc.r.Pop? then sh.started + [sh.queue[0]] else sh.started)
            && (pc.Run? && pc.r.Pop? ==> HasTask(m.pc) && m.pc.r.task == sh.queue[0])
            && sh'.completed == (if pc.Run? && pc.r.Exec? then sh.completed + {pc.r.k} else sh.completed)
  {
    StepChange(sh, t, pc);
  }

  lemma {:induction false} NextHistory(s: State, e: Event)
    requires Fifo(s.sh) && Local(s)
    ensures var s' := Next(s, e);
            && s'.sh.accepted == s.sh.accepted + InsertedBy(s, e)
            && s'.sh.started == s.sh.started + DispatchedBy(s, e)
            && s'.sh.completed == (if Executes(s, e) then s.sh.completed + {s.threads[e.t].r.k} else s.sh.completed)
  {
    NextShape(s, e);
    if Steps(s, e) {
      ChangeHistory(s.sh, e.t, s.threads[e.t]);
    }
  }

  lemma {:induction false} ScheduleFifo(s: State, es: seq<Event>)
    requires Inv(s)
    ensures Schedule(s, es).sh.accepted == s.sh.accepted + Inserted(s, es)
    ensures Schedule(s, es).sh.started == s.sh.started + Dispatched(s, es)
    decreases |es|
  {
    if es != [] {
      var s' := Next(s, es[0]);
      NextHistory(s, es[0]);
      NextInv(s, es[0]);
      ScheduleFifo(s', es[1..]);
      Regroup(s.sh.accepted, InsertedBy(s, es[0]), Inserted(s', es[1..]));
      Regroup(s.sh.started, DispatchedBy(s, es[0]), Dispatched(s', es[1..]));
    }
  }

  /** Over any interleaving from a fresh pool, tasks are dispatched in exactly the order of the successful
      inserts; those not dispatched are the queue, which never exceeds queue_size. */
  lemma {:induction false} DispatchOrder(workers: nat, clients: nat, size: nat, es: seq<Event>)
    ensures var s := Init(workers, clients, size);
            var r := Schedule(s, es);
            Inserted(s, es) == Dispatched(s, es) + r.sh.queue && |r.sh.queue| <= size
  {
    var s := Init(workers, clients, size);
    InitInv(workers, clients, size);
    ScheduleFifo(s, es);
    ScheduleInv(s, es);
    SameShape(s, es);
    assert [] + Inserted(s, es) == Inserted(s, es);
    assert [] + Dispatched(s, es) == Dispatched(s, es);
  }

  lemma {:induction false} SameShape(s: State, es: seq<Event>)
    ensures var r := Schedule(s, es);
            |r.threads| == |s.threads| && r.workers == s.workers && r.sh.size == s.sh.size
    decreases |es|
  {
    if es != [] {
      NextShape(s, es[0]);
      SameShape(Next(s, es[0]), es[1..]);
    }
  }

  /** Each task's function runs once if it has completed and never otherwise. */
  lemma {:induction false} ExecutedOnce(s: State, es: seq<Event>, k: nat)
    requires Inv(s)
    ensures Executions(s, es, k) + (if k in s.sh.completed then 1 else 0)
            == if k in Schedule(s, es).sh.completed then 1 else 0
    decreases |es|
  {
    if es != [] {
      NextHistory(s, es[0]);
      NextInv(s, es[0]);
      if Executes(s, es[0]) {
        assert PcOk(s.sh, es[0].t, s.threads[es[0].t]);
      }
      ExecutedOnce(Next(s, es[0]), es[1..], k);
    }
  }

  // ---------------------------------------------------------------- thpool_wait, thpool_total_tasks

  /** When thpool_wait has returned, every task inserted before its last check, and so every one inserted
      before the call, has run to its end: whoever ran it, and whoever else was using the pool. */
  lemma {:induction false} WaitMeansDone(workers: nat, clients: nat, size: nat, es: seq<Event>, t: nat, k: nat)
    requires var r := Schedule(Init(workers, clients, size), es);
             t < |r.threads| && r.threads[t].Waited? && k < r.threads[t].seen
    ensures var s := Init(workers, clients, size);
            && Schedule(s, es).threads[t].since <= Schedule(s, es).threads[t].seen
            && Executions(s, es, k) == 1
  {
    var s := Init(workers, clients, size);
    var r := Schedule(s, es);
    InitInv(workers, clients, size);
    ScheduleInv(s, es);
    assert PcOk(r.sh, t, r.threads[t]);
    ExecutedOnce(s, es, k);
  }

  /** thpool_total_tasks returns exactly the number of accepted tasks whose running_count has not been lowered:
      it cannot catch a task between the two counters. */
  lemma {:induction false} TotalIsExact(s: State, t: nat, w: nat)
    requires Inv(s) && t < |s.threads| && s.threads[t] == Control(NRead)
    ensures var r := GoStep(s, t, w);
            r.threads[t].x.NUnlock? && r.threads[t].x.n + s.sh.retired == |s.sh.accepted|
  {
    forall u | 0 <= u < |s.threads| ensures Active(s.threads[u]) == Taken(s.threads[u]) {
      assert Holds(s.threads[u]) ==> u == t;
    }
    SumEqual(s.threads);
  }

  lemma {:induction false} SumEqual(ts: seq<Pc>)
    requires forall u :: 0 <= u < |ts| ==> Active(ts[u]) == Taken(ts[u])
    ensures Sum(Active, ts) == Sum(Taken, ts)
  {
    if ts != [] {
      SumEqual(ts[1..]);
    }
  }

  // ---------------------------------------------------------------- wakeups

  /** Work in the queue, no adder between its insert and its signal, and a worker left: then some worker that
      has not exited is awake.  No wakeup is lost, for any mix of adders, workers and try_once callers. */
  lemma {:induction false} WorkFindsWorker(s: State, u: nat) returns (t: nat)
    requires Inv(s) && s.sh.queue != []
    requires forall a :: 0 <= a < |s.threads| ==> s.threads[a] != Adding(ASignal)
    requires u < s.workers && s.threads[u] != Work(WExited)
    ensures t < s.workers && s.threads[t] != Work(WExited) && !OnNotify(s.threads[t])
  {
    SumZero(Signalling, s.threads);
    SumMember(Unexited, s.threads, u);
    t := SumWitness(AwakeWorker, s.threads);
  }

  /** Although the flag is stored outside the lock: once the broadcast has happened no worker sleeps on
      notify, and none is about to, whatever happens next. */
  lemma {:induction false} NoLostShutdown(s: State, es: seq<Event>, t: nat)
    requires Inv(s) && s.sh.told && t < |s.threads|
    ensures var r := Schedule(s, es);
            t < |r.threads| && !OnNotify(r.threads[t]) && r.threads[t] != Work(WSleep)
  {
    ScheduleInv(s, es);
    ToldStays(s, es);
    SameShape(s, es);
    assert PcOk(Schedule(s, es).sh, t, Schedule(s, es).threads[t]);
  }

  lemma {:induction false} ToldStays(s: State, es: seq<Event>)
    requires s.sh.told
    ensures Schedule(s, es).sh.told
    decreases |es|
  {
    if es != [] {
      ToldStays(Next(s, es[0]), es[1..]);
    }
  }

  // ---------------------------------------------------------------- the end of a pool

  predicate AllExited(s: State) {
    s.workers <= |s.threads| && forall t :: 0 <= t < s.workers ==> s.threads[t] == Work(WExited)
  }

  predicate NobodyRuns(s: State) {
    forall t :: 0 <= t < |s.threads| ==> !s.threads[t].Run?
  }

  /** Every worker has found the queue empty and the shutdown flag set: it is leaving or has left. */
  predicate Committed(s: State) {
    s.workers <= |s.threads|
    && forall t :: 0 <= t < s.workers ==> s.threads[t] == Work(WExit) || s.threads[t] == Work(WExited)
  }

  /** How a step moves the queue and a worker's exit. */
  lemma StepLeaves(sh: Shared, t: nat, pc: Pc)
    requires |sh.owner| == |sh.started| && PcOk(sh, t, pc)
    ensures var m := Step(sh, pc);
            var sh' := Apply(sh, t, m.change);
            && |sh'.queue| + (if pc.Run? && pc.r.Pop? then 1 else 0)
               == |sh.queue| + (if pc.Adding? && pc.a.AInsert? then 1 else 0)
            && (pc == Work(WExit) || pc == Work(WExited) ==> m.pc == Work(WExited))
            && (m.pc == Work(WExit) ==> sh.queue == [] && sh'.queue == [])
            && (m.pc == Work(WExited) ==> pc == Work(WExit) || pc == Work(WExited))
  {
    StepChange(sh, t, pc);
  }

  /** The queue is empty when the last worker commits, and from then on it is the orphans not rescued. */
  lemma {:induction false} NextDrain(s: State, e: Event)
    requires Inv(s)
    ensures var r := Next(s, e);
            && (Committed(s) ==>
                  && Committed(r)
                  && |r.sh.queue| + (if Pops(s, e) then 1 else 0) == |s.sh.queue| + (if Inserts(s, e) then 1 else 0))
            && (!Committed(s) && Committed(r) ==> r.sh.queue == [])
  {
    NextShape(s, e);
    var r := Next(s, e);
    if Steps(s, e) {
      StepLeaves(s.sh, e.t, s.threads[e.t]);
      assert PcOk(s.sh, e.t, s.threads[e.t]);
    }
    if !Committed(s) && Committed(r) {
      var t :| 0 <= t < s.workers && s.threads[t] != Work(WExit) && s.threads[t] != Work(WExited);
      Commits(s, e, t);
    }
  }

  /** Only its own step can make a thread leave. */
  lemma {:induction false} Commits(s: State, e: Event, t: nat)
    requires t < |s.threads| && s.threads[t] != Work(WExit) && s.threads[t] != Work(WExited)
    requires Next(s, e).threads[t] == Work(WExit) || Next(s, e).threads[t] == Work(WExited)
    ensures Steps(s, e) && e.t == t
  {
  }

  /** When thpool_shutdown has joined every worker it returns, and not before. */
  lemma {:induction false} JoinWaitsForAll(s: State, t: nat, w: nat)
    requires Inv(s) && t < |s.threads| && s.threads[t].Joining?
    ensures GoStep(s, t, w).threads[t] == Down <==> s.threads[t].i == s.workers
    ensures GoStep(s, t, w).threads[t] == Down ==> AllExited(s)
  {
  }

  // ---------------------------------------------------------------- pause

  predicate Resumes(s: State, e: Event) {
    Steps(s, e) && s.threads[e.t] == Control(RStore)
  }

  predicate NoResume(s: State, es: seq<Event>)
    decreases |es|
  {
    es == [] || (!Resumes(s, es[0]) && NoResume(Next(s, es[0]), es[1..]))
  }

  /** Tasks that background workers take from the queue in a schedule. */
  function WorkerStarts(s: State, es: seq<Event>): nat
    decreases |es|
  {
    if es == [] then 0 else
    (if Pops(s, es[0]) && s.threads[es[0].t].worker then 1 else 0) + WorkerStarts(Next(s, es[0]), es[1..])
  }

  lemma ChangePaused(sh: Shared, t: nat, pc: Pc)
    requires |sh.owner| == |sh.started| && PcOk(sh, t, pc) && sh.hold && pc != Control(RStore)
    ensures var sh' := Apply(sh, t, Step(sh, pc).change);
            && sh'.hold
            && sh'.pausedStarts == sh.pausedStarts + (if pc.Run? && pc.r.Pop? && pc.worker then 1 else 0)
  {
    StepChange(sh, t, pc);
  }

  lemma {:induction false} NextPaused(s: State, e: Event)
    requires Fifo(s.sh) && Local(s) && s.sh.hold && !Resumes(s, e)
    ensures var s' := Next(s, e);
            && s'.sh.hold
            && s'.sh.pausedStarts == s.sh.pausedStarts + (if Pops(s, e) && s.threads[e.t].worker then 1 else 0)
  {
    NextShape(s, e);
    if Steps(s, e) {
      ChangePaused(s.sh, e.t, s.threads[e.t]);
    }
  }

  lemma {:induction false} SchedulePaused(s: State, es: seq<Event>)
    requires Inv(s) && s.sh.hold && NoResume(s, es)
    ensures s.sh.pausedStarts + WorkerStarts(s, es) <= 1
    decreases |es|
  {
    if es != [] {
      NextPaused(s, es[0]);
      NextInv(s, es[0]);
      SchedulePaused(Next(s, es[0]), es[1..]);
    }
  }

  /** After thpool_pause has stored hold, and until a thpool_resume, the background workers together take at
      most one more task, because the hold test and the pop share a critical section. */
  lemma {:induction false} PauseBound(s: State, t: nat, w: nat, es: seq<Event>)
    requires Inv(s) && t < |s.threads| && s.threads[t] == Control(PStore)
    requires NoResume(GoStep(s, t, w), es)
    ensures WorkerStarts(GoStep(s, t, w), es) <= 1
  {
    GoInv(s, t, w);
    SchedulePaused(GoStep(s, t, w), es);
  }

  /** A worker past the hold test: it holds the lock and the queue has a task for it. */
  lemma {:induction false} StarterTakes(s: State, u: nat) returns (es: seq<Event>)
    requires Inv(s) && u < |s.threads| && Starting(s.threads[u]) == 1
    ensures NoResume(s, es) && WorkerStarts(s, es) == 1
  {
    assert PcOk(s.sh, u, s.threads[u]);
    var go := Event(u, Action.Go(0));
    if s.threads[u].r.Pop? {
      es := [go] + [];
      Unfold(s, go, []);
    } else {
      var s1 := Next(s, go);
      assert s1.threads[u] == Run(true, Pop) && s1.sh.queue == s.sh.queue && |s1.threads| == |s.threads|;
      es := [go] + ([go] + []);
      Unfold(s, go, [go] + []);
      Unfold(s1, go, []);
    }
  }

  lemma {:induction false} Unfold(s: State, e: Event, es: seq<Event>)
    ensures NoResume(s, [e] + es) == (!Resumes(s, e) && NoResume(Next(s, e), es))
    ensures WorkerStarts(s, [e] + es)
            == (if Pops(s, e) && s.threads[e.t].worker then 1 else 0) + WorkerStarts(Next(s, e), es)
  {
    assert ([e] + es)[0] == e && ([e] + es)[1..] == es;
  }

  /** While hold is on, nobody gets past the hold test. */
  lemma {:induction false} NextHeld(s: State, e: Event)
    requires Inv(s) && s.sh.hold && !Resumes(s, e)
    requires forall u :: 0 <= u < |s.threads| ==> Starting(s.threads[u]) == 0
    ensures var r := Next(s, e);
            && r.sh.hold && !(Pops(s, e) && s.threads[e.t].worker)
            && forall u :: 0 <= u < |r.threads| ==> Starting(r.threads[u]) == 0
  {
    NextPaused(s, e);
    NextShape(s, e);
    if Steps(s, e) {
      assert PcOk(s.sh, e.t, s.threads[e.t]);
      StepWeights(s.sh, e.t, s.threads[e.t]);
    }
  }

  lemma {:induction false} ScheduleHeld(s: State, es: seq<Event>)
    requires Inv(s) && s.sh.hold && NoResume(s, es)
    requires forall u :: 0 <= u < |s.threads| ==> Starting(s.threads[u]) == 0
    ensures WorkerStarts(s, es) == 0
    decreases |es|
  {
    if es != [] {
      NextHeld(s, es[0]);
      NextInv(s, es[0]);
      ScheduleHeld(Next(s, es[0]), es[1..]);
    }
  }

  /** That one task is taken in some run exactly if, at the store, a worker was past its hold test: otherwise a
      pause does stop all workers at once. */
  lemma {:induction false} PauseStopsIff(s: State, t: nat, w: nat)
    requires Inv(s) && t < |s.threads| && s.threads[t] == Control(PStore)
    ensures var r := GoStep(s, t, w);
            (forall es :: NoResume(r, es) ==> WorkerStarts(r, es) == 0)
            <==> (forall u :: 0 <= u < |s.threads| ==> Starting(s.threads[u]) == 0)
  {
    var r := GoStep(s, t, w);
    GoInv(s, t, w);
    assert r.threads == s.threads[t := Idle(0)] && r.sh.hold;
    if u :| 0 <= u < |s.threads| && Starting(s.threads[u]) != 0 {
      var es := StarterTakes(r, u);
      assert NoResume(r, es) && WorkerStarts(r, es) == 1;
    } else {
      forall es | NoResume(r, es) ensures WorkerStarts(r, es) == 0 {
        ScheduleHeld(r, es);
      }
    }
  }
}
