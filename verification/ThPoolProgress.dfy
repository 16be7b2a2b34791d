/** Progress of the thread pool: the completion wakeup of thpool_wait, and the end of thpool_shutdown. */
module ThPoolProgress {
  import opened Options
  import opened Sums
  import opened ThPoolModel
  import opened ThPoolInvariant
  import opened ThPoolTheorems
  import opened Trails

  // ---------------------------------------------------------------- the completion wakeup

  /** A worker on its way from finishing a task, or from the loop top, to the signal on notify_empty. */
  function Bound(pc: Pc): nat {
    if pc.Work? && (pc.w.WTop? || pc.w.WTest? || pc.w.WActive? || pc.w.WNotifyEmpty?) then 1 else 0
  }

  /** Inside thpool_worker_try_once. */
  predicate Trying(pc: Pc) {
    (pc.Run? && !pc.worker) || pc == Control(TLock) || pc == Control(TTest)
  }

  /** Only thread c waits, and nobody else uses thpool_worker_try_once. */
  predicate OneWaiter(s: State, c: nat) {
    && c < |s.threads|
    && forall t :: 0 <= t < |s.threads| && t != c ==> !s.threads[t].Waiting? && !Trying(s.threads[t])
  }

  predicate KeepsOneWaiter(e: Event, c: nat) {
    e.act.Call? && (e.act.op.TryOnce? || e.act.op.Wait?) ==> e.t == c
  }

  /** thpool_wait is in, or about to enter, its condition wait although there is nothing left to wait for. */
  predicate Overslept(sh: Shared, pc: Pc) {
    pc.Waiting? && (pc.c.CSleep? || pc.c.CAsleep?) && sh.queue == [] && sh.running == 0
  }

  predicate Rescued(s: State, c: nat)
    requires c < |s.threads|
  {
    Overslept(s.sh, s.threads[c]) ==> Sum(Bound, s.threads) >= 1
  }

  /** Local effect of a step on the rescue. */
  lemma StepBound(sh: Shared, t: nat, pc: Pc)
    requires Fifo(sh) && PcOk(sh, t, pc) && !(pc.Run? && !pc.worker)
    ensures var m := Step(sh, pc);
            var sh' := Apply(sh, t, m.change);
            && (m.change.Lower? ==> Bound(m.pc) == 1)
            && (!m.change.Lower? && !m.change.Dequeue? && sh'.queue == [] && sh'.running == 0 ==>
                  sh.queue == [] && sh.running == 0)
            && (m.change.Dequeue? ==> Active(pc) == 1 && sh'.running == sh.running)
            && (sh.queue == [] && sh.running == 0 && !SignalsEmpty(pc) ==> Bound(m.pc) >= Bound(pc))
            && (Overslept(sh', m.pc) ==> Overslept(sh, pc))
            && (pc.Waiting? && Overslept(sh', m.pc) ==> m.change.Keep? || m.change.Release?)
            && (m.pc.Waiting? ==> pc.Waiting?)
  {
  }

  lemma {:induction false} GoBound(s: State, t: nat, w: nat)
    requires t < |s.threads| && !s.threads[t].Joining? && MayWake(s.threads, s.threads[t], w)
    ensures var r := GoStep(s, t, w);
            && Sum(Bound, r.threads) + Bound(s.threads[t]) == Sum(Bound, s.threads) + Bound(r.threads[t])
            && Sum(Bound, r.threads) >= Bound(r.threads[t])
  {
    var ts := Wakes(s.threads, s.threads[t], w);
    SumSame(Bound, s.threads, ts);
    SumUpdate(Bound, ts, t, GoStep(s, t, w).threads[t]);
    SumMember(Bound, GoStep(s, t, w).threads, t);
  }

  lemma {:induction false} GoRescued(s: State, c: nat, t: nat, w: nat)
    requires Mutual(s) && Fifo(s.sh) && Local(s) && s.sh.running == Sum(Active, s.threads)
    requires OneWaiter(s, c) && Rescued(s, c) && t < |s.threads|
    ensures Rescued(GoStep(s, t, w), c)
  {
    var pc := s.threads[t];
    if pc.Joining? {
      SumUpdate(Bound, s.threads, t, GoStep(s, t, w).threads[t]);
      assert s.threads[t := s.threads[t]] == s.threads;
    } else if Trying(pc) {
      TryingGoesOn(s.sh, pc);
    } else if MayWake(s.threads, pc, w) {
      MoveRescued(s, c, t, w);
    }
  }

  lemma {:induction false} MoveRescued(s: State, c: nat, t: nat, w: nat)
    requires Mutual(s) && Fifo(s.sh) && Local(s) && s.sh.running == Sum(Active, s.threads)
    requires OneWaiter(s, c) && Rescued(s, c) && t < |s.threads|
    requires !s.threads[t].Joining? && !Trying(s.threads[t]) && MayWake(s.threads, s.threads[t], w)
    ensures Rescued(GoStep(s, t, w), c)
  {
    StepBound(s.sh, t, s.threads[t]);
    GoBound(s, t, w);
    SumMember(Active, s.threads, t);
  }

  lemma {:induction false} StepKeepsOneWaiter(s: State, e: Event, c: nat)
    requires OneWaiter(s, c) && KeepsOneWaiter(e, c)
    ensures OneWaiter(Next(s, e), c)
  {
    NextShape(s, e);
    if Steps(s, e) && e.t != c {
      StepKeepsRole(s.sh, s.threads[e.t]);
    }
  }

  lemma StepKeepsRole(sh: Shared, pc: Pc)
    requires !Trying(pc)
    ensures var next := Step(sh, pc).pc; !Trying(next) && (next.Waiting? ==> pc.Waiting?)
  {
  }

  lemma TryingGoesOn(sh: Shared, pc: Pc)
    requires Trying(pc)
    ensures !Step(sh, pc).pc.Waiting?
  {
  }

  lemma {:induction false} NextRescued(s: State, c: nat, e: Event)
    requires Inv(s) && OneWaiter(s, c) && Rescued(s, c) && KeepsOneWaiter(e, c)
    ensures Rescued(Next(s, e), c)
  {
    if e.t < |s.threads| {
      match e.act {
        case Go(w) => GoRescued(s, c, e.t, w);
        case _ =>
          SumUpdate(Bound, s.threads, e.t, Next(s, e).threads[e.t]);
          assert s.threads[e.t := s.threads[e.t]] == s.threads;
      }
    }
  }

  predicate AllKeepOneWaiter(es: seq<Event>, c: nat) {
    forall e :: e in es ==> KeepsOneWaiter(e, c)
  }

  lemma {:induction false} ScheduleRescued(s: State, c: nat, es: seq<Event>)
    requires Inv(s) && OneWaiter(s, c) && Rescued(s, c) && AllKeepOneWaiter(es, c)
    ensures var r := Schedule(s, es); Inv(r) && OneWaiter(r, c) && Rescued(r, c)
    decreases |es|
  {
    if es != [] {
      NextInv(s, es[0]);
      NextRescued(s, c, es[0]);
      StepKeepsOneWaiter(s, es[0], c);
      ScheduleRescued(Next(s, es[0]), c, es[1..]);
    }
  }

  /** No lost completion wakeup.  With one caller of thpool_wait and nobody else using thpool_worker_try_once:
      whenever the waiter sleeps (or is about to) with nothing queued and nothing running, some worker stands
      between its loop top and the signal on notify_empty. */
  lemma {:induction false} CompletionIsSignalled(workers: nat, clients: nat, size: nat, c: nat, es: seq<Event>)
    returns (u: nat)
    requires workers <= c < workers + clients && AllKeepOneWaiter(es, c)
    requires var r := Schedule(Init(workers, clients, size), es);
             c < |r.threads| && Overslept(r.sh, r.threads[c])
    ensures var r := Schedule(Init(workers, clients, size), es);
            u < workers && u < |r.threads| && Bound(r.threads[u]) == 1
  {
    var s := Init(workers, clients, size);
    var r := Schedule(s, es);
    InitInv(workers, clients, size);
    ScheduleRescued(s, c, es);
    SameShape(s, es);
    u := SumWitness(Bound, r.threads);
  }

  function Solo(u: nat, c: nat, k: nat): seq<Event> {
    seq(k, i => Event(u, Action.Go(c)))
  }

  lemma {:induction false} SoloStep(s: State, u: nat, c: nat, k: nat)
    requires k > 0
    ensures Schedule(s, Solo(u, c, k)) == Schedule(Next(s, Event(u, Action.Go(c))), Solo(u, c, k - 1))
  {
    assert Solo(u, c, k)[1..] == Solo(u, c, k - 1);
  }

  /** That worker does signal: given the lock, within four steps of its own, before it can sleep or exit, it
      wakes the waiter. */
  lemma {:induction false} RescueArrives(s: State, c: nat, u: nat) returns (k: nat)
    requires Inv(s) && c < |s.threads| && u < |s.threads| && Bound(s.threads[u]) == 1
    requires Overslept(s.sh, s.threads[c]) && s.threads[c].c.CAsleep?
    requires s.sh.lock == None || s.sh.lock == Some(u)
    ensures 1 <= k <= 4
    ensures var r := Schedule(s, Solo(u, c, k));
            && |r.threads| == |s.threads|
            && r.threads[u] == Work(WShutdown) && r.threads[c] == Waiting(s.threads[c].since, CWoken)
  {
    k := RescueIn(s, c, u, match s.threads[u].w case WTop => 4 case WTest => 3 case WActive => 2 case _ => 1);
  }

  lemma {:induction false} RescueIn(s: State, c: nat, u: nat, n: nat) returns (k: nat)
    requires Inv(s) && c < |s.threads| && u < |s.threads| && Bound(s.threads[u]) == 1
    requires Overslept(s.sh, s.threads[c]) && s.threads[c].c.CAsleep?
    requires s.sh.lock == None || s.sh.lock == Some(u)
    requires n == match s.threads[u].w case WTop => 4 case WTest => 3 case WActive => 2 case _ => 1
    ensures k == n
    ensures var r := Schedule(s, Solo(u, c, k));
            && |r.threads| == |s.threads|
            && r.threads[u] == Work(WShutdown) && r.threads[c] == Waiting(s.threads[c].since, CWoken)
    decreases n
  {
    var s1 := GoStep(s, u, c);
    SoloStep(s, u, c, n);
    if n > 1 {
      GoInv(s, u, c);
      k := RescueIn(s1, c, u, n - 1);
      k := k + 1;
    } else {
      k := 1;
    }
  }

  // ---------------------------------------------------------------- the end of thpool_shutdown

  /** Steps a worker has left before its next pop, or its exit; one pop is worth eight. */
  function Rank(pc: Pc): nat {
    match pc
    case Work(w) =>
      (match w
       case WExited => 0
       case WExit => 1
       case WShutdown => 2
       case WNotifyEmpty => 3
       case WActive => 4
       case WHold => 7
       case WTest => 8
       case WTop => 9
       case WWoken => 9
       case WHoldSleep => 10
       case WHoldUnlock => 11
       case WAsleep => 10
       case WSleep => 11)
    case Run(worker, r) =>
      if !worker then 0 else
      (match r
       case Pop => 5
       case Incr => 6
       case Decr => 10
       case Exec(_, _) => 11
       case PopUnlock(_, _) => 12)
    case _ => 0
  }

  function Measure(s: State): nat {
    8 * |s.sh.queue| + Sum(Rank, s.threads)
  }

  /** Shutdown announced to everybody, and no task kept from the workers by a pause. */
  predicate Ending(s: State) {
    s.sh.told && (s.sh.hold ==> s.sh.queue == [] || Committed(s))
  }

  /** A worker takes a step that does something: neither waits for the lock nor has exited. */
  predicate WorkerMoves(s: State, e: Event) {
    Steps(s, e) && IsWorker(s.threads[e.t]) && Next(s, e) != s
  }

  lemma StepRank(sh: Shared, t: nat, pc: Pc)
    requires |sh.owner| == |sh.started| && PcOk(sh, t, pc)
    requires sh.told && sh.shutdown && (sh.hold ==> pc != Work(WHold)) && !(pc.Adding? && pc.a.AInsert?)
    ensures var m := Step(sh, pc);
            var sh' := Apply(sh, t, m.change);
            && 8 * |sh'.queue| + Rank(m.pc) <= 8 * |sh.queue| + Rank(pc)
            && (IsWorker(pc) && m != Move(Keep, pc) ==>
                  8 * |sh'.queue| + Rank(m.pc) < 8 * |sh.queue| + Rank(pc))
  {
    match pc {
      case Work(w) => WorkerRank(sh, w);
      case Run(worker, r) => TaskRank(sh, t, worker, r);
      case _ => StepChange(sh, t, pc);
    }
  }

  lemma WorkerRank(sh: Shared, w: WorkerPc)
    requires sh.told && sh.shutdown && (sh.hold ==> !w.WHold?)
    ensures var m := WorkerStep(sh, w);
            Rank(m.pc) <= Rank(Work(w)) && (m != Move(Keep, Work(w)) ==> Rank(m.pc) < Rank(Work(w)))
  {
  }

  lemma TaskRank(sh: Shared, t: nat, worker: bool, r: TaskPc)
    requires |sh.owner| == |sh.started| && PcOk(sh, t, Run(worker, r))
    ensures var m := TaskStep(sh, worker, r);
            var sh' := Apply(sh, t, m.change);
            && 8 * |sh'.queue| + Rank(m.pc) <= 8 * |sh.queue| + Rank(Run(worker, r))
            && (worker ==> 8 * |sh'.queue| + Rank(m.pc) < 8 * |sh.queue| + Rank(Run(worker, r)))
  {
  }

  /** While the shutdown is on, no step but an insert raises the measure, and every worker's step lowers it. */
  lemma {:induction false} EndingMeasure(s: State, e: Event)
    requires Roles(s) && Fifo(s.sh) && Local(s) && Ending(s) && !Inserts(s, e)
    ensures Measure(Next(s, e)) <= Measure(s)
    ensures WorkerMoves(s, e) ==> Measure(Next(s, e)) < Measure(s)
  {
    var t := e.t;
    if Steps(s, e) {
      StepMeasure(s, e);
    } else if t < |s.threads| {
      assert PcOk(s.sh, t, s.threads[t]);
      SumUpdate(Rank, s.threads, t, Next(s, e).threads[t]);
      assert s.threads[t := s.threads[t]] == s.threads;
    }
  }

  lemma {:induction false} StepMeasure(s: State, e: Event)
    requires Roles(s) && Fifo(s.sh) && Local(s) && Ending(s) && !Inserts(s, e) && Steps(s, e)
    ensures Measure(Next(s, e)) <= Measure(s)
    ensures WorkerMoves(s, e) ==> Measure(Next(s, e)) < Measure(s)
  {
    var t, pc := e.t, s.threads[e.t];
    WakesRank(s, pc, e.act.wake);
    SumUpdate(Rank, Wakes(s.threads, pc, e.act.wake), t, Step(s.sh, pc).pc);
    assert s.sh.hold ==> pc != Work(WHold) by { assert PcOk(s.sh, t, pc); }
    StepRank(s.sh, t, pc);
    if IsWorker(pc) && Step(s.sh, pc) == Move(Keep, pc) { Still(s, e); }
  }

  /** A worker that keeps the pool and its own place changes nothing. */
  lemma {:induction false} Still(s: State, e: Event)
    requires Steps(s, e) && Step(s.sh, s.threads[e.t]) == Move(Keep, s.threads[e.t]) && IsWorker(s.threads[e.t])
    ensures Next(s, e) == s
  {
    assert s.threads[e.t := s.threads[e.t]] == s.threads;
  }

  /** Nobody sleeps on notify any more, and a waiter that wakes is no worker. */
  lemma {:induction false} WakesRank(s: State, pc: Pc, w: nat)
    requires |s.sh.owner| == |s.sh.started| && Local(s) && s.sh.told
    ensures Sum(Rank, Wakes(s.threads, pc, w)) == Sum(Rank, s.threads)
  {
    var ts := Wakes(s.threads, pc, w);
    forall i | 0 <= i < |ts| ensures Rank(ts[i]) == Rank(s.threads[i]) {
      assert PcOk(s.sh, i, s.threads[i]);
    }
    SumSame(Rank, s.threads, ts);
  }

  /** The schedule neither inserts nor keeps a task from the workers. */
  predicate WindsDown(s: State, es: seq<Event>)
    decreases |es|
  {
    Ending(s) && (es == [] || (!Inserts(s, es[0]) && WindsDown(Next(s, es[0]), es[1..])))
  }

  function WorkerSteps(s: State, es: seq<Event>): nat
    decreases |es|
  {
    if es == [] then 0 else
    (if WorkerMoves(s, es[0]) then 1 else 0) + WorkerSteps(Next(s, es[0]), es[1..])
  }

  /** However the threads are scheduled, the workers take at most Measure(s) more steps. */
  lemma {:induction false} WorkersRunOut(s: State, es: seq<Event>)
    requires Inv(s) && WindsDown(s, es)
    ensures WorkerSteps(s, es) + Measure(Schedule(s, es)) <= Measure(s)
    decreases |es|
  {
    if es != [] {
      EndingMeasure(s, es[0]);
      NextInv(s, es[0]);
      WorkersRunOut(Next(s, es[0]), es[1..]);
    }
  }

  // ---------------------------------------------------------------- and there is always a next step

  /** No insert is under way: nobody is past the lock of an add and short of its insert. */
  predicate NoInsert(s: State) {
    forall t :: 0 <= t < |s.threads| ==> !(s.threads[t].Adding? && (s.threads[t].a.ATest? || s.threads[t].a.AInsert?))
  }

  /** Steps a client has left in its critical section. */
  function ClientRank(pc: Pc): nat {
    match pc
    case Run(_, r) => if r.Incr? then 4 else if r.Pop? then 3 else 2
    case Adding(a) => if a.ASignal? then 2 else 1
    case Waiting(_, c) => if c.CTest? then 2 else 1
    case Control(x) => if x.TTest? then 5 else if x.RSignal? || x.SBroadcast? || x.NRead? then 2 else 1
    case _ => 0
  }

  function HolderRank(s: State): nat
    requires Mutual(s)
  {
    if s.sh.lock.Some? then ClientRank(s.threads[s.sh.lock.value]) else 0
  }

  lemma HolderMoves(sh: Shared, t: nat, pc: Pc)
    requires |sh.owner| == |sh.started| && PcOk(sh, t, pc) && Holds(pc) && !IsWorker(pc)
    requires !(pc.Adding? && (pc.a.ATest? || pc.a.AInsert?))
    ensures var m := Step(sh, pc);
            && (m.change.Release? || (!m.change.Acquire? && ClientRank(m.pc) < ClientRank(pc)))
            && !(m.pc.Adding? && (m.pc.a.ATest? || m.pc.a.AInsert?))
            && !m.change.HoldOn?
  {
  }

  lemma WorkerCanMove(sh: Shared, t: nat, pc: Pc)
    requires |sh.owner| == |sh.started| && PcOk(sh, t, pc) && IsWorker(pc) && pc != Work(WExited)
    requires sh.told && (sh.lock == None || sh.lock == Some(t)) && (Holds(pc) <==> sh.lock == Some(t))
    ensures var m := Step(sh, pc); m.pc != pc && !m.change.HoldOn? && !m.pc.Adding?
  {
  }

  function Somebody(ts: seq<Pc>): (w: nat)
    ensures w < |ts| ==> OnEmpty(ts[w])
    ensures w >= |ts| ==> forall i :: 0 <= i < |ts| ==> !OnEmpty(ts[i])
  {
    if ts == [] then 0 else if OnEmpty(ts[|ts| - 1]) then |ts| - 1 else
    var w := Somebody(ts[..|ts| - 1]);
    if w < |ts| - 1 then w else |ts|
  }

  /** The thread the drain lets run next: the holder of the lock, else a worker that has not exited. */
  lemma {:induction false} NextToRun(s: State) returns (t: nat)
    requires Inv(s) && !AllExited(s)
    ensures t < |s.threads|
    ensures s.sh.lock == Some(t) || (s.sh.lock == None && IsWorker(s.threads[t]) && s.threads[t] != Work(WExited))
  {
    if s.sh.lock.Some? {
      t := s.sh.lock.value;
    } else {
      var u :| 0 <= u < s.workers && s.threads[u] != Work(WExited);
      t := u;
    }
  }

  /** Once told, nobody sleeps on notify, and an empty-signal has its pick. */
  lemma {:induction false} DrainMayWake(s: State, t: nat)
    requires |s.sh.owner| == |s.sh.started| && Local(s) && s.sh.told && t < |s.threads|
    ensures MayWake(s.threads, s.threads[t], Somebody(s.threads))
  {
    forall i | 0 <= i < |s.threads| ensures !OnNotify(s.threads[i]) { assert PcOk(s.sh, i, s.threads[i]); }
  }

  /** The step of the holder, or of a worker that can have the lock. */
  lemma DrainMove(sh: Shared, t: nat, pc: Pc)
    requires |sh.owner| == |sh.started| && PcOk(sh, t, pc) && (Holds(pc) <==> sh.lock == Some(t)) && sh.told
    requires !(pc.Adding? && (pc.a.ATest? || pc.a.AInsert?)) && !pc.Joining?
    requires sh.lock == Some(t) || (sh.lock == None && IsWorker(pc) && pc != Work(WExited))
    ensures var m := Step(sh, pc);
            && m.pc != pc && !m.change.HoldOn?
            && !(m.pc.Adding? && (m.pc.a.ATest? || m.pc.a.AInsert?))
            && (!IsWorker(pc) ==> m.change.Release? || (!m.change.Acquire? && ClientRank(m.pc) < ClientRank(pc)))
  {
    if IsWorker(pc) { WorkerCanMove(sh, t, pc); } else { HolderMoves(sh, t, pc); }
  }

  /** A drain step is a real step, and stays within the drain. */
  lemma {:induction false} DrainRuns(s: State, t: nat)
    requires |s.sh.owner| == |s.sh.started| && Local(s) && s.sh.told && NoInsert(s) && t < |s.threads|
    requires Holds(s.threads[t]) <==> s.sh.lock == Some(t)
    requires s.sh.lock == Some(t) || (s.sh.lock == None && IsWorker(s.threads[t]) && s.threads[t] != Work(WExited))
    ensures var e := Event(t, Action.Go(Somebody(s.threads)));
            && Steps(s, e) && !Inserts(s, e) && NoInsert(Next(s, e))
            && Next(s, e).sh.told && (Next(s, e).sh.hold ==> s.sh.hold)
            && Next(s, e).threads[t] != s.threads[t]
  {
    DrainMayWake(s, t);
    DrainMove(s.sh, t, s.threads[t]);
    DrainEnding(s.sh, t, s.threads[t]);
  }

  lemma DrainEnding(sh: Shared, t: nat, pc: Pc)
    requires sh.told && !Step(sh, pc).change.HoldOn?
    ensures var sh' := Apply(sh, t, Step(sh, pc).change); sh'.told && (sh'.hold ==> sh.hold)
  {
  }

  /** An empty queue stays empty without an insert, and a worker that is leaving leaves. */
  lemma {:induction false} StaysEnding(s: State, e: Event)
    requires Inv(s) && Ending(s) && !Inserts(s, e)
    requires Next(s, e).sh.told && (Next(s, e).sh.hold ==> s.sh.hold)
    ensures Ending(Next(s, e))
  {
    NextShape(s, e);
    NextDrain(s, e);
    if Steps(s, e) {
      assert PcOk(s.sh, e.t, s.threads[e.t]);
      StepLeaves(s.sh, e.t, s.threads[e.t]);
    }
  }

  lemma {:induction false} HolderRankFalls(s: State, t: nat)
    requires Mutual(s) && t < |s.threads| && s.sh.lock == Some(t) && !IsWorker(s.threads[t])
    requires var m := Step(s.sh, s.threads[t]);
             m.change.Release? || (!m.change.Acquire? && ClientRank(m.pc) < ClientRank(s.threads[t]))
    requires var e := Event(t, Action.Go(Somebody(s.threads))); Steps(s, e) && Mutual(Next(s, e))
    ensures HolderRank(Next(s, Event(t, Action.Go(Somebody(s.threads))))) < HolderRank(s)
  {
    NextShape(s, Event(t, Action.Go(Somebody(s.threads))));
    assert ClientRank(s.threads[t]) > 0;
  }

  lemma {:induction false} DrainStep(s: State, t: nat)
    requires Inv(s) && Ending(s) && NoInsert(s) && t < |s.threads|
    requires s.sh.lock == Some(t) || (s.sh.lock == None && IsWorker(s.threads[t]) && s.threads[t] != Work(WExited))
    ensures var e := Event(t, Action.Go(Somebody(s.threads)));
            var r := Next(s, e);
            && !Inserts(s, e) && Inv(r) && Ending(r) && NoInsert(r)
            && (Measure(r) < Measure(s) || (Measure(r) == Measure(s) && HolderRank(r) < HolderRank(s)))
  {
    var e := Event(t, Action.Go(Somebody(s.threads)));
    NextInv(s, e);
    DrainRuns(s, t);
    StaysEnding(s, e);
    EndingMeasure(s, e);
    if !IsWorker(s.threads[t]) {
      HolderMoves(s.sh, t, s.threads[t]);
      HolderRankFalls(s, t);
    }
  }

  /** Nobody makes a call, and nobody is woken by chance. */
  predicate OnlySteps(es: seq<Event>) {
    forall e :: e in es ==> e.act.Go?
  }

  /** A drain step leaves a thread that joins alone. */
  lemma {:induction false} JoinersStay(s: State, t: nat, w: nat, u: nat)
    requires Mutual(s) && t < |s.threads| && (s.sh.lock == Some(t) || IsWorker(s.threads[t]))
    ensures var r := Next(s, Event(t, Action.Go(w)));
            && |r.threads| == |s.threads|
            && (u < |s.threads| && s.threads[u].Joining? ==> r.threads[u] == s.threads[u])
  {
  }

  /** From any point after the broadcast, with no task kept back by a pause and no insert under way, the pool can
      be run to the exit of every worker, in a schedule that neither calls, inserts nor pauses, and that leaves
      alone a thread u that joins. */
  lemma {:induction false} ShutdownCompletes(s: State, u: nat) returns (es: seq<Event>)
    requires Inv(s) && Ending(s) && NoInsert(s)
    ensures OnlySteps(es) && WindsDown(s, es)
    ensures var r := Schedule(s, es);
            && Inv(r) && AllExited(r) && |r.threads| == |s.threads|
            && (u < |s.threads| && s.threads[u].Joining? ==> r.threads[u] == s.threads[u])
    decreases Measure(s), HolderRank(s)
  {
    if AllExited(s) {
      es := [];
    } else {
      var t := NextToRun(s);
      var e := Event(t, Action.Go(Somebody(s.threads)));
      DrainStep(s, t);
      JoinersStay(s, t, Somebody(s.threads), u);
      var rest := ShutdownCompletes(Next(s, e), u);
      es := [e] + rest;
      assert es[0] == e && es[1..] == rest;
    }
  }

  /** And then the thread in thpool_shutdown returns. */
  lemma {:induction false} JoinsComplete(s: State, t: nat) returns (k: nat)
    requires Inv(s) && AllExited(s) && t < |s.threads| && s.threads[t].Joining?
    ensures var r := Schedule(s, Solo(t, 0, k)); AllExited(r) && t < |r.threads| && r.threads[t] == Down
    decreases s.workers - s.threads[t].i
  {
    var s1 := GoStep(s, t, 0);
    GoInv(s, t, 0);
    if s.threads[t].i == s.workers {
      k := 1;
      SoloStep(s, t, 0, 1);
    } else {
      k := JoinsComplete(s1, t);
      k := k + 1;
      SoloStep(s, t, 0, k);
    }
  }

  /** Steps to the insert, for an adder past the lock. */
  function ToInsert(pc: Pc): nat {
    if pc.Adding? && pc.a.ATest? then 2 else if pc.Adding? && pc.a.AInsert? then 1 else 0
  }

  lemma AdderMoves(sh: Shared, pc: Pc)
    requires ToInsert(pc) > 0
    ensures var m := Step(sh, pc);
            ToInsert(m.pc) < ToInsert(pc) && (m.change.Keep? || m.change.Enqueue?)
            && !SignalsNotify(pc) && !SignalsEmpty(pc) && !Broadcasts(pc)
  {
  }

  /** An insert under way is made by the holder of the lock, in at most two steps. */
  lemma {:induction false} InsertEnds(s: State, t: nat, u: nat) returns (es: seq<Event>)
    requires Inv(s) && s.sh.told && !s.sh.hold && u < |s.threads| && s.threads[u].Joining? && t < |s.threads|
    requires forall i :: 0 <= i < |s.threads| && i != t ==> ToInsert(s.threads[i]) == 0
    ensures OnlySteps(es)
    ensures var r := Schedule(s, es);
            && Inv(r) && r.sh.told && !r.sh.hold && |r.threads| == |s.threads| && r.threads[u] == s.threads[u]
            && forall i :: 0 <= i < |r.threads| ==> ToInsert(r.threads[i]) == 0
    decreases ToInsert(s.threads[t])
  {
    if ToInsert(s.threads[t]) == 0 {
      es := [];
    } else {
      var e := Event(t, Action.Go(0));
      AdderMoves(s.sh, s.threads[t]);
      NextInv(s, e);
      var rest := InsertEnds(Next(s, e), t, u);
      es := [e] + rest;
      assert es[0] == e && es[1..] == rest;
    }
  }

  /** From any point after the broadcast at which no pause is on, a thread in thpool_shutdown can return: some
      schedule, of steps of calls already made only, ends with every worker exited and that thread done. */
  lemma {:induction false} ShutdownReturns(s: State, t: nat) returns (es: seq<Event>)
    requires Inv(s) && s.sh.told && !s.sh.hold && t < |s.threads| && s.threads[t].Joining?
    ensures OnlySteps(es)
    ensures var r := Schedule(s, es); AllExited(r) && t < |r.threads| && r.threads[t] == Down
  {
    var a := InsertEnds(s, match s.sh.lock case Some(h) => h case None => t, t);
    var b := EndingReturns(Schedule(s, a), t);
    es := a + b;
    FoldAppend(Next, s, a, b);
  }

  lemma {:induction false} EndingReturns(s: State, t: nat) returns (es: seq<Event>)
    requires Inv(s) && Ending(s) && NoInsert(s) && t < |s.threads| && s.threads[t].Joining?
    ensures OnlySteps(es)
    ensures var r := Schedule(s, es); AllExited(r) && t < |r.threads| && r.threads[t] == Down
  {
    var a := ShutdownCompletes(s, t);
    var k := JoinsComplete(Schedule(s, a), t);
    es := a + Solo(t, 0, k);
    FoldAppend(Next, s, a, Solo(t, 0, k));
  }
}
