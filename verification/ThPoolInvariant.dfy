/** The invariant of the thread pool, kept by every step of every thread. */
module ThPoolInvariant {
  import opened Options
  import opened Sums
  import opened ThPoolModel

  // ---------------------------------------------------------------- weights

  /** Has raised running_count and not yet lowered it. */
  function Active(pc: Pc): nat { if pc.Run? && !pc.r.Incr? then 1 else 0 }

  /** Has a task off the queue and has not lowered running_count. */
  function Taken(pc: Pc): nat { if pc.Run? && !pc.r.Incr? && !pc.r.Pop? then 1 else 0 }

  /** A worker past the hold test and committed to taking a task. */
  function Starting(pc: Pc): nat { if pc.Run? && pc.worker && (pc.r.Incr? || pc.r.Pop?) then 1 else 0 }

  function Unexited(pc: Pc): nat { if IsWorker(pc) && pc != Work(WExited) then 1 else 0 }

  function AwakeWorker(pc: Pc): nat { if IsWorker(pc) && pc != Work(WExited) && !OnNotify(pc) then 1 else 0 }

  /** An adder between its insert and its signal. */
  function Signalling(pc: Pc): nat { if pc == Adding(ASignal) then 1 else 0 }

  // ---------------------------------------------------------------- the clauses

  predicate Mutual(s: State) {
    && (forall t :: 0 <= t < |s.threads| ==> (Holds(s.threads[t]) <==> s.sh.lock == Some(t)))
    && (s.sh.lock.Some? ==> s.sh.lock.value < |s.threads|)
  }

  predicate Roles(s: State) {
    && s.workers <= |s.threads|
    && forall t :: 0 <= t < |s.threads| ==> (IsWorker(s.threads[t]) <==> t < s.workers)
  }

  /** The queue is a bounded FIFO: what was started, followed by what is queued, is what was accepted. */
  predicate Fifo(sh: Shared) {
    && sh.started + sh.queue == sh.accepted
    && |sh.queue| <= sh.size
    && |sh.owner| == |sh.started|
    && (forall k :: k in sh.completed ==> k < |sh.started|)
    && (sh.told ==> sh.shutdown)
  }

  /** Inside a critical section that found the queue empty, or found a task in it. */
  predicate EmptySeen(pc: Pc) {
    pc.Work? && (pc.w.WActive? || pc.w.WNotifyEmpty? || pc.w.WShutdown? || pc.w.WExit? || pc.w.WSleep?)
  }

  predicate TaskSeen(pc: Pc) { pc == Work(WHold) || (pc.Run? && (pc.r.Incr? || pc.r.Pop?)) }

  predicate HasTask(pc: Pc) { pc.Run? && (pc.r.PopUnlock? || pc.r.Exec?) }

  predicate AllDone(sh: Shared, n: nat) { n <= |sh.accepted| && forall k: nat :: k < n ==> k in sh.completed }

  predicate PcOk(sh: Shared, t: nat, pc: Pc)
    requires |sh.owner| == |sh.started|
  {
    && (EmptySeen(pc) ==> sh.queue == [])
    && (TaskSeen(pc) ==> sh.queue != [])
    && (HasTask(pc) ==> pc.r.k < |sh.started| && pc.r.k !in sh.completed
                        && sh.owner[pc.r.k] == t && sh.started[pc.r.k] == pc.r.task)
    && match pc
       case Work(w) =>
         && (w.WExit? || w.WExited? ==> sh.shutdown && (sh.late || sh.queue == []))
         && (w.WSleep? || w.WAsleep? ==> !sh.told)
       case Adding(a) => a.AInsert? ==> |sh.queue| < sh.size
       case Control(x) => x.SLock? || x.SBroadcast? ==> sh.shutdown
       case Waiting(since, c) => since <= |sh.accepted| && (c.CDone? ==> since <= c.seen && AllDone(sh, c.seen))
       case Waited(since, seen) => since <= seen && AllDone(sh, seen)
       case _ => true
  }

  /** Every task taken from the queue has completed or is in the hands of the thread that took it. */
  predicate Owners(s: State)
    requires |s.sh.owner| == |s.sh.started|
  {
    forall k :: 0 <= k < |s.sh.started| && k !in s.sh.completed ==>
      var t := s.sh.owner[k]; t < |s.threads| && HasTask(s.threads[t]) && s.threads[t].r.k == k
  }

  predicate Counts(s: State) {
    && s.sh.running == Sum(Active, s.threads)
    && s.sh.retired + Sum(Taken, s.threads) == |s.sh.started|
    && (s.sh.hold ==> s.sh.pausedStarts + Sum(Starting, s.threads) <= 1)
  }

  /** Queued work is never left to sleepers only. */
  predicate Awake(s: State) {
    s.sh.queue != [] ==>
      Sum(Signalling, s.threads) >= 1 || Sum(AwakeWorker, s.threads) >= 1 || Sum(Unexited, s.threads) == 0
  }

  /** thpool_shutdown has joined the workers before `i`. */
  predicate Joins(s: State) {
    forall t :: 0 <= t < |s.threads| && s.threads[t].Joining? ==>
      s.threads[t].i <= s.workers
      && forall j :: 0 <= j < s.threads[t].i && j < |s.threads| ==> s.threads[j] == Work(WExited)
  }

  predicate Local(s: State)
    requires |s.sh.owner| == |s.sh.started|
  {
    forall t :: 0 <= t < |s.threads| ==> PcOk(s.sh, t, s.threads[t])
  }

  predicate Inv(s: State) {
    Mutual(s) && Roles(s) && Fifo(s.sh) && Local(s) && Owners(s) && Counts(s) && Awake(s) && Joins(s)
  }

  lemma {:induction false} InitInv(workers: nat, clients: nat, size: nat)
    ensures Inv(Init(workers, clients, size))
  {
    InitCounts(workers, clients, size);
  }

  lemma {:induction false} InitCounts(workers: nat, clients: nat, size: nat)
    ensures Counts(Init(workers, clients, size))
  {
    var s := Init(workers, clients, size);
    SumZero(Active, s.threads);
    SumZero(Taken, s.threads);
    SumZero(Starting, s.threads);
  }

  // ---------------------------------------------------------------- one step, clause by clause

  /** Nothing taken and nothing running: every accepted task has run to its end. */
  lemma {:induction false} QuietMeansDone(s: State)
    requires Inv(s) && s.sh.queue == [] && s.sh.running == 0
    ensures AllDone(s.sh, |s.sh.accepted|)
  {
    assert s.sh.started == s.sh.accepted;
    forall k: nat | k < |s.sh.accepted| ensures k in s.sh.completed {
      if k !in s.sh.completed {
        SumMember(Active, s.threads, s.sh.owner[k]);
      }
    }
  }

  /** The lock changes hands as the program counters say; the queue changes only under it. */
  lemma StepLock(sh: Shared, t: nat, pc: Pc)
    requires Holds(pc) <==> sh.lock == Some(t)
    ensures var m := Step(sh, pc);
            && (m.change.Acquire? ==> !Holds(pc) && Holds(m.pc) && sh.lock == None)
            && (m.change.Release? ==> Holds(pc) && !Holds(m.pc))
            && (!m.change.Acquire? && !m.change.Release? ==> (Holds(m.pc) <==> Holds(pc)))
            && (m.change.Enqueue? || m.change.Dequeue? ==> Holds(pc))
            && (IsWorker(m.pc) <==> IsWorker(pc))
  {
  }

  lemma StepChange(sh: Shared, t: nat, pc: Pc)
    requires |sh.owner| == |sh.started| && PcOk(sh, t, pc)
    ensures var m := Step(sh, pc);
            && (m.change.Enqueue? ==> pc.Adding? && pc.a.AInsert?)
            && (m.change.Dequeue? <==> pc.Run? && pc.r.Pop?)
            && (m.change.Dequeue? ==>
                  sh.queue != []
                  && m == Move(Dequeue(pc.worker), Run(pc.worker, PopUnlock(|sh.started|, sh.queue[0]))))
            && (m.change.Finish? <==> pc.Run? && pc.r.Exec?)
            && (m.change.Finish? ==> m == Move(Finish(pc.r.k), Run(pc.worker, Decr)))
            && (m.change.Tell? <==> Broadcasts(pc))
            && (HasTask(m.pc) && !m.change.Dequeue? ==>
                  pc.r.PopUnlock? && m == Move(Release, Run(pc.worker, Exec(pc.r.k, pc.r.task))))
            && (HasTask(pc) && !m.change.Finish? ==> HasTask(m.pc))
  {
  }

  lemma ApplyFifo(sh: Shared, t: nat, c: Change)
    requires Fifo(sh)
    requires c.Enqueue? ==> |sh.queue| < sh.size
    requires c.Finish? ==> c.k < |sh.started|
    requires c.Tell? ==> sh.shutdown
    ensures Fifo(Apply(sh, t, c))
  {
  }

  /** The facts of the stepping thread after its step. */
  predicate Own(sh: Shared, t: nat, pc: Pc) {
    var m := Step(sh, pc);
    var sh' := Apply(sh, t, m.change);
    Fifo(sh') && PcOk(sh', t, m.pc)
  }

  lemma OwnWorker(sh: Shared, t: nat, w: WorkerPc)
    requires Fifo(sh) && PcOk(sh, t, Work(w))
    ensures Own(sh, t, Work(w))
  {
  }

  lemma OwnTask(sh: Shared, t: nat, worker: bool, r: TaskPc)
    requires Fifo(sh) && PcOk(sh, t, Run(worker, r))
    ensures Own(sh, t, Run(worker, r))
  {
  }

  lemma OwnAdd(sh: Shared, t: nat, a: AddPc)
    requires Fifo(sh) && PcOk(sh, t, Adding(a))
    ensures Own(sh, t, Adding(a))
  {
  }

  lemma OwnWait(sh: Shared, t: nat, since: nat, c: WaitPc)
    requires Fifo(sh) && PcOk(sh, t, Waiting(since, c))
    requires sh.queue == [] && sh.running == 0 ==> AllDone(sh, |sh.accepted|)
    ensures Own(sh, t, Waiting(since, c))
  {
  }

  lemma OwnControl(sh: Shared, t: nat, x: ControlPc)
    requires Fifo(sh) && PcOk(sh, t, Control(x))
    ensures Own(sh, t, Control(x))
  {
    if x.TLock? || x.TTest? || x.TEmpty? {
      OwnTry(sh, t, x);
    } else if x.SStore? || x.SLock? || x.SBroadcast? || x.SUnlock? {
      OwnShutdown(sh, t, x);
    }
  }

  lemma OwnTry(sh: Shared, t: nat, x: ControlPc)
    requires Fifo(sh) && PcOk(sh, t, Control(x)) && (x.TLock? || x.TTest? || x.TEmpty?)
    ensures Own(sh, t, Control(x))
  {
  }

  lemma OwnShutdown(sh: Shared, t: nat, x: ControlPc)
    requires Fifo(sh) && PcOk(sh, t, Control(x)) && (x.SStore? || x.SLock? || x.SBroadcast? || x.SUnlock?)
    ensures Own(sh, t, Control(x))
  {
  }

  lemma OwnPcOk(sh: Shared, t: nat, pc: Pc)
    requires Fifo(sh) && PcOk(sh, t, pc)
    requires sh.queue == [] && sh.running == 0 ==> AllDone(sh, |sh.accepted|)
    ensures Own(sh, t, pc)
  {
    match pc {
      case Work(w) => OwnWorker(sh, t, w);
      case Run(worker, r) => OwnTask(sh, t, worker, r);
      case Adding(a) => OwnAdd(sh, t, a);
      case Waiting(since, c) => OwnWait(sh, t, since, c);
      case Control(x) => OwnControl(sh, t, x);
      case _ =>
    }
  }

  /** What the others know stays true: the queue does not move under the lock's holder, tasks finish in
      their owners' hands only, and the broadcast leaves nobody asleep. */
  lemma OtherPcOk(sh: Shared, t: nat, c: Change, u: nat, pc: Pc)
    requires Fifo(sh) && Fifo(Apply(sh, t, c)) && PcOk(sh, u, pc) && u != t
    requires c.Enqueue? || c.Dequeue? ==> !Holds(pc)
    requires c.Finish? ==> c.k < |sh.owner| && sh.owner[c.k] == t
    requires c.Tell? ==> pc != Work(WSleep)
    ensures PcOk(Apply(sh, t, c), u, Wake(pc))
    ensures (c.Tell? && OnNotify(pc)) || PcOk(Apply(sh, t, c), u, pc)
  {
    match pc {
      case Work(w) => OtherWorker(sh, t, c, u, w);
      case Run(worker, r) => OtherTask(sh, t, c, u, worker, r);
      case Waiting(since, w) => OtherWaiter(sh, t, c, u, since, w);
      case _ => OtherRest(sh, t, c, u, pc);
    }
  }

  lemma OtherWorker(sh: Shared, t: nat, c: Change, u: nat, w: WorkerPc)
    requires Fifo(sh) && Fifo(Apply(sh, t, c)) && PcOk(sh, u, Work(w))
    requires c.Enqueue? || c.Dequeue? ==> !Holds(Work(w))
    requires c.Tell? ==> !w.WSleep?
    ensures PcOk(Apply(sh, t, c), u, Wake(Work(w)))
    ensures (c.Tell? && w.WAsleep?) || PcOk(Apply(sh, t, c), u, Work(w))
  {
  }

  lemma OtherTask(sh: Shared, t: nat, c: Change, u: nat, worker: bool, r: TaskPc)
    requires Fifo(sh) && Fifo(Apply(sh, t, c)) && PcOk(sh, u, Run(worker, r)) && u != t
    requires c.Enqueue? || c.Dequeue? ==> !Holds(Run(worker, r))
    requires c.Finish? ==> c.k < |sh.owner| && sh.owner[c.k] == t
    ensures PcOk(Apply(sh, t, c), u, Run(worker, r))
  {
  }

  lemma OtherWaiter(sh: Shared, t: nat, c: Change, u: nat, since: nat, w: WaitPc)
    requires Fifo(sh) && Fifo(Apply(sh, t, c)) && PcOk(sh, u, Waiting(since, w))
    ensures PcOk(Apply(sh, t, c), u, Waiting(since, w)) && PcOk(Apply(sh, t, c), u, Wake(Waiting(since, w)))
  {
  }

  lemma OtherRest(sh: Shared, t: nat, c: Change, u: nat, pc: Pc)
    requires Fifo(sh) && Fifo(Apply(sh, t, c)) && PcOk(sh, u, pc) && !pc.Work? && !pc.Run? && !pc.Waiting?
    requires c.Enqueue? ==> !Holds(pc)
    ensures PcOk(Apply(sh, t, c), u, pc)
  {
  }

  /** How the weights move with a step. */
  lemma StepWeights(sh: Shared, t: nat, pc: Pc)
    requires Fifo(sh) && PcOk(sh, t, pc)
    ensures var m := Step(sh, pc);
            && Active(m.pc) + (if m.change.Lower? then 1 else 0) == Active(pc) + (if m.change.Raise? then 1 else 0)
            && Taken(m.pc) + (if m.change.Lower? then 1 else 0) == Taken(pc) + (if m.change.Dequeue? then 1 else 0)
            && (sh.hold ==> Starting(m.pc) + (if m.change == Dequeue(true) then 1 else 0) <= Starting(pc))
            && (Starting(pc) == 1 ==> Holds(pc))
            && (m.change.HoldOn? ==> Starting(m.pc) == 0)
            && (sh.queue != [] ==> AwakeWorker(m.pc) >= AwakeWorker(pc) && Unexited(m.pc) == Unexited(pc))
            && (pc != Adding(ASignal) ==> Signalling(m.pc) >= Signalling(pc))
            && (m.change.Enqueue? ==> Signalling(m.pc) == 1)
            && (pc == Work(WExited) ==> m == Move(Keep, pc))
            && (m.pc.Joining? && !pc.Joining? ==> m.pc.i == 0)
            && (pc.Joining? ==> m == Move(Keep, pc))
  {
  }

  // ---------------------------------------------------------------- one step of one thread

  function Alone(s: State, t: nat): State
    requires t < |s.threads|
  {
    var m := Step(s.sh, s.threads[t]);
    s.(sh := Apply(s.sh, t, m.change), threads := s.threads[t := m.pc])
  }

  lemma {:induction false} AloneMutual(s: State, t: nat)
    requires Mutual(s) && Roles(s) && t < |s.threads|
    ensures Mutual(Alone(s, t)) && Roles(Alone(s, t))
  {
    StepLock(s.sh, t, s.threads[t]);
  }

  lemma {:induction false} AloneLocal(s: State, t: nat)
    requires Mutual(s) && Fifo(s.sh) && Local(s) && t < |s.threads|
    requires Own(s.sh, t, s.threads[t])
    requires Broadcasts(s.threads[t]) ==> forall u :: 0 <= u < |s.threads| ==> !OnNotify(s.threads[u])
    ensures Fifo(Alone(s, t).sh) && Local(Alone(s, t))
  {
    var r := Alone(s, t);
    var c := Step(s.sh, s.threads[t]).change;
    StepLock(s.sh, t, s.threads[t]);
    StepChange(s.sh, t, s.threads[t]);
    forall u | 0 <= u < |r.threads| ensures PcOk(r.sh, u, r.threads[u]) {
      if u != t {
        OtherPcOk(s.sh, t, c, u, s.threads[u]);
      }
    }
  }

  lemma {:induction false} AloneOwners(s: State, t: nat)
    requires |s.sh.owner| == |s.sh.started| && Owners(s) && Local(s) && t < |s.threads|
    ensures var r := Alone(s, t); |r.sh.owner| == |r.sh.started| && Owners(r)
  {
    var r := Alone(s, t);
    var m := Step(s.sh, s.threads[t]);
    StepChange(s.sh, t, s.threads[t]);
    forall k | 0 <= k < |r.sh.started| && k !in r.sh.completed
      ensures var u := r.sh.owner[k]; u < |r.threads| && HasTask(r.threads[u]) && r.threads[u].r.k == k
    {
      if k < |s.sh.started| {
        assert r.sh.owner[k] == s.sh.owner[k] && k !in s.sh.completed;
      }
    }
  }

  /** At most the holder of the lock is committed to taking a task. */
  lemma {:induction false} OneStarting(s: State)
    requires Mutual(s)
    ensures Sum(Starting, s.threads) <= 1
  {
    if s.sh.lock.Some? {
      SumAlone(Starting, s.threads, s.sh.lock.value);
    } else {
      SumZero(Starting, s.threads);
    }
  }

  lemma {:induction false} AloneCounts(s: State, t: nat)
    requires Mutual(s) && Fifo(s.sh) && Local(s) && Counts(s) && t < |s.threads|
    ensures Counts(Alone(s, t))
  {
    AloneRunning(s, t);
    AlonePaused(s, t);
  }

  lemma {:induction false} AloneRunning(s: State, t: nat)
    requires Fifo(s.sh) && Local(s) && Counts(s) && t < |s.threads|
    ensures var r := Alone(s, t);
            && r.sh.running == Sum(Active, r.threads)
            && r.sh.retired + Sum(Taken, r.threads) == |r.sh.started|
  {
    var m := Step(s.sh, s.threads[t]);
    StepWeights(s.sh, t, s.threads[t]);
    StepChange(s.sh, t, s.threads[t]);
    SumUpdate(Active, s.threads, t, m.pc);
    SumUpdate(Taken, s.threads, t, m.pc);
  }

  lemma {:induction false} AlonePaused(s: State, t: nat)
    requires Mutual(s) && Fifo(s.sh) && Local(s) && Counts(s) && t < |s.threads|
    ensures var r := Alone(s, t); r.sh.hold ==> r.sh.pausedStarts + Sum(Starting, r.threads) <= 1
  {
    var m := Step(s.sh, s.threads[t]);
    StepWeights(s.sh, t, s.threads[t]);
    SumUpdate(Starting, s.threads, t, m.pc);
    OneStarting(s);
  }

  lemma {:induction false} AloneAwake(s: State, t: nat)
    requires Fifo(s.sh) && Local(s) && Awake(s) && Joins(s) && t < |s.threads|
    requires s.threads[t] == Adding(ASignal) ==>
               Sum(AwakeWorker, s.threads) >= 1 || Sum(Unexited, s.threads) == 0
    ensures Awake(Alone(s, t)) && Joins(Alone(s, t))
  {
    var m := Step(s.sh, s.threads[t]);
    StepWeights(s.sh, t, s.threads[t]);
    StepChange(s.sh, t, s.threads[t]);
    SumUpdate(Signalling, s.threads, t, m.pc);
    SumUpdate(AwakeWorker, s.threads, t, m.pc);
    SumUpdate(Unexited, s.threads, t, m.pc);
    SumMember(Signalling, Alone(s, t).threads, t);
  }

  // ---------------------------------------------------------------- moves that leave the pool alone

  /** A thread outside every critical section, with no task, changes its own state and nothing else. */
  lemma {:induction false} Rewire(s: State, t: nat, pc: Pc)
    requires Inv(s) && t < |s.threads|
    requires var was := s.threads[t];
             && !Holds(was) && !Holds(pc) && !HasTask(was) && was != Work(WExited)
             && (IsWorker(pc) <==> IsWorker(was)) && PcOk(s.sh, t, pc)
             && Active(pc) == Active(was) && Taken(pc) == Taken(was) && Starting(pc) == Starting(was)
             && Unexited(pc) == Unexited(was) && AwakeWorker(pc) >= AwakeWorker(was)
    requires pc.Joining? ==> pc.i <= s.workers
                             && forall j :: 0 <= j < pc.i && j < |s.threads| ==> s.threads[j] == Work(WExited)
    ensures Inv(s.(threads := s.threads[t := pc]))
  {
    RewireSums(s, t, pc);
    RewireLocal(s, t, pc);
  }

  lemma {:induction false} RewireSums(s: State, t: nat, pc: Pc)
    requires Counts(s) && Awake(s) && t < |s.threads| && !Holds(s.threads[t])
    requires var was := s.threads[t];
             && Active(pc) == Active(was) && Taken(pc) == Taken(was) && Starting(pc) == Starting(was)
             && Unexited(pc) == Unexited(was) && AwakeWorker(pc) >= AwakeWorker(was)
    ensures var r := s.(threads := s.threads[t := pc]); Counts(r) && Awake(r)
  {
    SumUpdate(Active, s.threads, t, pc);
    SumUpdate(Taken, s.threads, t, pc);
    SumUpdate(Starting, s.threads, t, pc);
    SumUpdate(Unexited, s.threads, t, pc);
    SumUpdate(AwakeWorker, s.threads, t, pc);
    SumUpdate(Signalling, s.threads, t, pc);
  }

  lemma {:induction false} RewireLocal(s: State, t: nat, pc: Pc)
    requires Mutual(s) && Roles(s) && |s.sh.owner| == |s.sh.started| && Local(s) && Owners(s) && Joins(s)
    requires t < |s.threads|
    requires var was := s.threads[t];
             && !Holds(was) && !Holds(pc) && !HasTask(was) && was != Work(WExited)
             && (IsWorker(pc) <==> IsWorker(was)) && PcOk(s.sh, t, pc)
    requires pc.Joining? ==> pc.i <= s.workers
                             && forall j :: 0 <= j < pc.i && j < |s.threads| ==> s.threads[j] == Work(WExited)
    ensures var r := s.(threads := s.threads[t := pc]);
            Mutual(r) && Roles(r) && Local(r) && Owners(r) && Joins(r)
  {
  }

  lemma {:induction false} WakeInv(s: State, w: nat)
    requires Inv(s) && w < |s.threads|
    ensures Inv(s.(threads := s.threads[w := Wake(s.threads[w])]))
  {
    if OnNotify(s.threads[w]) || OnEmpty(s.threads[w]) {
      Rewire(s, w, Wake(s.threads[w]));
    } else {
      assert s.threads[w := s.threads[w]] == s.threads;
    }
  }

  lemma {:induction false} WakeAllInv(s: State)
    requires Inv(s)
    ensures Inv(s.(threads := WakeAll(s.threads)))
  {
    var r := s.(threads := WakeAll(s.threads));
    WakeAllSums(s.threads);
    WakeAllLocal(s);
  }

  lemma {:induction false} WakeAllSums(ts: seq<Pc>)
    ensures Sum(Active, WakeAll(ts)) == Sum(Active, ts) && Sum(Taken, WakeAll(ts)) == Sum(Taken, ts)
    ensures Sum(Starting, WakeAll(ts)) == Sum(Starting, ts) && Sum(Unexited, WakeAll(ts)) == Sum(Unexited, ts)
    ensures Sum(Signalling, WakeAll(ts)) == Sum(Signalling, ts)
    ensures Sum(AwakeWorker, WakeAll(ts)) >= Sum(AwakeWorker, ts)
  {
    var us := WakeAll(ts);
    SumSame(Active, ts, us);
    SumSame(Taken, ts, us);
    SumSame(Starting, ts, us);
    SumSame(Unexited, ts, us);
    SumSame(Signalling, ts, us);
    SumMonotone(AwakeWorker, ts, us);
  }

  lemma {:induction false} WakeAllLocal(s: State)
    requires Fifo(s.sh) && Local(s) && Owners(s)
    ensures var r := s.(threads := WakeAll(s.threads)); Local(r) && Owners(r)
  {
    var r := s.(threads := WakeAll(s.threads));
    forall t | 0 <= t < |r.threads| ensures PcOk(r.sh, t, r.threads[t]) {
      assert PcOk(s.sh, t, s.threads[t]);
    }
  }

  // ---------------------------------------------------------------- the whole step relation

  lemma {:induction false} WakesInv(s: State, pc: Pc, w: nat)
    requires Inv(s)
    ensures Inv(s.(threads := Wakes(s.threads, pc, w)))
    ensures Broadcasts(pc) ==> forall u :: 0 <= u < |s.threads| ==> !OnNotify(Wakes(s.threads, pc, w)[u])
  {
    if Broadcasts(pc) {
      WakeAllInv(s);
    } else if w < |s.threads| {
      WakeInv(s, w);
    }
  }

  /** After a signal on `notify`, some worker is awake unless all have exited. */
  lemma {:induction false} SignalReaches(s: State, pc: Pc, w: nat)
    requires MayWake(s.threads, pc, w) && SignalsNotify(pc)
    ensures var r := Wakes(s.threads, pc, w); Sum(AwakeWorker, r) >= 1 || Sum(Unexited, r) == 0
  {
    var r := Wakes(s.threads, pc, w);
    if w < |s.threads| && OnNotify(s.threads[w]) {
      SumMember(AwakeWorker, r, w);
    } else {
      if Sum(Unexited, r) > 0 {
        var u := SumWitness(Unexited, r);
        SumMember(AwakeWorker, r, u);
      }
    }
  }

  lemma {:induction false} AloneInv(s: State, t: nat)
    requires Inv(s) && t < |s.threads|
    requires Broadcasts(s.threads[t]) ==> forall u :: 0 <= u < |s.threads| ==> !OnNotify(s.threads[u])
    requires s.threads[t] == Adding(ASignal) ==>
               Sum(AwakeWorker, s.threads) >= 1 || Sum(Unexited, s.threads) == 0
    ensures Inv(Alone(s, t))
  {
    if s.sh.queue == [] && s.sh.running == 0 { QuietMeansDone(s); }
    OwnPcOk(s.sh, t, s.threads[t]);
    AloneMutual(s, t);
    AloneLocal(s, t);
    AloneOwners(s, t);
    AloneCounts(s, t);
    AloneAwake(s, t);
  }

  lemma {:induction false} JoinInv(s: State, t: nat, w: nat)
    requires Inv(s) && t < |s.threads| && s.threads[t].Joining?
    ensures Inv(GoStep(s, t, w))
  {
    if GoStep(s, t, w) != s {
      Rewire(s, t, GoStep(s, t, w).threads[t]);
    }
  }

  lemma {:induction false} GoInv(s: State, t: nat, w: nat)
    requires Inv(s) && t < |s.threads|
    ensures Inv(GoStep(s, t, w))
  {
    var pc := s.threads[t];
    if pc.Joining? {
      JoinInv(s, t, w);
    } else if MayWake(s.threads, pc, w) {
      var s1 := s.(threads := Wakes(s.threads, pc, w));
      WakesInv(s, pc, w);
      if SignalsNotify(pc) { SignalReaches(s, pc, w); }
      assert s1.threads[t] == pc;
      AloneInv(s1, t);
    }
  }

  /** Every step of every thread keeps the invariant. */
  lemma {:induction false} NextInv(s: State, e: Event)
    requires Inv(s)
    ensures Inv(Next(s, e))
  {
    if e.t < |s.threads| {
      match e.act {
        case Call(op) => if Ready(s.threads[e.t]) { Rewire(s, e.t, Start(s.sh, op)); }
        case Spurious => WakeInv(s, e.t);
        case Go(w) => GoInv(s, e.t, w);
      }
    }
  }

  lemma {:induction false} ScheduleInv(s: State, es: seq<Event>)
    requires Inv(s)
    ensures Inv(Schedule(s, es))
    decreases |es|
  {
    if es != [] {
      NextInv(s, es[0]);
      ScheduleInv(Next(s, es[0]), es[1..]);
    }
  }
}
