/** The exact condition under which thpool_wait is woken: a policy says which threads may call thpool_wait and
    which may call thpool_worker_try_once, and the runs below strand a waiter under every policy that fails it. */
module ThPoolLimits {
  import opened Options
  import opened Sums
  import opened Tasks
  import opened ThPoolModel
  import opened ThPoolTheorems
  import opened ThPoolProgress
  import opened ThPoolRuns
  import opened Trails

  /** Every thread is between calls or asleep. */
  predicate Quiet(s: State) {
    forall t :: 0 <= t < |s.threads| ==> Ready(s.threads[t]) || OnNotify(s.threads[t]) || OnEmpty(s.threads[t])
  }

  /** Then nothing moves by itself: only a new call or a spurious wakeup changes anything. */
  lemma {:induction false} QuietStays(s: State, t: nat, w: nat)
    requires Quiet(s)
    ensures Next(s, Event(t, Action.Go(w))) == s
  {
    if t < |s.threads| {
      assert s.threads[t := s.threads[t]] == s.threads;
    }
  }

  /** Thread a sleeps in thpool_wait with nothing left to wait for, and nobody will move. */
  predicate Stranded(s: State, a: nat) {
    a < |s.threads| && Overslept(s.sh, s.threads[a]) && s.threads[a].c.CAsleep? && Quiet(s)
  }

  /** Whoever sleeps in thpool_wait, or is about to, with nothing left to wait for, has a worker on its way to
      the signal. */
  predicate Heard(s: State) {
    (exists c :: 0 <= c < |s.threads| && Overslept(s.sh, s.threads[c])) ==> Sum(Bound, s.threads) >= 1
  }

  // ---------------------------------------------------------------- a waiter and another thread's try_once

  /** Thread b runs the last task by thpool_worker_try_once; a has gone to sleep, and so have the workers. */
  lemma {:induction false} TryOnceSleeps(s: State, a: nat, b: nat, task: Task) returns (es: seq<Event>)
    requires s.workers <= a < |s.threads| && s.workers <= b < |s.threads| && a != b
    requires forall u :: 0 <= u < |s.threads| ==>
               if u < s.workers then s.threads[u] == Work(WTop)
               else if u == b then s.threads[u] == Run(false, Exec(0, task)) else Ready(s.threads[u])
    requires s.sh.lock == None && s.sh.queue == [] && s.sh.running == 1 && !s.sh.shutdown
    ensures Obeys(es, {a}, {}) && Stranded(Schedule(s, es), a)
  {
    WaitSleeps(s, a);
    var s1 := Schedule(s, CallThen(a, Wait, 3));
    var sleep := SleepWorkers(s1, 0, s.workers);
    var s2 := Schedule(s1, sleep);
    Finishes(s2, b, false, 0, task);
    FoldAppend(Next, s1, sleep, Solo(b, 0, 2));
    FoldAppend(Next, s, CallThen(a, Wait, 3), sleep + Solo(b, 0, 2));
    es := CallThen(a, Wait, 3) + (sleep + Solo(b, 0, 2));
  }

  /** In every pool: with one thread a that waits and another, b, that uses thpool_worker_try_once, a can be
      stranded. */
  lemma {:induction false} TryOnceStrandsWaiter(workers: nat, clients: nat, size: nat, a: nat, b: nat, task: Task)
    returns (es: seq<Event>)
    requires size >= 1 && workers <= a < workers + clients && workers <= b < workers + clients && a != b
    ensures Obeys(es, {a}, {b}) && Stranded(Schedule(Init(workers, clients, size), es), a)
  {
    var s0 := Init(workers, clients, size);
    var add := AddAlone(s0, b, task);
    var s1 := Schedule(s0, add);
    TryTakes(s1, b);
    var take := CallThen(b, TryOnce, 5);
    var s2 := Schedule(s1, take);
    var rest := TryOnceSleeps(s2, a, b, task);
    FoldAppend(Next, s1, take, rest);
    FoldAppend(Next, s0, add, take + rest);
    es := add + (take + rest);
  }

  // ---------------------------------------------------------------- two waiters

  /** The one signal on notify_empty wakes a, which returns; b sleeps on. */
  lemma {:induction false} OneSignal(s: State, a: nat, b: nat, n: nat) returns (es: seq<Event>)
    requires 1 <= s.workers <= a < |s.threads| && s.workers <= b < |s.threads| && a != b
    requires forall u :: 0 <= u < |s.threads| ==>
               if u == 0 then s.threads[u] == Work(WTop) else if u < s.workers then s.threads[u] == Work(WAsleep)
               else if u == a || u == b then s.threads[u] == Waiting(n, CAsleep) else Ready(s.threads[u])
    requires s.sh.lock == None && s.sh.queue == [] && s.sh.running == 0 && !s.sh.shutdown
    ensures NoCalls(es) && Stranded(Schedule(s, es), b)
  {
    var signal := WorkerSignals(s, 0, a);
    WaiterReturns(Schedule(s, signal), a, n);
    FoldAppend(Next, s, signal, Solo(a, 0, 5));
    es := signal + Solo(a, 0, 5);
  }

  /** The other workers sleep too, and worker 0 finishes. */
  lemma {:induction false} LastFinishes(s: State, a: nat, b: nat, n: nat, task: Task) returns (es: seq<Event>)
    requires 1 <= s.workers <= a < |s.threads| && s.workers <= b < |s.threads| && a != b
    requires forall u :: 0 <= u < |s.threads| ==>
               if u == 0 then s.threads[u] == Run(true, Exec(0, task))
               else if u < s.workers then s.threads[u] == Work(WTop)
               else if u == a || u == b then s.threads[u] == Waiting(n, CAsleep) else Ready(s.threads[u])
    requires s.sh.lock == None && s.sh.queue == [] && s.sh.running == 1 && !s.sh.shutdown
    ensures NoCalls(es) && Stranded(Schedule(s, es), b)
  {
    var sleep := SleepWorkers(s, 1, s.workers);
    var s1 := Schedule(s, sleep);
    Finishes(s1, 0, true, 0, task);
    var s2 := Schedule(s1, Solo(0, 0, 2));
    var rest := OneSignal(s2, a, b, n);
    FoldAppend(Next, s1, Solo(0, 0, 2), rest);
    FoldAppend(Next, s, sleep, Solo(0, 0, 2) + rest);
    es := sleep + (Solo(0, 0, 2) + rest);
  }

  /** Worker 0 runs the last task while a and b go to sleep. */
  lemma {:induction false} TwoSleep(s: State, a: nat, b: nat, task: Task) returns (es: seq<Event>)
    requires 1 <= s.workers <= a < |s.threads| && s.workers <= b < |s.threads| && a != b
    requires forall u :: 0 <= u < |s.threads| ==>
               if u == 0 then s.threads[u] == Run(true, Exec(0, task))
               else if u < s.workers then s.threads[u] == Work(WTop) else Ready(s.threads[u])
    requires s.sh.lock == None && s.sh.queue == [] && s.sh.running == 1 && !s.sh.shutdown
    ensures Obeys(es, {a, b}, {}) && Stranded(Schedule(s, es), b)
  {
    WaitSleeps(s, a);
    var s1 := Schedule(s, CallThen(a, Wait, 3));
    WaitSleeps(s1, b);
    var s2 := Schedule(s1, CallThen(b, Wait, 3));
    var rest := LastFinishes(s2, a, b, |s.sh.accepted|, task);
    FoldAppend(Next, s1, CallThen(b, Wait, 3), rest);
    FoldAppend(Next, s, CallThen(a, Wait, 3), CallThen(b, Wait, 3) + rest);
    es := CallThen(a, Wait, 3) + (CallThen(b, Wait, 3) + rest);
  }

  /** In every pool: with two threads that wait, and thpool_worker_try_once not used at all, one of them can be
      stranded. */
  lemma {:induction false} TwoWaitersStrandOne(workers: nat, clients: nat, size: nat, a: nat, b: nat, task: Task)
    returns (es: seq<Event>)
    requires workers >= 1 && size >= 1
    requires workers <= a < workers + clients && workers <= b < workers + clients && a != b
    ensures Obeys(es, {a, b}, {}) && Stranded(Schedule(Init(workers, clients, size), es), b)
  {
    var s0 := Init(workers, clients, size);
    var add := AddAlone(s0, a, task);
    var s1 := Schedule(s0, add);
    WorkerTakes(s1, 0);
    var s2 := Schedule(s1, Solo(0, 0, 6));
    var rest := TwoSleep(s2, a, b, task);
    FoldAppend(Next, s1, Solo(0, 0, 6), rest);
    FoldAppend(Next, s0, add, Solo(0, 0, 6) + rest);
    es := add + (Solo(0, 0, 6) + rest);
  }

  // ---------------------------------------------------------------- exactly when thpool_wait is woken

  /** A thread that may not call thpool_wait is never in it. */
  lemma {:induction false} NeverWaits(s: State, es: seq<Event>, waiters: set<nat>, tries: set<nat>, c: nat)
    requires Obeys(es, waiters, tries) && c !in waiters && c < |s.threads| && !s.threads[c].Waiting?
    ensures var r := Schedule(s, es); |r.threads| == |s.threads| && !r.threads[c].Waiting?
    decreases |es|
  {
    if es != [] {
      NextShape(s, es[0]);
      if es[0].t == c && Steps(s, es[0]) { StepWaits(s.sh, s.threads[c]); }
      NeverWaits(Next(s, es[0]), es[1..], waiters, tries, c);
    }
  }

  lemma StepWaits(sh: Shared, pc: Pc)
    requires !pc.Waiting?
    ensures !Step(sh, pc).pc.Waiting?
  {
  }

  lemma {:induction false} StrandedUnheard(s: State, a: nat)
    requires Stranded(s, a)
    ensures !Heard(s)
  {
    SumZero(Bound, s.threads);
  }

  /** For every pool and every policy: on all runs that obey it, whoever sleeps in thpool_wait with nothing left to
      wait for has a worker on its way to the signal, if and only if no two different threads may, the one wait
      and the other wait or use thpool_worker_try_once. */
  lemma {:induction false} WakeupIff(workers: nat, clients: nat, size: nat, waiters: set<nat>, tries: set<nat>)
    requires workers >= 1 && size >= 1
    requires forall c :: c in waiters + tries ==> workers <= c < workers + clients
    ensures (forall es :: Obeys(es, waiters, tries) ==> Heard(Schedule(Init(workers, clients, size), es)))
            <==> (forall a, b :: a in waiters && b in waiters + tries ==> a == b)
  {
    var s := Init(workers, clients, size);
    if a, b :| a in waiters && b in waiters + tries && a != b {
      var es;
      var task := Task(0, 0);
      if b in waiters {
        es := TwoWaitersStrandOne(workers, clients, size, a, b, task);
        StrandedUnheard(Schedule(s, es), b);
      } else {
        es := TryOnceStrandsWaiter(workers, clients, size, a, b, task);
        StrandedUnheard(Schedule(s, es), a);
      }
      assert Obeys(es, waiters, tries);
    } else {
      forall es | Obeys(es, waiters, tries) ensures Heard(Schedule(s, es)) {
        OneIsHeard(workers, clients, size, waiters, tries, es);
      }
    }
  }

  lemma {:induction false} OneIsHeard(workers: nat, clients: nat, size: nat, waiters: set<nat>, tries: set<nat>,
                                      es: seq<Event>)
    requires forall c :: c in waiters + tries ==> workers <= c < workers + clients
    requires forall a, b :: a in waiters && b in waiters + tries ==> a == b
    requires Obeys(es, waiters, tries)
    ensures Heard(Schedule(Init(workers, clients, size), es))
  {
    var s := Init(workers, clients, size);
    var r := Schedule(s, es);
    if c :| 0 <= c < |r.threads| && Overslept(r.sh, r.threads[c]) {
      SameShape(s, es);
      if c !in waiters {
        NeverWaits(s, es, waiters, tries, c);
        assert false;
      }
      assert c in waiters + tries;
      forall e | e in es ensures KeepsOneWaiter(e, c) {
        if e.act.Call? && (e.act.op.TryOnce? || e.act.op.Wait?) { assert e.t in waiters + tries; }
      }
      var u := CompletionIsSignalled(workers, clients, size, c, es);
      SumMember(Bound, r.threads, u);
    }
  }
}
