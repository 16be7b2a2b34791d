/** What node ownership is worth, and what lfthpool_wait really guarantees. */
module LfPoolTheorems {
  import opened Sums
  import opened Tasks
  import opened LfPoolModel
  import opened LfPoolInvariant
  import opened Trails

  predicate Steps(s: State, e: Event) {
    e.t < |s.threads| && e.act.Go? && !s.threads[e.t].Joining? && !s.sh.deleted
  }

  // ---------------------------------------------------------------- ownership

  /** Over every schedule, no node is used after it was freed and none is freed twice; also not by the
      deletion of the queue. */
  lemma {:induction false} NeverFaults(workers: nat, clients: nat, cap: nat, es: seq<Event>)
    ensures !Schedule(Init(workers, clients, cap), es).sh.fault
  {
    InitInv(workers, clients, cap);
    ScheduleInv(Init(workers, clients, cap), es);
  }

  /** No two threads have the same node, nobody has a queued one, and nobody has a freed one. */
  lemma {:induction false} UniqueOwner(s: State, n: nat, t: nat, u: nat)
    requires Inv(s) && n < |s.sh.nodes| && t < |s.threads| && u < |s.threads|
    requires Has(n)(s.threads[t]) == 1 && Has(n)(s.threads[u]) == 1
    ensures t == u && s.sh.nodes[n].live && n !in s.sh.queue
  {
    SumUpdate(Has(n), s.threads, t, Idle(0));
    if t != u {
      SumMember(Has(n), s.threads[t := Idle(0)], u);
    }
    assert n in s.sh.queue ==> multiset(s.sh.queue)[n] > 0;
  }

  /** A live node that nobody has is in the queue. */
  lemma {:induction false} OwnedSomewhere(s: State, n: nat) returns (t: nat)
    requires Inv(s) && n < |s.sh.nodes| && s.sh.nodes[n].live && n !in s.sh.queue
    ensures t < |s.threads| && Has(n)(s.threads[t]) == 1
  {
    assert multiset(s.sh.queue)[n] == 0;
    t := SumWitness(Has(n), s.threads);
  }

  // ---------------------------------------------------------------- freed once, run once

  /** Calls of free on node n in one event, and uses of it. */
  function FreesBy(s: State, e: Event, n: nat): nat {
    if !Steps(s, e) then 0 else
    match s.threads[e.t]
    case Run(_, m, r) => if r.Free? && m == n then 1 else 0
    case Adding(_, _, a) => if a.AFree? && a.n == n then 1 else 0
    case Control(x) => if x.DDelete? then multiset(s.sh.queue)[n] else 0
    case _ => 0
  }

  function RunsBy(s: State, e: Event, n: nat): nat {
    if Steps(s, e) && s.threads[e.t].Run? && s.threads[e.t].n == n && s.threads[e.t].r.Exec? then 1 else 0
  }

  function Frees(s: State, es: seq<Event>, n: nat): nat
    decreases |es|
  {
    if es == [] then 0 else FreesBy(s, es[0], n) + Frees(Next(s, es[0]), es[1..], n)
  }

  function Runs(s: State, es: seq<Event>, n: nat): nat
    decreases |es|
  {
    if es == [] then 0 else RunsBy(s, es[0], n) + Runs(Next(s, es[0]), es[1..], n)
  }

  /** 1 for an allocated node not yet freed; allocation counts for what is still to come. */
  function Alive(s: State, n: nat): nat {
    if n < |s.sh.nodes| && s.sh.nodes[n].live then 1 else 0
  }

  function RunCount(s: State, n: nat): nat {
    if n < |s.sh.nodes| then s.sh.nodes[n].runs else 0
  }

  lemma {:induction false} NextNode(s: State, e: Event, n: nat)
    requires Inv(s)
    ensures var r := Next(s, e);
            && |s.sh.nodes| <= |r.sh.nodes| <= |s.sh.nodes| + 1
            && Alive(r, n) + FreesBy(s, e, n)
               == Alive(s, n) + (if |s.sh.nodes| <= n < |r.sh.nodes| then 1 else 0)
            && RunCount(r, n) == RunCount(s, n) + RunsBy(s, e, n)
  {
    if Steps(s, e) {
      var pc := s.threads[e.t];
      var c := Step(s.sh, pc, e.act.luck).change;
      StepAllowed(s, e.t, e.act.luck);
      ApplyNodes(s.sh, e.t, c);
      assert PcOk(s.sh, e.t, pc);
      ChangeOf(s.sh, pc, e.act.luck, n);
      Unowned(s, n);
    }
  }

  /** Which steps free a node and which run it. */
  lemma ChangeOf(sh: Shared, pc: Pc, luck: Luck, n: nat)
    ensures var c := Step(sh, pc, luck).change;
            && (c == Release(n) <==> (pc.Run? && pc.r.Free? && pc.n == n) || (pc.Adding? && pc.a.AFree? && pc.a.n == n))
            && (c == Use(n) <==> pc.Run? && pc.r.Exec? && pc.n == n)
            && (c.Delete? <==> pc == Control(DDelete))
  {
  }

  /** The queue holds each node at most once, and only nodes that exist. */
  lemma {:induction false} Unowned(s: State, n: nat)
    requires Inv(s)
    ensures multiset(s.sh.queue)[n] == (if n in s.sh.queue then 1 else 0)
    ensures n in s.sh.queue ==> Alive(s, n) == 1
  {
    QueueLive(s);
    if n in s.sh.queue {
      assert multiset(s.sh.queue)[n] > 0;
    }
  }

  lemma {:induction false} NodeLedger(s: State, es: seq<Event>, n: nat)
    requires Inv(s) || (s.sh.deleted && !s.sh.fault)
    ensures var r := Schedule(s, es);
            && |s.sh.nodes| <= |r.sh.nodes|
            && Alive(r, n) + Frees(s, es, n) == Alive(s, n) + (if |s.sh.nodes| <= n < |r.sh.nodes| then 1 else 0)
            && RunCount(r, n) == RunCount(s, n) + Runs(s, es, n)
    decreases |es|
  {
    if es != [] {
      if Inv(s) {
        NextNode(s, es[0], n);
        NextInv(s, es[0]);
      }
      NodeLedger(Next(s, es[0]), es[1..], n);
    }
  }

  /** malloc and free balance: over every run a node ever allocated has been freed exactly once if it is not
      alive, and not at all if it is. */
  lemma {:induction false} FreedOnce(workers: nat, clients: nat, cap: nat, es: seq<Event>, n: nat)
    requires n < |Schedule(Init(workers, clients, cap), es).sh.nodes|
    ensures var s := Init(workers, clients, cap);
            Frees(s, es, n) == if Schedule(s, es).sh.nodes[n].live then 0 else 1
  {
    InitInv(workers, clients, cap);
    NodeLedger(Init(workers, clients, cap), es, n);
  }

  /** Nothing happens to a pool that has been freed. */
  lemma {:induction false} DeletedStays(s: State, es: seq<Event>)
    requires s.sh.deleted
    ensures Schedule(s, es) == s
    decreases |es|
  {
    if es != [] {
      DeletedStays(Next(s, es[0]), es[1..]);
    }
  }

  /** The deletion runs nothing and forgets nothing. */
  lemma {:induction false} Deletes(s: State, e: Event)
    requires Inv(s) && Next(s, e).sh.deleted
    ensures Steps(s, e) && s.threads[e.t] == Control(DDelete)
    ensures var r := Next(s, e);
            && r.sh.enqueued == s.sh.enqueued && |r.sh.nodes| == |s.sh.nodes|
            && forall n :: 0 <= n < |s.sh.nodes| ==> r.sh.nodes[n].runs == s.sh.nodes[n].runs
  {
    if Steps(s, e) {
      var c := Step(s.sh, s.threads[e.t], e.act.luck).change;
      DeletesOnly(s.sh, e.t, s.threads[e.t], e.act.luck);
      StepAllowed(s, e.t, e.act.luck);
      ApplyNodes(s.sh, e.t, c);
    }
  }

  lemma DeletesOnly(sh: Shared, t: nat, pc: Pc, luck: Luck)
    requires !sh.deleted
    ensures Apply(sh, t, Step(sh, pc, luck).change).deleted ==> pc == Control(DDelete)
  {
  }

  /** Run at most as often as it was enqueued, which is at most once. */
  predicate Capped(sh: Shared, n: nat) {
    n < |sh.nodes| ==> sh.nodes[n].runs <= multiset(sh.enqueued)[n] <= 1
  }

  lemma {:induction false} InvCapped(s: State, n: nat)
    requires Inv(s)
    ensures Capped(s.sh, n)
  {
    assert multiset(s.sh.enqueued) == multiset(s.sh.dequeued) + multiset(s.sh.queue);
  }

  lemma {:induction false} ScheduleCapped(s: State, es: seq<Event>, n: nat)
    requires Inv(s)
    ensures Capped(Schedule(s, es).sh, n)
    decreases |es|
  {
    InvCapped(s, n);
    if es != [] {
      var s1 := Next(s, es[0]);
      NextInv(s, es[0]);
      if Inv(s1) {
        ScheduleCapped(s1, es[1..], n);
      } else {
        Deletes(s, es[0]);
        DeletedStays(s1, es[1..]);
      }
    }
  }

  /** A task's function runs at most once, and not unless its node was enqueued, also in a run that ends with the
      pool destroyed. */
  lemma {:induction false} RunOnce(workers: nat, clients: nat, cap: nat, es: seq<Event>, n: nat)
    requires n < |Schedule(Init(workers, clients, cap), es).sh.nodes|
    ensures var s := Init(workers, clients, cap);
            Runs(s, es, n) <= multiset(Schedule(s, es).sh.enqueued)[n] <= 1
  {
    InitInv(workers, clients, cap);
    ScheduleCapped(Init(workers, clients, cap), es, n);
    NodeLedger(Init(workers, clients, cap), es, n);
  }

  // ---------------------------------------------------------------- lfthpool_destroy

  predicate WorkersGone(s: State) {
    s.workers <= |s.threads| && forall u :: 0 <= u < s.workers ==> s.threads[u] == Work(VExited)
  }

  predicate NobodyHas(s: State) {
    forall u, n :: 0 <= u < |s.threads| && 0 <= n < |s.sh.nodes| ==> Has(n)(s.threads[u]) == 0
  }

  predicate AllFreed(sh: Shared) {
    forall n :: 0 <= n < |sh.nodes| ==> !sh.nodes[n].live
  }

  /** Deleting the queue frees every remaining node of the pool exactly when no thread has one in its hands,
      that is, when nobody uses the pool concurrently; by then every worker has exited. */
  lemma {:induction false} DestroyFreesAll(s: State, t: nat, luck: Luck)
    requires Inv(s) && t < |s.threads| && s.threads[t] == Control(DDelete)
    ensures AllFreed(GoStep(s, t, luck).sh) <==> NobodyHas(s)
    ensures forall u :: 0 <= u < s.workers ==> s.threads[u] == Work(VExited)
  {
    var r := GoStep(s, t, luck);
    DeleteFrees(s, t);
    if NobodyHas(s) {
      forall n | 0 <= n < |s.sh.nodes| ensures !r.sh.nodes[n].live {
        SumZero(Has(n), s.threads);
      }
    }
    if AllFreed(r.sh) {
      forall u, n | 0 <= u < |s.threads| && 0 <= n < |s.sh.nodes| ensures Has(n)(s.threads[u]) == 0 {
        assert !r.sh.nodes[n].live;
        SumMember(Has(n), s.threads, u);
      }
    }
  }

  lemma {:induction false} DeleteFrees(s: State, t: nat)
    requires Inv(s) && t < |s.threads| && s.threads[t] == Control(DDelete)
    ensures var sh := Apply(s.sh, t, Delete);
            && |sh.nodes| == |s.sh.nodes|
            && (forall n :: 0 <= n < |sh.nodes| ==> (!sh.nodes[n].live <==> Sum(Has(n), s.threads) == 0))
  {
    StepAllowed(s, t, Fine);
    ApplyNodes(s.sh, t, Delete);
    forall n | 0 <= n < |s.sh.nodes|
      ensures !Apply(s.sh, t, Delete).nodes[n].live <==> Sum(Has(n), s.threads) == 0
    {
      Unowned(s, n);
    }
  }

  /** Unlike thpool, shutdown does not drain: when destroy deletes the queue with nobody using the pool, an
      accepted task has been run, once, exactly if it is no longer queued. */
  lemma {:induction false} DestroyDropsQueue(s: State, t: nat, i: nat)
    requires Inv(s) && t < |s.threads| && s.threads[t] == Control(DDelete) && NobodyHas(s)
    requires i < |s.sh.enqueued|
    ensures s.sh.nodes[s.sh.enqueued[i]].runs == if s.sh.enqueued[i] in s.sh.queue then 0 else 1
  {
    var n := s.sh.enqueued[i];
    forall u | 0 <= u < |s.threads| ensures Before(n)(s.threads[u]) == 0 {
      assert Has(n)(s.threads[u]) == 0;
    }
    SumZero(Before(n), s.threads);
    Unowned(s, n);
    assert n in multiset(s.sh.enqueued);
    assert multiset(s.sh.enqueued) == multiset(s.sh.dequeued) + multiset(s.sh.queue);
  }

  // ---------------------------------------------------------------- lfthpool_wait

  /** Is between its dequeue and its increment of running_count. */
  function InWindow(pc: Pc): nat { if pc.Run? && pc.r.Incr? then 1 else 0 }

  function AtIncr(n: nat): Pc -> nat {
    (pc: Pc) => if pc.Run? && pc.r.Incr? && pc.n == n then 1 else 0
  }

  predicate RunYet(sh: Shared, n: nat) { n < |sh.nodes| && sh.nodes[n].runs == 1 }

  /** The moment lfthpool_wait returns: a node enqueued before the queue was seen empty has run, or is in the
      hands of a thread between its dequeue and its increment. */
  lemma {:induction false} WaitGuarantee(s: State, t: nat, k: nat)
    requires Inv(s) && t < |s.threads| && s.threads[t].Waiting? && s.threads[t].c.LCheck?
    requires s.sh.running == 0 && k < s.threads[t].c.mark
    ensures s.threads[t].since <= s.threads[t].c.mark <= |s.sh.enqueued|
    ensures s.sh.enqueued[k] < |s.sh.nodes|
    ensures Sum(AtIncr(s.sh.enqueued[k]), s.threads) == if RunYet(s.sh, s.sh.enqueued[k]) then 0 else 1
  {
    assert PcOk(s.sh, t, s.threads[t]);
    var n := s.sh.enqueued[k];
    assert s.sh.dequeued[k] == n && n in multiset(s.sh.dequeued);
    assert multiset(s.sh.enqueued) == multiset(s.sh.dequeued) + multiset(s.sh.queue);
    forall u | 0 <= u < |s.threads| ensures AtIncr(n)(s.threads[u]) == Before(n)(s.threads[u]) {
      SumMember(Active, s.threads, u);
    }
    SumAgree(AtIncr(n), Before(n), s.threads);
    assert multiset(s.sh.dequeued)[n] >= 1;
    assert Sum(Offers(n), s.threads) + multiset(s.sh.enqueued)[n] <= 1;
    assert s.sh.nodes[n].runs + Sum(Before(n), s.threads) == multiset(s.sh.dequeued)[n];
  }

  lemma {:induction false} SumAgree(f: Pc -> nat, g: Pc -> nat, ts: seq<Pc>)
    requires forall u :: 0 <= u < |ts| ==> f(ts[u]) == g(ts[u])
    ensures Sum(f, ts) == Sum(g, ts)
  {
    if ts != [] {
      SumAgree(f, g, ts[1..]);
    }
  }

  /** So lfthpool_wait returns with every such task finished exactly if no thread stands in that window with
      one of them. */
  lemma {:induction false} WaitCompleteIff(s: State, t: nat)
    requires Inv(s) && t < |s.threads| && s.threads[t].Waiting? && s.threads[t].c.LCheck? && s.sh.running == 0
    ensures s.threads[t].c.mark <= |s.sh.enqueued|
    ensures (forall k: nat :: k < s.threads[t].c.mark ==> RunYet(s.sh, s.sh.enqueued[k]))
            <==> (forall u, k: nat :: 0 <= u < |s.threads| && k < s.threads[t].c.mark ==>
                    AtIncr(s.sh.enqueued[k])(s.threads[u]) == 0)
  {
    assert PcOk(s.sh, t, s.threads[t]);
    var mark := s.threads[t].c.mark;
    forall k: nat | k < mark
      ensures RunYet(s.sh, s.sh.enqueued[k])
              <==> forall u :: 0 <= u < |s.threads| ==> AtIncr(s.sh.enqueued[k])(s.threads[u]) == 0
    {
      var n := s.sh.enqueued[k];
      WaitGuarantee(s, t, k);
      if RunYet(s.sh, n) {
        forall u | 0 <= u < |s.threads| ensures AtIncr(n)(s.threads[u]) == 0 {
          SumMember(AtIncr(n), s.threads, u);
        }
      } else {
        var u := SumWitness(AtIncr(n), s.threads);
        assert AtIncr(n)(s.threads[u]) != 0;
      }
    }
  }

  /** How many of the first `mark` enqueued nodes have not run. */
  function Unfinished(sh: Shared, mark: nat): nat
    requires mark <= |sh.enqueued|
  {
    if mark == 0 then 0 else
    Unfinished(sh, mark - 1) + (if RunYet(sh, sh.enqueued[mark - 1]) then 0 else 1)
  }

  /** Threads in the window with one of the first `mark` nodes. */
  function WindowOf(ns: seq<nat>): Pc -> nat {
    (pc: Pc) => if pc.Run? && pc.r.Incr? && pc.n in ns then 1 else 0
  }

  lemma {:induction false} WindowSplit(ns: seq<nat>, n: nat, ts: seq<Pc>)
    requires n !in ns
    ensures Sum(WindowOf(ns + [n]), ts) == Sum(WindowOf(ns), ts) + Sum(AtIncr(n), ts)
  {
    if ts != [] {
      WindowSplit(ns, n, ts[1..]);
    }
  }

  lemma {:induction false} UnfinishedInWindow(s: State, t: nat, mark: nat)
    requires Inv(s) && t < |s.threads| && s.threads[t].Waiting? && s.threads[t].c.LCheck? && s.sh.running == 0
    requires mark <= s.threads[t].c.mark <= |s.sh.enqueued|
    ensures Unfinished(s.sh, mark) == Sum(WindowOf(s.sh.enqueued[..mark]), s.threads)
  {
    if mark == 0 {
      SumZero(WindowOf(s.sh.enqueued[..0]), s.threads);
    } else {
      var n := s.sh.enqueued[mark - 1];
      UnfinishedInWindow(s, t, mark - 1);
      WaitGuarantee(s, t, mark - 1);
      EnqueuedOnce(s, mark - 1);
      assert s.sh.enqueued[..mark] == s.sh.enqueued[..mark - 1] + [n];
      WindowSplit(s.sh.enqueued[..mark - 1], n, s.threads);
    }
  }

  lemma {:induction false} EnqueuedOnce(s: State, k: nat)
    requires Inv(s) && k < |s.sh.enqueued|
    ensures s.sh.enqueued[k] !in s.sh.enqueued[..k]
  {
    Counted(s.sh.enqueued, k);
    assert multiset(s.sh.enqueued)[s.sh.enqueued[k]] <= 1;
  }

  lemma {:induction false} WindowBelow(ns: seq<nat>, ts: seq<Pc>)
    ensures Sum(WindowOf(ns), ts) <= Sum(InWindow, ts)
  {
    if ts != [] {
      WindowBelow(ns, ts[1..]);
    }
  }

  /** The tasks lfthpool_wait leaves unfinished number at most the threads in the window. */
  lemma {:induction false} WaitShortfall(s: State, t: nat)
    requires Inv(s) && t < |s.threads| && s.threads[t].Waiting? && s.threads[t].c.LCheck? && s.sh.running == 0
    ensures s.threads[t].c.mark <= |s.sh.enqueued|
    ensures Unfinished(s.sh, s.threads[t].c.mark) <= Sum(InWindow, s.threads)
  {
    assert PcOk(s.sh, t, s.threads[t]);
    UnfinishedInWindow(s, t, s.threads[t].c.mark);
    WindowBelow(s.sh.enqueued[..s.threads[t].c.mark], s.threads);
  }

  /** lfthpool_wait when both counts are 0. */
  lemma {:induction false} LookThrice(s: State, t: nat) returns (es: seq<Event>)
    requires t < |s.threads| && s.threads[t].Waiting? && s.threads[t].c.LActive? && !s.sh.deleted
    requires s.sh.running == 0 && s.sh.queue == []
    ensures Schedule(s, es) == s.(threads := s.threads[t := Waited(s.threads[t].since, |s.sh.enqueued|)])
  {
    var go := Event(t, Action.Go(Fine));
    var s1 := Next(s, go);
    var s2 := Next(s1, go);
    FoldCons(Next, s2, go, []);
    FoldCons(Next, s1, go, [go] + []);
    es := [go] + ([go] + ([go] + []));
    FoldCons(Next, s, go, [go] + ([go] + []));
    assert s2.threads[t := Waited(s.threads[t].since, |s.sh.enqueued|)]
        == s.threads[t := Waited(s.threads[t].since, |s.sh.enqueued|)];
  }

  /** The shortfall is real in every pool: there is a run in which lfthpool_wait returns although a task that the
      very same thread had added before the call has not begun. */
  lemma {:induction false} WaitIsWeak(workers: nat, clients: nat, cap: nat, c: nat, task: Task)
    returns (es: seq<Event>)
    requires workers >= 1 && cap >= 1 && workers <= c < workers + clients
    ensures var r := Schedule(Init(workers, clients, cap), es);
            && c < |r.threads| && r.threads[c] == Waited(1, 1)
            && r.sh.enqueued == [0] && r.sh.nodes == [Node(task, true, 0)]
  {
    var add, go := Event(c, Call(Add(task))), Event(c, Action.Go(Fine));
    var s0 := Init(workers, clients, cap);
    var s1 := Next(s0, add);
    var s2 := Next(s1, go);
    var s3 := Next(s2, go);
    assert s3.threads[0] == Work(VShut) && s3.threads[c] == Idle(0);
    es := WaitMissesWindow(s3, c);
    FoldCons(Next, s2, go, es);
    es := [go] + es;
    FoldCons(Next, s1, go, es);
    es := [go] + es;
    FoldCons(Next, s0, add, es);
    es := [add] + es;
  }

  /** Worker 0 reaches its dequeue, the call starts, the worker dequeues, the call looks. */
  lemma {:induction false} WaitMissesWindow(s: State, c: nat) returns (es: seq<Event>)
    requires 0 < c < |s.threads| && s.threads[0] == Work(VShut) && s.threads[c] == Idle(0)
    requires !s.sh.deleted && !s.sh.shutdown && !s.sh.hold
    requires s.sh.queue == [0] && s.sh.enqueued == [0] && s.sh.running == 0
    ensures var r := Schedule(s, es);
            && c < |r.threads| && r.threads[c] == Waited(1, 1) && r.sh.enqueued == [0] && r.sh.nodes == s.sh.nodes
  {
    var go, wait := Event(0, Action.Go(Fine)), Event(c, Call(Wait));
    var s1 := Next(s, go);
    var s2 := Next(s1, go);
    var s3 := Next(s2, wait);
    assert s3.threads[0] == Work(VDeq) && s3.threads[c] == Waiting(1, LActive);
    var s4 := Next(s3, go);
    assert s4.threads[0] == Run(true, 0, Incr) && s4.threads[c] == Waiting(1, LActive);
    es := LookThrice(s4, c);
    FoldCons(Next, s3, go, es);
    es := [go] + es;
    FoldCons(Next, s2, wait, es);
    es := [wait] + es;
    FoldCons(Next, s1, go, es);
    es := [go] + es;
    FoldCons(Next, s, go, es);
    es := [go] + es;
  }

  // ---------------------------------------------------------------- pause

  predicate Resumes(s: State, e: Event) {
    Steps(s, e) && s.threads[e.t] == Control(RStore)
  }

  predicate NoResume(s: State, es: seq<Event>)
    decreases |es|
  {
    es == [] || (!Resumes(s, es[0]) && NoResume(Next(s, es[0]), es[1..]))
  }

  /** Nodes that worker u dequeues in a schedule. */
  function TakesBy(s: State, es: seq<Event>, u: nat): nat
    decreases |es|
  {
    if es == [] then 0 else
    (if Steps(s, es[0]) && es[0].t == u && s.threads[u] == Work(VDeq) && s.sh.queue != [] then 1 else 0)
    + TakesBy(Next(s, es[0]), es[1..], u)
  }

  lemma {:induction false} NextHeld(s: State, e: Event, u: nat)
    requires Roles(s) && !s.sh.deleted && s.sh.hold && !Resumes(s, e) && u < s.workers
    ensures var r := Next(s, e);
            !r.sh.deleted ==>
              && r.sh.hold && |r.sh.heldTakes| == |s.sh.heldTakes|
              && r.sh.heldTakes[u] == s.sh.heldTakes[u]
                 + (if Steps(s, e) && e.t == u && s.threads[u] == Work(VDeq) && s.sh.queue != [] then 1 else 0)
  {
    if Steps(s, e) && s.threads[e.t] != Control(DDelete) {
    }
  }

  lemma {:induction false} TakesBound(s: State, es: seq<Event>, u: nat)
    requires Inv(s) && s.sh.hold && NoResume(s, es) && u < s.workers
    ensures s.sh.heldTakes[u] + TakesBy(s, es, u) <= 1
    decreases |es|
  {
    assert PcOk(s.sh, u, s.threads[u]);
    if es != [] {
      NextHeld(s, es[0], u);
      NextInv(s, es[0]);
      if Inv(Next(s, es[0])) {
        TakesBound(Next(s, es[0]), es[1..], u);
      } else {
        NoMoreTakes(Next(s, es[0]), es[1..], u);
      }
    }
  }

  lemma {:induction false} NoMoreTakes(s: State, es: seq<Event>, u: nat)
    requires s.sh.deleted
    ensures TakesBy(s, es, u) == 0
    decreases |es|
  {
    if es != [] {
      NoMoreTakes(Next(s, es[0]), es[1..], u);
    }
  }

  /** After lfthpool_pause has stored hold, and until a resume, each worker dequeues at most one more node:
      here the hold test and the dequeue are apart. */
  lemma {:induction false} PauseBound(s: State, t: nat, luck: Luck, es: seq<Event>, u: nat)
    requires Inv(s) && t < |s.threads| && s.threads[t] == Control(PStore) && u < s.workers
    requires NoResume(GoStep(s, t, luck), es)
    ensures TakesBy(GoStep(s, t, luck), es, u) <= 1
  {
    assert Next(s, Event(t, Action.Go(luck))) == GoStep(s, t, luck);
    NextInv(s, Event(t, Action.Go(luck)));
    TakesBound(GoStep(s, t, luck), es, u);
  }

  /** A worker short of its dequeue takes what it finds; a client that has nothing else to do puts it there. */
  lemma {:induction false} DequeuerTakes(s: State, u: nat, t: nat) returns (es: seq<Event>)
    requires u < |s.threads| && s.threads[u] == Work(VDeq) && !s.sh.deleted
    requires t < |s.threads| && s.threads[t] == Idle(0) && s.sh.cap >= 1
    ensures NoResume(s, es) && TakesBy(s, es, u) == 1
  {
    var go := Event(u, Action.Go(Fine));
    if s.sh.queue != [] {
      es := [go];
      assert es[1..] == [];
    } else {
      var add, put := Event(t, Call(Add(Task(0, 0)))), Event(t, Action.Go(Fine));
      var s1 := Next(s, add);
      var s2 := Next(s1, put);
      var s3 := Next(s2, put);
      assert s3.sh.queue != [] && s3.threads[u] == Work(VDeq);
      TakesOnce(s3, go, u);
      Uneventful(s2, put, [go], u);
      Uneventful(s1, put, [put] + [go], u);
      Uneventful(s, add, [put] + ([put] + [go]), u);
      es := [add] + ([put] + ([put] + [go]));
    }
  }

  lemma {:induction false} TakesOnce(s: State, e: Event, u: nat)
    requires e == Event(u, Action.Go(Fine)) && u < |s.threads| && s.threads[u] == Work(VDeq)
    requires s.sh.queue != [] && !s.sh.deleted
    ensures NoResume(s, [e]) && TakesBy(s, [e], u) == 1
  {
    assert [e][1..] == [];
  }

  /** An event of another thread that is not in a resume. */
  lemma {:induction false} Uneventful(s: State, e: Event, es: seq<Event>, u: nat)
    requires e.t != u && (e.t < |s.threads| ==> s.threads[e.t] != Control(RStore))
    ensures NoResume(s, [e] + es) == NoResume(Next(s, e), es)
    ensures TakesBy(s, [e] + es, u) == TakesBy(Next(s, e), es, u)
  {
    assert ([e] + es)[0] == e && ([e] + es)[1..] == es;
  }

  lemma {:induction false} TakesNothing(s: State, es: seq<Event>, u: nat)
    requires Inv(s) && s.sh.hold && NoResume(s, es) && u < s.workers && s.threads[u] != Work(VDeq)
    ensures TakesBy(s, es, u) == 0
    decreases |es|
  {
    if es != [] {
      var r := Next(s, es[0]);
      NextHeld(s, es[0], u);
      NextInv(s, es[0]);
      if Inv(r) {
        TakesNothing(r, es[1..], u);
      } else {
        NoMoreTakes(r, es[1..], u);
      }
    }
  }

  /** In a queue with room for anything, worker u takes one more node in some run exactly if, at the store, it
      was past its hold test and short of its dequeue. */
  lemma {:induction false} PauseStopsIff(s: State, t: nat, luck: Luck, u: nat)
    requires Inv(s) && t < |s.threads| && s.threads[t] == Control(PStore) && u < s.workers && s.sh.cap >= 1
    ensures var r := GoStep(s, t, luck);
            (forall es :: NoResume(r, es) ==> TakesBy(r, es, u) == 0) <==> s.threads[u] != Work(VDeq)
  {
    var r := GoStep(s, t, luck);
    assert Next(s, Event(t, Action.Go(luck))) == r;
    NextInv(s, Event(t, Action.Go(luck)));
    assert r.threads == s.threads[t := Idle(0)];
    if s.threads[u] == Work(VDeq) {
      var es := DequeuerTakes(r, u, t);
      assert NoResume(r, es) && TakesBy(r, es, u) == 1;
    } else {
      forall es | NoResume(r, es) ensures TakesBy(r, es, u) == 0 {
        TakesNothing(r, es, u);
      }
    }
  }
}
