/** What lfthpool_shutdown and lfthpool_destroy leave undone: unlike thpool's, they do not drain the queue. */
module LfPoolDrain {
  import opened Sums
  import opened Tasks
  import opened LfPoolAlone
  import opened LfPoolModel
  import opened LfPoolInvariant
  import opened LfPoolTheorems
  import opened LfPoolProgress
  import opened Trails

  /** Will still dequeue once, after the shutdown store. */
  function Will(hold: bool): Pc -> nat {
    (pc: Pc) => if pc == Work(VDeq) || (pc == Work(VHold) && !hold) then 1 else 0
  }

  /** Neither adding, nor running a task by thpool_worker_try_once, nor pausing or resuming. */
  predicate Bystander(pc: Pc) {
    && (pc.Adding? ==> pc.a.AFree?)
    && (pc.Run? ==> pc.worker)
    && (pc.Control? ==> !pc.x.TDeq? && !pc.x.PStore? && !pc.x.RStore?)
  }

  predicate Undisturbed(s: State) {
    forall t :: 0 <= t < |s.threads| ==> Bystander(s.threads[t])
  }

  /** How many of the queued nodes no worker will dequeue any more. */
  function Leftover(s: State): nat {
    if |s.sh.queue| <= Sum(Will(s.sh.hold), s.threads) then 0 else |s.sh.queue| - Sum(Will(s.sh.hold), s.threads)
  }

  lemma StepLeftover(sh: Shared, t: nat, pc: Pc, luck: Luck)
    requires sh.shutdown && Bystander(pc) && pc != Control(DDelete)
    ensures var m := Step(sh, pc, luck);
            var sh' := Apply(sh, t, m.change);
            && Bystander(m.pc) && sh'.hold == sh.hold && sh'.shutdown && sh'.enqueued == sh.enqueued
            && if pc == Work(VDeq) then
                 Will(sh.hold)(m.pc) == 0 && |sh'.queue| == if sh.queue == [] then 0 else |sh.queue| - 1
               else Will(sh.hold)(m.pc) == Will(sh.hold)(pc) && sh'.queue == sh.queue
  {
  }

  /** Every step of the pool and of its bystanders keeps the leftover. */
  lemma {:induction false} NextLeftover(s: State, e: Event)
    requires Inv(s) && s.sh.shutdown && Undisturbed(s) && e.act.Go? && !Next(s, e).sh.deleted
    ensures var r := Next(s, e);
            && r.sh.shutdown && Undisturbed(r) && r.sh.enqueued == s.sh.enqueued && Leftover(r) == Leftover(s)
  {
    if e.t < |s.threads| {
      var pc, r := s.threads[e.t], Next(s, e);
      SumUpdate(Will(s.sh.hold), s.threads, e.t, r.threads[e.t]);
      if Steps(s, e) { StepLeftover(s.sh, e.t, pc, e.act.luck); }
    }
  }

  // ---------------------------------------------------------------- and when the workers are gone

  lemma {:induction false} GoneTakeNothing(s: State)
    requires Roles(s) && WorkersGone(s)
    ensures Leftover(s) == |s.sh.queue|
  {
    SumZero(Will(s.sh.hold), s.threads);
  }

  /** A node that was dequeued has run, one that was not has not. */
  lemma {:induction false} RanIfDequeued(s: State, k: nat)
    requires Inv(s) && WorkersGone(s) && Undisturbed(s) && k < |s.sh.enqueued|
    ensures RunYet(s.sh, s.sh.enqueued[k]) <==> k < |s.sh.dequeued|
  {
    var n := s.sh.enqueued[k];
    SumZero(Before(n), s.threads);
    assert multiset(s.sh.enqueued) == multiset(s.sh.dequeued) + multiset(s.sh.queue);
    assert n in multiset(s.sh.enqueued);
    if k < |s.sh.dequeued| {
      assert s.sh.dequeued[k] == n && n in multiset(s.sh.dequeued);
    } else {
      assert s.sh.queue[k - |s.sh.dequeued|] == n && n in multiset(s.sh.queue);
    }
  }

  lemma {:induction false} UnfinishedAreQueued(s: State, mark: nat)
    requires Inv(s) && WorkersGone(s) && Undisturbed(s) && mark <= |s.sh.enqueued|
    ensures Unfinished(s.sh, mark) == if mark <= |s.sh.dequeued| then 0 else mark - |s.sh.dequeued|
  {
    if mark > 0 {
      RanIfDequeued(s, mark - 1);
      UnfinishedAreQueued(s, mark - 1);
    }
  }

  lemma {:induction false} SameRuns(a: Shared, b: Shared, mark: nat)
    requires a.enqueued == b.enqueued && |a.nodes| == |b.nodes| && mark <= |a.enqueued|
    requires forall n :: 0 <= n < |a.nodes| ==> a.nodes[n].runs == b.nodes[n].runs
    ensures Unfinished(a, mark) == Unfinished(b, mark)
  {
    if mark > 0 {
      SameRuns(a, b, mark - 1);
    }
  }

  /** The law of lfthpool_shutdown and lfthpool_destroy.  From any state after the shutdown store, such as the very
      next, with nobody else using the pool and no new call: once the workers are gone, or the pool is freed, the
      accepted tasks that have not run are exactly as many as were queued then beyond the workers then at their
      dequeue, or past their shutdown test with hold off. */
  lemma {:induction false} ShutdownLeaves(s: State, es: seq<Event>)
    requires Inv(s) && s.sh.shutdown && Undisturbed(s) && OnlySteps(es)
    requires var r := Schedule(s, es); r.sh.deleted || WorkersGone(r)
    ensures var r := Schedule(s, es);
            r.sh.enqueued == s.sh.enqueued && Unfinished(r.sh, |r.sh.enqueued|) == Leftover(s)
    decreases |es|
  {
    if es == [] {
      GoneTakeNothing(s);
      UnfinishedAreQueued(s, |s.sh.enqueued|);
    } else {
      var s1 := Next(s, es[0]);
      NextInv(s, es[0]);
      if s1.sh.deleted {
        DeletedStays(s1, es[1..]);
        Deletes(s, es[0]);
        GoneTakeNothing(s);
        UnfinishedAreQueued(s, |s.sh.enqueued|);
        SameRuns(s.sh, s1.sh, |s.sh.enqueued|);
      } else {
        NextLeftover(s, es[0]);
        ShutdownLeaves(s1, es[1..]);
      }
    }
  }

  lemma {:induction false} NoneUnfinished(sh: Shared, mark: nat)
    requires mark <= |sh.enqueued|
    ensures Unfinished(sh, mark) == 0 <==> forall k :: 0 <= k < mark ==> RunYet(sh, sh.enqueued[k])
  {
    if mark > 0 {
      NoneUnfinished(sh, mark - 1);
    }
  }

  /** Hence every accepted task runs, once, if and only if no more were queued than there were such workers. */
  lemma {:induction false} AllRunIff(s: State, es: seq<Event>)
    requires Inv(s) && s.sh.shutdown && Undisturbed(s) && OnlySteps(es)
    requires var r := Schedule(s, es); r.sh.deleted || WorkersGone(r)
    ensures var r := Schedule(s, es);
            (forall k :: 0 <= k < |r.sh.enqueued| ==> RunYet(r.sh, r.sh.enqueued[k]))
            <==> |s.sh.queue| <= Sum(Will(s.sh.hold), s.threads)
  {
    ShutdownLeaves(s, es);
    NoneUnfinished(Schedule(s, es).sh, |Schedule(s, es).sh.enqueued|);
  }

  // ---------------------------------------------------------------- a task dropped

  /** Workers i and later find the flag set and exit. */
  lemma {:induction false} ExitAll(s: State, i: nat) returns (es: seq<Event>)
    requires s.sh.shutdown && !s.sh.deleted && i <= s.workers <= |s.threads|
    requires forall u :: i <= u < s.workers ==> s.threads[u] == Work(VShut)
    ensures OnlySteps(es)
    ensures var r := Schedule(s, es);
            && r == s.(threads := r.threads) && |r.threads| == |s.threads|
            && forall u :: 0 <= u < |s.threads| ==>
                 r.threads[u] == if i <= u < s.workers then Work(VExited) else s.threads[u]
    decreases s.workers - i
  {
    if i == s.workers {
      es := [];
    } else {
      var go := Event(i, Action.Go(Fine));
      var rest := ExitAll(Next(s, go), i + 1);
      es := [go] + rest;
      FoldCons(Next, s, go, rest);
    }
  }

  /** And a thread in lfthpool_shutdown or lfthpool_destroy joins them all. */
  lemma {:induction false} JoinAll(s: State, t: nat) returns (es: seq<Event>)
    requires WorkersGone(s) && !s.sh.deleted && s.workers <= t < |s.threads|
    requires s.threads[t].Joining? && s.threads[t].i <= s.workers
    ensures OnlySteps(es)
    ensures Schedule(s, es) == s.(threads := s.threads[t := if s.threads[t].destroy then Control(DDelete) else Down])
    decreases s.workers - s.threads[t].i
  {
    var go := Event(t, Action.Go(Fine));
    var s1 := Next(s, go);
    var rest := [];
    if s.threads[t].i < s.workers {
      rest := JoinAll(s1, t);
      var end := if s.threads[t].destroy then Control(DDelete) else Down;
      assert s1.threads[t := end] == s.threads[t := end];
    } else {
      assert Schedule(s1, []) == s1;
    }
    es := [go] + rest;
    FoldCons(Next, s, go, rest);
  }

  /** lfthpool_shutdown of a pool whose workers stand at their loop top: they exit, the call returns, and what is
      queued stays queued. */
  lemma {:induction false} ShutdownAlone(s: State, t: nat) returns (es: seq<Event>)
    requires s.workers <= t < |s.threads| && Ready(s.threads[t]) && !s.sh.deleted
    requires forall u :: 0 <= u < s.workers ==> s.threads[u] == Work(VShut)
    ensures forall e :: e in es && e.act.Call? ==> e == Event(t, Call(Shutdown))
    ensures var r := Schedule(s, es);
            && r.sh == s.sh.(shutdown := true) && |r.threads| == |s.threads|
            && forall u :: 0 <= u < |s.threads| ==>
                 r.threads[u] == if u < s.workers then Work(VExited) else if u == t then Down else s.threads[u]
  {
    var call, go := Event(t, Call(Shutdown)), Event(t, Action.Go(Fine));
    var s1 := Next(s, call);
    var s2 := Next(s1, go);
    var exit := ExitAll(s2, 0);
    var s3 := Schedule(s2, exit);
    var join := JoinAll(s3, t);
    es := [call] + ([go] + (exit + join));
    FoldAppend(Next, s2, exit, join);
    FoldCons(Next, s1, go, exit + join);
    FoldCons(Next, s, call, [go] + (exit + join));
  }

  /** An add and the store of lfthpool_destroy, by one thread, while the workers stand at their loop top. */
  lemma {:induction false} AddThenStore(workers: nat, clients: nat, cap: nat, c: nat, task: Task)
    returns (es: seq<Event>)
    requires cap >= 1 && workers <= c < workers + clients
    ensures forall e :: e in es && e.act.Call? ==> e == Event(c, Call(Add(task))) || e == Event(c, Call(Destroy))
    ensures var s := Init(workers, clients, cap);
            var r := Schedule(s, es);
            && r.threads == s.threads[c := Joining(0, true)] && r.workers == workers && r.sh.shutdown
            && !r.sh.deleted && r.sh.queue == [0] && r.sh.enqueued == [0] && r.sh.nodes == [Node(task, true, 0)]
  {
    var s0 := Init(workers, clients, cap);
    var add, down := CallThen(c, AddOp(true, task, 0), 2), CallThen(c, Destroy, 1);
    AddAlone(s0, c, true, task, 0);
    var s1 := Schedule(s0, add);
    Calls(s1, c, Destroy, 1);
    assert s1.threads[c := Joining(0, true)] == s0.threads[c := Joining(0, true)];
    es := add + down;
    FoldAppend(Next, s0, add, down);
  }

  /** In every pool: a thread adds a task, with success, and destroys the pool, and the task's node has been freed
      without ever having run. */
  lemma {:induction false} DestroyDropsTask(workers: nat, clients: nat, cap: nat, c: nat, task: Task)
    returns (es: seq<Event>)
    requires cap >= 1 && workers <= c < workers + clients
    ensures forall e :: e in es && e.act.Call? ==> e == Event(c, Call(Add(task))) || e == Event(c, Call(Destroy))
    ensures var r := Schedule(Init(workers, clients, cap), es);
            && r.sh.deleted && c < |r.threads| && r.threads[c] == Destroyed
            && r.sh.enqueued == [0] && r.sh.nodes == [Node(task, false, 0)]
  {
    var s0 := Init(workers, clients, cap);
    var a := AddThenStore(workers, clients, cap, c, task);
    var s1 := Schedule(s0, a);
    var exit := ExitAll(s1, 0);
    var s2 := Schedule(s1, exit);
    var join := JoinAll(s2, c);
    var s3 := Schedule(s2, join);
    var go := Event(c, Action.Go(Fine));
    DeletesOne(s3, c, task);
    FoldAppend(Next, s2, join, [go]);
    FoldAppend(Next, s1, exit, join + [go]);
    FoldAppend(Next, s0, a, exit + (join + [go]));
    es := a + (exit + (join + [go]));
  }

  lemma {:induction false} DeletesOne(s: State, c: nat, task: Task)
    requires c < |s.threads| && s.threads[c] == Control(DDelete) && !s.sh.deleted
    requires s.sh.queue == [0] && s.sh.nodes == [Node(task, true, 0)]
    ensures var r := Schedule(s, [Event(c, Action.Go(Fine))]);
            && r.sh.deleted && r.threads == s.threads[c := Destroyed]
            && r.sh.enqueued == s.sh.enqueued && r.sh.nodes == [Node(task, false, 0)]
  {
    var go := Event(c, Action.Go(Fine));
    var freed := FreeNode(s.sh, 0);
    assert s.sh.queue[1..] == [];
    assert FreeAll(freed, []) == freed;
    FoldCons(Next, s, go, []);
    assert [go] + [] == [go];
  }
}
