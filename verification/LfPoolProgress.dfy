/** The end of lfthpool_shutdown: every worker leaves, having dequeued at most one more node, and is joined. */
module LfPoolProgress {
  import opened LfPoolModel
  import opened LfPoolInvariant
  import opened LfPoolTheorems
  import opened Trails

  /** The most steps a worker can still take once the shutdown flag is set. */
  function Rank(pc: Pc): nat {
    match pc
    case Work(w) =>
      (match w
       case VExited => 0
       case VShut => 1
       case VHoldSleep => 2
       case VNap => 2
       case VDeq => 6
       case VHold => 7)
    case Run(_, _, r) =>
      (match r
       case Free => 2
       case Decr => 3
       case Exec => 4
       case Incr => 5)
    case _ => 0
  }

  /** Past the shutdown test and short of the dequeue. */
  function Reaching(pc: Pc): nat { if pc == Work(VHold) || pc == Work(VDeq) then 1 else 0 }

  /** Steps that a schedule offers to worker u. */
  function Turns(es: seq<Event>, u: nat): nat {
    if es == [] then 0 else (if es[0].t == u && es[0].act.Go? then 1 else 0) + Turns(es[1..], u)
  }

  lemma StepRank(sh: Shared, pc: Pc, luck: Luck)
    requires sh.shutdown && IsWorker(pc) && pc != Work(VExited)
    ensures var next := Step(sh, pc, luck).pc;
            && Rank(next) < Rank(pc)
            && Reaching(next) + (if pc == Work(VDeq) && sh.queue != [] then 1 else 0) <= Reaching(pc)
  {
  }

  lemma StaysShut(sh: Shared, t: nat, pc: Pc, luck: Luck)
    requires sh.shutdown && pc != Control(DDelete)
    ensures Apply(sh, t, Step(sh, pc, luck).change).shutdown
  {
  }

  lemma {:induction false} NextRank(s: State, e: Event, u: nat)
    requires Inv(s) && s.sh.shutdown && u < s.workers
    ensures var r := Next(s, e);
            && u < |r.threads| && (!r.sh.deleted ==> r.sh.shutdown)
            && (r.sh.deleted ==> r.threads[u] == Work(VExited))
            && Rank(r.threads[u]) <= Rank(s.threads[u])
            && (e.t == u && e.act.Go? && s.threads[u] != Work(VExited) ==> Rank(r.threads[u]) < Rank(s.threads[u]))
            && (s.threads[u] == Work(VExited) ==> r.threads[u] == Work(VExited))
            && Reaching(r.threads[u])
               + (if Steps(s, e) && e.t == u && s.threads[u] == Work(VDeq) && s.sh.queue != [] then 1 else 0)
               <= Reaching(s.threads[u])
  {
    if Steps(s, e) && s.threads[e.t] != Control(DDelete) {
      StaysShut(s.sh, e.t, s.threads[e.t], e.act.luck);
      NotDeleted(s.sh, e.t, s.threads[e.t], e.act.luck);
      if e.t == u && s.threads[u] != Work(VExited) { StepRank(s.sh, s.threads[u], e.act.luck); }
    }
  }

  lemma NotDeleted(sh: Shared, t: nat, pc: Pc, luck: Luck)
    requires pc != Control(DDelete) && !sh.deleted
    ensures !Apply(sh, t, Step(sh, pc, luck).change).deleted
  {
  }

  /** After the shutdown store a worker has exited once it has had at most seven steps of its own, whatever the
      others do and even if the pool is on hold; on the way it dequeues at most one more node, and only if it was
      past its shutdown test. */
  lemma {:induction false} WorkerLeaves(s: State, es: seq<Event>, u: nat)
    requires Inv(s) && s.sh.shutdown && u < s.workers
    ensures var r := Schedule(s, es);
            && u < |r.threads|
            && (Turns(es, u) >= Rank(s.threads[u]) ==> r.threads[u] == Work(VExited))
            && TakesBy(s, es, u) <= Reaching(s.threads[u])
    ensures Rank(s.threads[u]) <= 7
    decreases |es|
  {
    if es != [] {
      var s1 := Next(s, es[0]);
      NextRank(s, es[0], u);
      NextInv(s, es[0]);
      if Inv(s1) {
        WorkerLeaves(s1, es[1..], u);
      } else {
        DeletedStays(s1, es[1..]);
        NoMoreTakes(s1, es[1..], u);
      }
    }
  }

  function Solo(u: nat, k: nat): seq<Event> {
    seq(k, i => Event(u, Action.Go(Fine)))
  }

  lemma {:induction false} SoloTurns(u: nat, k: nat)
    ensures Turns(Solo(u, k), u) == k
  {
    if k > 0 {
      assert Solo(u, k)[1..] == Solo(u, k - 1);
      SoloTurns(u, k - 1);
    }
  }

  /** Steps of worker u alone leave every other thread where it is. */
  lemma {:induction false} SoloKeeps(s: State, u: nat, k: nat)
    requires Inv(s) && s.sh.shutdown && u < s.workers
    ensures var r := Schedule(s, Solo(u, k));
            && Inv(r) && r.sh.shutdown && r.workers == s.workers && |r.threads| == |s.threads|
            && forall t :: 0 <= t < |s.threads| && t != u ==> r.threads[t] == s.threads[t]
    decreases k
  {
    if k > 0 {
      var s1 := Next(s, Event(u, Action.Go(Fine)));
      assert Solo(u, k)[1..] == Solo(u, k - 1);
      assert s.threads[u] != Control(DDelete);
      NextRank(s, Event(u, Action.Go(Fine)), u);
      NextInv(s, Event(u, Action.Go(Fine)));
      if Steps(s, Event(u, Action.Go(Fine))) { NotDeleted(s.sh, u, s.threads[u], Fine); }
      SoloKeeps(s1, u, k - 1);
    }
  }

  /** All steps are of calls already made. */
  predicate OnlySteps(es: seq<Event>) {
    forall e :: e in es ==> e.act.Go?
  }

  /** Workers i and later leave one after the other, and are joined. */
  lemma {:induction false} JoinsComplete(s: State, t: nat) returns (es: seq<Event>)
    requires Inv(s) && s.sh.shutdown && t < |s.threads| && s.threads[t].Joining?
    ensures var r := Schedule(s, es);
            && OnlySteps(es) && t < |r.threads|
            && r.threads[t] == (if s.threads[t].destroy then Control(DDelete) else Down)
    decreases s.workers - s.threads[t].i
  {
    var i := s.threads[t].i;
    var go := Event(t, Action.Go(Fine));
    if i == s.workers {
      es := [go] + [];
      FoldCons(Next, s, go, []);
    } else {
      var s1 := Schedule(s, Solo(i, 7));
      SoloTurns(i, 7);
      WorkerLeaves(s, Solo(i, 7), i);
      SoloKeeps(s, i, 7);
      var s2 := Next(s1, go);
      NextInv(s1, go);
      assert s2.threads[t] == Joining(i + 1, s.threads[t].destroy);
      var rest := JoinsComplete(s2, t);
      es := Solo(i, 7) + ([go] + rest);
      FoldAppend(Next, s, Solo(i, 7), [go] + rest);
      FoldCons(Next, s1, go, rest);
    }
  }
}
