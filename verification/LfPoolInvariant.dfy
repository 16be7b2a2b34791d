/** Who owns each task node, kept by every step of every thread of the lock-free pool. */
module LfPoolInvariant {
  import opened Sums
  import opened LfPoolModel

  // ---------------------------------------------------------------- weights

  /** Has the node in its hands: an adder until it is enqueued or freed, an executor until it is freed. */
  function Has(n: nat): Pc -> nat {
    (pc: Pc) =>
      if pc.Run? && pc.n == n && (pc.worker || !pc.r.Decr?) then 1
      else if pc.Adding? && !pc.a.AAlloc? && pc.a.n == n then 1
      else 0
  }

  /** Has dequeued the node and not yet run it. */
  function Before(n: nat): Pc -> nat {
    (pc: Pc) => if pc.Run? && pc.n == n && (pc.r.Incr? || pc.r.Exec?) then 1 else 0
  }

  /** Is about to enqueue the node, or to give it up. */
  function Offers(n: nat): Pc -> nat {
    (pc: Pc) => if pc.Adding? && !pc.a.AAlloc? && pc.a.n == n then 1 else 0
  }

  /** Has raised running_count and not yet lowered it. */
  function Active(pc: Pc): nat {
    if pc.Run? && (pc.r.Exec? || pc.r.Decr? || (pc.r.Free? && !pc.worker)) then 1 else 0
  }

  predicate IsWorker(pc: Pc) { pc.Work? || (pc.Run? && pc.worker) }

  // ---------------------------------------------------------------- the clauses

  predicate Roles(s: State) {
    && s.workers <= |s.threads| == |s.sh.heldTakes|
    && forall t :: 0 <= t < |s.threads| ==> (IsWorker(s.threads[t]) <==> t < s.workers)
  }

  /** Exactly one owner for a live node, none for a freed one. */
  predicate OneOwner(s: State) {
    forall n :: 0 <= n < |s.sh.nodes| ==>
      Sum(Has(n), s.threads) + multiset(s.sh.queue)[n] == if s.sh.nodes[n].live then 1 else 0
  }

  /** A node is enqueued at most once, and only by the adder that has it. */
  predicate OneEnqueue(s: State) {
    forall n :: 0 <= n < |s.sh.nodes| ==> Sum(Offers(n), s.threads) + multiset(s.sh.enqueued)[n] <= 1
  }

  /** A node is run once it has been dequeued, once: it has run or the thread that dequeued it has it. */
  predicate OneRun(s: State) {
    forall n :: 0 <= n < |s.sh.nodes| ==>
      s.sh.nodes[n].runs + Sum(Before(n), s.threads) == multiset(s.sh.dequeued)[n]
  }

  predicate Fifo(sh: Shared) {
    && sh.dequeued + sh.queue == sh.enqueued
    && (forall i :: 0 <= i < |sh.enqueued| ==> sh.enqueued[i] < |sh.nodes|)
    && |sh.queue| <= sh.cap
    && !sh.fault
  }

  predicate PcOk(sh: Shared, t: nat, pc: Pc) {
    && (pc.Run? ==> pc.n < |sh.nodes|)
    && (pc.Adding? && !pc.a.AAlloc? ==> pc.a.n < |sh.nodes|)
    && (pc.Waiting? ==> pc.since <= |sh.enqueued|)
    && (pc.Waiting? && pc.c.LCheck? ==> pc.since <= pc.c.mark <= |sh.dequeued|)
    && (pc.Waited? ==> pc.since <= pc.mark <= |sh.dequeued|)
    && (t < |sh.heldTakes| && sh.hold && IsWorker(pc) ==> sh.heldTakes[t] + (if pc == Work(VDeq) then 1 else 0) <= 1)
  }

  predicate Local(s: State) {
    forall t :: 0 <= t < |s.threads| ==> PcOk(s.sh, t, s.threads[t])
  }

  predicate Joins(s: State) {
    forall t :: 0 <= t < |s.threads| ==>
      && (s.threads[t].Joining? ==>
            s.threads[t].i <= s.workers
            && forall j :: 0 <= j < s.threads[t].i && j < |s.threads| ==> s.threads[j] == Work(VExited))
      && (s.threads[t] == Control(DDelete) ==>
            forall j :: 0 <= j < s.workers && j < |s.threads| ==> s.threads[j] == Work(VExited))
  }

  predicate Inv(s: State) {
    && !s.sh.deleted
    && Roles(s) && Fifo(s.sh) && Local(s) && Joins(s)
    && OneOwner(s) && OneEnqueue(s) && OneRun(s)
    && s.sh.running == Sum(Active, s.threads)
  }

  lemma {:induction false} InitInv(workers: nat, clients: nat, cap: nat)
    ensures Inv(Init(workers, clients, cap))
  {
    SumZero(Active, Init(workers, clients, cap).threads);
  }

  // ---------------------------------------------------------------- one step

  /** The owner's view of one node in one step: what leaves the thread's hands goes to the queue or dies. */
  lemma StepHas(sh: Shared, t: nat, pc: Pc, luck: Luck, n: nat)
    requires PcOk(sh, t, pc) && n < |sh.nodes|
    ensures var m := Step(sh, pc, luck);
            && Has(n)(m.pc)
               == Has(n)(pc)
                  + (if m.change.Dequeue? && sh.queue != [] && sh.queue[0] == n then 1 else 0)
                  - (if m.change == Enqueue(n) || m.change == Release(n) then 1 else 0)
            && (m.change == Enqueue(n) || m.change == Release(n) || m.change == Use(n) ==> Has(n)(pc) == 1)
            && (m.change.Dequeue? ==> sh.queue != [])
            && (m.change == Enqueue(n) ==> |sh.queue| < sh.cap)
  {
  }

  lemma StepBefore(sh: Shared, t: nat, pc: Pc, luck: Luck, n: nat)
    requires PcOk(sh, t, pc) && n < |sh.nodes|
    ensures var m := Step(sh, pc, luck);
            && Before(n)(m.pc)
               == Before(n)(pc)
                  + (if m.change.Dequeue? && sh.queue != [] && sh.queue[0] == n then 1 else 0)
                  - (if m.change == Use(n) then 1 else 0)
            && (m.change == Use(n) ==> Before(n)(pc) == 1)
            && Offers(n)(m.pc) + (if m.change == Enqueue(n) then 1 else 0) <= Offers(n)(pc)
  {
  }

  lemma StepActive(sh: Shared, t: nat, pc: Pc, luck: Luck)
    ensures var m := Step(sh, pc, luck);
            && Active(m.pc) + (if m.change.Lower? then 1 else 0) == Active(pc) + (if m.change.Raise? then 1 else 0)
            && (IsWorker(m.pc) <==> IsWorker(pc))
            && (pc == Work(VExited) ==> m == Move(Keep, pc))
            && (m.pc.Joining? && !pc.Joining? ==> m.pc.i == 0)
            && m.pc != Control(DDelete)
            && (m.change.Delete? <==> pc == Control(DDelete))
  {
  }

  /** Freeing what is left in the queue: every node in it dies once, no other is touched. */
  lemma {:induction false} FreeAllOk(sh: Shared, q: seq<nat>)
    requires forall i :: 0 <= i < |q| ==> q[i] < |sh.nodes| && sh.nodes[q[i]].live
    requires forall i, j :: 0 <= i < j < |q| ==> q[i] != q[j]
    ensures var r := FreeAll(sh, q);
            && |r.nodes| == |sh.nodes| && r == sh.(nodes := r.nodes)
            && forall n :: 0 <= n < |sh.nodes| ==>
                 r.nodes[n] == (if n in q then sh.nodes[n].(live := false) else sh.nodes[n])
    decreases |q|
  {
    if q != [] {
      FreeAllOk(FreeNode(sh, q[0]), q[1..]);
    }
  }

  lemma {:induction false} Counted(q: seq<nat>, i: nat)
    requires i < |q|
    ensures multiset(q)[q[i]] >= 1
    ensures forall j :: 0 <= j < |q| && j != i && q[j] == q[i] ==> multiset(q)[q[i]] >= 2
  {
    assert q[i] in multiset(q);
    forall j | 0 <= j < |q| && j != i && q[j] == q[i] ensures multiset(q)[q[i]] >= 2 {
      var a, b := if i < j then i else j, if i < j then j else i;
      assert q == q[..a] + [q[a]] + q[a + 1..b] + [q[b]] + q[b + 1..];
    }
  }

  /** With one owner each, the queue holds live nodes, no node twice. */
  lemma {:induction false} QueueLive(s: State)
    requires Fifo(s.sh) && OneOwner(s)
    ensures forall i :: 0 <= i < |s.sh.queue| ==> s.sh.queue[i] < |s.sh.nodes| && s.sh.nodes[s.sh.queue[i]].live
    ensures forall i, j :: 0 <= i < j < |s.sh.queue| ==> s.sh.queue[i] != s.sh.queue[j]
  {
    forall i | 0 <= i < |s.sh.queue|
      ensures s.sh.queue[i] < |s.sh.nodes| && s.sh.nodes[s.sh.queue[i]].live
      ensures forall j :: 0 <= j < |s.sh.queue| && j != i ==> s.sh.queue[i] != s.sh.queue[j]
    {
      assert s.sh.enqueued[|s.sh.dequeued| + i] == s.sh.queue[i];
      Counted(s.sh.queue, i);
    }
  }

  /** What a change may be applied to. */
  predicate Allowed(sh: Shared, c: Change) {
    && (c.Release? || c.Use? ==> c.n < |sh.nodes| && sh.nodes[c.n].live)
    && (c.Enqueue? ==> c.n < |sh.nodes| && |sh.queue| < sh.cap)
    && (c.Dequeue? ==> sh.queue != [])
    && (c.Delete? ==>
          && (forall i :: 0 <= i < |sh.queue| ==> sh.queue[i] < |sh.nodes| && sh.nodes[sh.queue[i]].live)
          && (forall i, j :: 0 <= i < j < |sh.queue| ==> sh.queue[i] != sh.queue[j]))
  }

  /** Freed and used nodes are in the hands of the thread that frees or uses them, hence alive. */
  lemma {:induction false} StepAllowed(s: State, t: nat, luck: Luck)
    requires Fifo(s.sh) && OneOwner(s) && t < |s.threads| && PcOk(s.sh, t, s.threads[t])
    ensures Allowed(s.sh, Step(s.sh, s.threads[t], luck).change)
  {
    var pc := s.threads[t];
    var c := Step(s.sh, pc, luck).change;
    if c.Delete? {
      QueueLive(s);
    } else if c.Release? || c.Use? || c.Enqueue? {
      StepHas(s.sh, t, pc, luck, c.n);
      SumMember(Has(c.n), s.threads, t);
    }
  }

  /** The nodes after an allowed change. */
  lemma {:induction false} ApplyNodes(sh: Shared, t: nat, c: Change)
    requires Allowed(sh, c)
    ensures var sh' := Apply(sh, t, c);
            && |sh'.nodes| == |sh.nodes| + (if c.Alloc? then 1 else 0)
            && sh'.fault == sh.fault
            && (forall n :: 0 <= n < |sh.nodes| ==>
                  && sh'.nodes[n].live == (sh.nodes[n].live && c != Release(n) && !(c.Delete? && n in sh.queue))
                  && sh'.nodes[n].runs == sh.nodes[n].runs + (if c == Use(n) then 1 else 0))
            && (c.Alloc? ==> sh'.nodes[|sh.nodes|] == Node(c.task, true, 0))
            && (c.Delete? ==> sh' == sh.(nodes := sh'.nodes, queue := [], deleted := true))
  {
    if c.Delete? {
      FreeAllOk(sh, sh.queue);
    }
  }

  lemma {:induction false} HeadCount(q: seq<nat>, n: nat)
    requires q != []
    ensures multiset(q)[n] == multiset(q[1..])[n] + (if q[0] == n then 1 else 0)
  {
    assert q == [q[0]] + q[1..];
  }

  predicate Owned(sh: Shared, ts: seq<Pc>, n: nat)
    requires n < |sh.nodes|
  {
    Sum(Has(n), ts) + multiset(sh.queue)[n] == if sh.nodes[n].live then 1 else 0
  }

  /** One node's owners across one change. */
  lemma {:induction false} OwnedKept(sh: Shared, ts: seq<Pc>, t: nat, c: Change, next: Pc, n: nat)
    requires t < |ts| && Allowed(sh, c) && n < |sh.nodes| && Owned(sh, ts, n)
    requires Has(n)(next) == Has(n)(ts[t]) + (if c.Dequeue? && sh.queue[0] == n then 1 else 0)
                             - (if c == Enqueue(n) || c == Release(n) then 1 else 0)
    ensures var sh' := Apply(sh, t, c); n < |sh'.nodes| && Owned(sh', ts[t := next], n)
  {
    ApplyNodes(sh, t, c);
    SumUpdate(Has(n), ts, t, next);
    if c.Dequeue? { HeadCount(sh.queue, n); }
    if c.Delete? && n in sh.queue { assert multiset(sh.queue)[n] > 0; }
  }

  lemma {:induction false} NodeOwner(s: State, t: nat, luck: Luck, n: nat)
    requires Fifo(s.sh) && OneOwner(s) && Local(s) && t < |s.threads|
    ensures var m := Step(s.sh, s.threads[t], luck);
            var sh' := Apply(s.sh, t, m.change);
            n < |sh'.nodes| ==> Owned(sh', s.threads[t := m.pc], n)
  {
    var m := Step(s.sh, s.threads[t], luck);
    StepAllowed(s, t, luck);
    if n < |s.sh.nodes| {
      StepHas(s.sh, t, s.threads[t], luck, n);
      OwnedKept(s.sh, s.threads, t, m.change, m.pc, n);
    } else {
      ApplyNodes(s.sh, t, m.change);
      Unborn(s, n);
      SumUpdate(Has(n), s.threads, t, m.pc);
    }
  }

  lemma {:induction false} StepOwner(s: State, t: nat, luck: Luck)
    requires Fifo(s.sh) && OneOwner(s) && Local(s) && t < |s.threads| && !s.threads[t].Joining?
    ensures OneOwner(GoStep(s, t, luck))
  {
    var r := GoStep(s, t, luck);
    forall n | 0 <= n < |r.sh.nodes|
      ensures Sum(Has(n), r.threads) + multiset(r.sh.queue)[n] == if r.sh.nodes[n].live then 1 else 0
    {
      NodeOwner(s, t, luck, n);
      assert Owned(r.sh, r.threads, n);
    }
  }

  /** Nobody has anything to do with a node not yet allocated. */
  lemma {:induction false} Unborn(s: State, n: nat)
    requires Fifo(s.sh) && Local(s) && n >= |s.sh.nodes|
    ensures Sum(Has(n), s.threads) == 0 && Sum(Offers(n), s.threads) == 0 && Sum(Before(n), s.threads) == 0
    ensures multiset(s.sh.queue)[n] == 0 && multiset(s.sh.enqueued)[n] == 0 && multiset(s.sh.dequeued)[n] == 0
  {
    forall i | 0 <= i < |s.threads|
      ensures Has(n)(s.threads[i]) == 0 && Offers(n)(s.threads[i]) == 0 && Before(n)(s.threads[i]) == 0
    {
      assert PcOk(s.sh, i, s.threads[i]);
    }
    SumZero(Has(n), s.threads);
    SumZero(Offers(n), s.threads);
    SumZero(Before(n), s.threads);
    assert n !in s.sh.enqueued;
    assert multiset(s.sh.enqueued) == multiset(s.sh.dequeued) + multiset(s.sh.queue);
  }

  lemma {:induction false} StepEnqueue(s: State, t: nat, luck: Luck)
    requires Fifo(s.sh) && OneOwner(s) && OneEnqueue(s) && Local(s) && t < |s.threads| && !s.threads[t].Joining?
    ensures OneEnqueue(GoStep(s, t, luck))
  {
    var m := Step(s.sh, s.threads[t], luck);
    var r := GoStep(s, t, luck);
    StepAllowed(s, t, luck);
    ApplyNodes(s.sh, t, m.change);
    forall n | 0 <= n < |r.sh.nodes| ensures Sum(Offers(n), r.threads) + multiset(r.sh.enqueued)[n] <= 1 {
      SumUpdate(Offers(n), s.threads, t, m.pc);
      if n < |s.sh.nodes| {
        StepBefore(s.sh, t, s.threads[t], luck, n);
        EnqueueCount(s.sh, t, m.change, n);
      } else {
        Unborn(s, n);
      }
    }
  }

  lemma {:induction false} EnqueueCount(sh: Shared, t: nat, c: Change, n: nat)
    requires Allowed(sh, c)
    ensures var sh' := Apply(sh, t, c);
            && multiset(sh'.enqueued)[n] == multiset(sh.enqueued)[n] + (if c == Enqueue(n) then 1 else 0)
            && multiset(sh'.dequeued)[n]
               == multiset(sh.dequeued)[n] + (if c.Dequeue? && sh.queue[0] == n then 1 else 0)
  {
    ApplyNodes(sh, t, c);
  }

  /** One node's runs across one change. */
  lemma {:induction false} RunsKept(sh: Shared, ts: seq<Pc>, t: nat, c: Change, next: Pc, n: nat)
    requires t < |ts| && Allowed(sh, c) && n < |sh.nodes|
    requires sh.nodes[n].runs + Sum(Before(n), ts) == multiset(sh.dequeued)[n]
    requires Before(n)(next) == Before(n)(ts[t]) + (if c.Dequeue? && sh.queue[0] == n then 1 else 0)
                                - (if c == Use(n) then 1 else 0)
    ensures var sh' := Apply(sh, t, c);
            && n < |sh'.nodes|
            && sh'.nodes[n].runs + Sum(Before(n), ts[t := next]) == multiset(sh'.dequeued)[n]
  {
    ApplyNodes(sh, t, c);
    SumUpdate(Before(n), ts, t, next);
    EnqueueCount(sh, t, c, n);
  }

  predicate RunsOk(sh: Shared, ts: seq<Pc>, n: nat)
    requires n < |sh.nodes|
  {
    sh.nodes[n].runs + Sum(Before(n), ts) == multiset(sh.dequeued)[n]
  }

  lemma {:induction false} NodeRun(s: State, t: nat, luck: Luck, n: nat)
    requires Fifo(s.sh) && OneOwner(s) && OneRun(s) && Local(s) && t < |s.threads|
    ensures var m := Step(s.sh, s.threads[t], luck);
            var sh' := Apply(s.sh, t, m.change);
            n < |sh'.nodes| ==> RunsOk(sh', s.threads[t := m.pc], n)
  {
    var m := Step(s.sh, s.threads[t], luck);
    StepAllowed(s, t, luck);
    if n < |s.sh.nodes| {
      StepBefore(s.sh, t, s.threads[t], luck, n);
      RunsKept(s.sh, s.threads, t, m.change, m.pc, n);
    } else {
      ApplyNodes(s.sh, t, m.change);
      Unborn(s, n);
      SumUpdate(Before(n), s.threads, t, m.pc);
    }
  }

  lemma {:induction false} StepRun(s: State, t: nat, luck: Luck)
    requires Fifo(s.sh) && OneOwner(s) && OneRun(s) && Local(s) && t < |s.threads| && !s.threads[t].Joining?
    ensures OneRun(GoStep(s, t, luck))
  {
    var r := GoStep(s, t, luck);
    forall n | 0 <= n < |r.sh.nodes|
      ensures r.sh.nodes[n].runs + Sum(Before(n), r.threads) == multiset(r.sh.dequeued)[n]
    {
      NodeRun(s, t, luck, n);
      assert RunsOk(r.sh, r.threads, n);
    }
  }

  lemma {:induction false} ApplyFifo(sh: Shared, t: nat, c: Change)
    requires Fifo(sh) && Allowed(sh, c) && !c.Delete?
    ensures Fifo(Apply(sh, t, c))
  {
    ApplyNodes(sh, t, c);
  }

  // ---------------------------------------------------------------- the threads' own facts

  /** The facts of the stepping thread after its step, in a pool that still exists. */
  predicate Own(sh: Shared, t: nat, pc: Pc, luck: Luck) {
    var m := Step(sh, pc, luck);
    !m.change.Delete? ==> PcOk(Apply(sh, t, m.change), t, m.pc)
  }

  lemma OwnWork(sh: Shared, t: nat, w: WorkPc, luck: Luck)
    requires Fifo(sh) && PcOk(sh, t, Work(w))
    ensures Own(sh, t, Work(w), luck)
  {
    assert sh.queue != [] ==> sh.enqueued[|sh.dequeued|] == sh.queue[0];
  }

  lemma OwnRun(sh: Shared, t: nat, worker: bool, n: nat, r: RunPc, luck: Luck)
    requires PcOk(sh, t, Run(worker, n, r))
    ensures Own(sh, t, Run(worker, n, r), luck)
  {
  }

  lemma OwnAdd(sh: Shared, t: nat, once: bool, tries: int, a: AddPc, luck: Luck)
    requires Fifo(sh) && PcOk(sh, t, Adding(once, tries, a))
    ensures Own(sh, t, Adding(once, tries, a), luck)
  {
  }

  lemma OwnRest(sh: Shared, t: nat, pc: Pc, luck: Luck)
    requires Fifo(sh) && PcOk(sh, t, pc) && !pc.Work? && !pc.Run? && !pc.Adding? && !pc.Joining?
    ensures Own(sh, t, pc, luck)
  {
    assert sh.queue != [] ==> sh.enqueued[|sh.dequeued|] == sh.queue[0];
  }

  lemma OwnPcOk(sh: Shared, t: nat, pc: Pc, luck: Luck)
    requires Fifo(sh) && PcOk(sh, t, pc) && !pc.Joining?
    ensures Own(sh, t, pc, luck)
  {
    match pc {
      case Work(w) => OwnWork(sh, t, w, luck);
      case Run(worker, n, r) => OwnRun(sh, t, worker, n, r, luck);
      case Adding(once, tries, a) => OwnAdd(sh, t, once, tries, a, luck);
      case _ => OwnRest(sh, t, pc, luck);
    }
  }

  /** Every other thread: nodes are never deallocated, history only grows, and a pause resets the counts. */
  lemma OtherPcOk(sh: Shared, t: nat, c: Change, u: nat, pc: Pc)
    requires Fifo(sh) && PcOk(sh, u, pc) && Allowed(sh, c) && u != t && !c.Delete?
    ensures PcOk(Apply(sh, t, c), u, pc)
  {
  }

  lemma {:induction false} StepLocal(s: State, t: nat, luck: Luck)
    requires Fifo(s.sh) && OneOwner(s) && Local(s) && t < |s.threads| && !s.threads[t].Joining?
    requires !Step(s.sh, s.threads[t], luck).change.Delete?
    ensures Fifo(GoStep(s, t, luck).sh) && Local(GoStep(s, t, luck))
  {
    var m := Step(s.sh, s.threads[t], luck);
    var r := GoStep(s, t, luck);
    StepAllowed(s, t, luck);
    ApplyFifo(s.sh, t, m.change);
    forall u | 0 <= u < |r.threads| ensures PcOk(r.sh, u, r.threads[u]) {
      assert PcOk(s.sh, u, s.threads[u]);
      if u == t {
        OwnPcOk(s.sh, t, s.threads[t], luck);
      } else {
        OtherPcOk(s.sh, t, m.change, u, s.threads[u]);
      }
    }
  }

  lemma {:induction false} StepRunning(s: State, t: nat, luck: Luck)
    requires t < |s.threads| && !s.threads[t].Joining? && s.sh.running == Sum(Active, s.threads)
    requires !Step(s.sh, s.threads[t], luck).change.Delete?
    ensures var r := GoStep(s, t, luck); r.sh.running == Sum(Active, r.threads)
  {
    var m := Step(s.sh, s.threads[t], luck);
    StepActive(s.sh, t, s.threads[t], luck);
    SumUpdate(Active, s.threads, t, m.pc);
    ApplyRunning(s.sh, t, m.change);
  }

  lemma ApplyRunning(sh: Shared, t: nat, c: Change)
    requires !c.Delete? && (c.Lower? ==> sh.running > 0)
    ensures var sh' := Apply(sh, t, c);
            && sh'.running + (if c.Lower? then 1 else 0) == sh.running + (if c.Raise? then 1 else 0)
            && |sh'.heldTakes| == |sh.heldTakes|
  {
  }

  lemma {:induction false} StepRoles(s: State, t: nat, luck: Luck)
    requires Roles(s) && Joins(s) && t < |s.threads| && !s.threads[t].Joining?
    requires s.sh.running == Sum(Active, s.threads)
    requires !Step(s.sh, s.threads[t], luck).change.Delete?
    ensures var r := GoStep(s, t, luck); Roles(r) && Joins(r) && r.sh.running == Sum(Active, r.threads)
  {
    StepActive(s.sh, t, s.threads[t], luck);
    StepRunning(s, t, luck);
    SumMember(Active, s.threads, t);
    ApplyRunning(s.sh, t, Step(s.sh, s.threads[t], luck).change);
  }

  // ---------------------------------------------------------------- the whole step relation

  /** A client between calls, or joining, changes its own state and nothing else. */
  lemma {:induction false} Rewire(s: State, t: nat, pc: Pc)
    requires Inv(s) && t < |s.threads| && !IsWorker(pc) && PcOk(s.sh, t, pc)
    requires Ready(s.threads[t]) || s.threads[t].Joining?
    requires !pc.Run? && (pc.Adding? ==> pc.a.AAlloc?)
    requires pc.Joining? ==> pc.i <= s.workers
                             && forall j :: 0 <= j < pc.i && j < |s.threads| ==> s.threads[j] == Work(VExited)
    requires pc == Control(DDelete) ==>
               forall j :: 0 <= j < s.workers && j < |s.threads| ==> s.threads[j] == Work(VExited)
    ensures Inv(s.(threads := s.threads[t := pc]))
  {
    SumUpdate(Active, s.threads, t, pc);
    RewireNodes(s, t, pc);
    RewireLocal(s, t, pc);
  }

  /** It has no node before or after. */
  lemma {:induction false} RewireNodes(s: State, t: nat, pc: Pc)
    requires OneOwner(s) && OneEnqueue(s) && OneRun(s) && t < |s.threads|
    requires Ready(s.threads[t]) || s.threads[t].Joining?
    requires !pc.Run? && (pc.Adding? ==> pc.a.AAlloc?)
    ensures var r := s.(threads := s.threads[t := pc]); OneOwner(r) && OneEnqueue(r) && OneRun(r)
  {
    var r := s.(threads := s.threads[t := pc]);
    forall n | 0 <= n < |s.sh.nodes|
      ensures Sum(Has(n), r.threads) == Sum(Has(n), s.threads)
      ensures Sum(Offers(n), r.threads) == Sum(Offers(n), s.threads)
      ensures Sum(Before(n), r.threads) == Sum(Before(n), s.threads)
    {
      SumUpdate(Has(n), s.threads, t, pc);
      SumUpdate(Offers(n), s.threads, t, pc);
      SumUpdate(Before(n), s.threads, t, pc);
    }
  }

  lemma {:induction false} RewireLocal(s: State, t: nat, pc: Pc)
    requires Roles(s) && Local(s) && Joins(s) && t < |s.threads| && !IsWorker(pc) && PcOk(s.sh, t, pc)
    requires Ready(s.threads[t]) || s.threads[t].Joining?
    requires pc.Joining? ==> pc.i <= s.workers
                             && forall j :: 0 <= j < pc.i && j < |s.threads| ==> s.threads[j] == Work(VExited)
    requires pc == Control(DDelete) ==>
               forall j :: 0 <= j < s.workers && j < |s.threads| ==> s.threads[j] == Work(VExited)
    ensures var r := s.(threads := s.threads[t := pc]); Roles(r) && Local(r) && Joins(r)
  {
  }

  /** Every step of every thread keeps the invariant, up to the deletion of the pool. */
  lemma {:induction false} NextInv(s: State, e: Event)
    requires Inv(s)
    ensures Inv(Next(s, e)) || (Next(s, e).sh.deleted && !Next(s, e).sh.fault)
  {
    var t := e.t;
    if t < |s.threads| && !s.sh.deleted {
      match e.act {
        case Call(op) => if Ready(s.threads[t]) { Rewire(s, t, Start(s.sh, op)); }
        case Go(luck) =>
          if s.threads[t].Joining? {
            Rewire(s, t, JoinStep(s, s.threads[t].i, s.threads[t].destroy));
          } else if Step(s.sh, s.threads[t], luck).change.Delete? {
            StepAllowed(s, t, luck);
            ApplyNodes(s.sh, t, Delete);
          } else {
            StepOwner(s, t, luck);
            StepEnqueue(s, t, luck);
            StepRun(s, t, luck);
            StepLocal(s, t, luck);
            StepRoles(s, t, luck);
          }
      }
    }
  }

  lemma {:induction false} ScheduleInv(s: State, es: seq<Event>)
    requires Inv(s) || (s.sh.deleted && !s.sh.fault)
    ensures var r := Schedule(s, es); Inv(r) || (r.sh.deleted && !r.sh.fault)
    decreases |es|
  {
    if es != [] {
      if Inv(s) { NextInv(s, es[0]); }
      ScheduleInv(Next(s, es[0]), es[1..]);
    }
  }
}
