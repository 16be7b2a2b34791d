/** Each lfthpool call, and the worker, run alone: what it returns and all that it changes. */
module LfPoolAlone {
  import opened Tasks
  import opened Trails
  import opened LfPoolModel
  import opened LfPoolProgress

  /** State s with the pool at `sh` and thread t at `pc`. */
  function Put(s: State, sh: Shared, t: nat, pc: Pc): State
    requires t < |s.threads|
  {
    s.(sh := sh, threads := s.threads[t := pc])
  }

  /** Thread t and the pool after k steps of t alone; `ok` unless it joins, or the pool is freed. */
  datatype Place = Place(sh: Shared, pc: Pc, ok: bool)

  function Walk(sh: Shared, t: nat, pc: Pc, k: nat): Place
    decreases k
  {
    if k == 0 then Place(sh, pc, true)
    else if pc.Joining? || sh.deleted then Place(sh, pc, false)
    else var m := Step(sh, pc, Fine); Walk(Apply(sh, t, m.change), t, m.pc, k - 1)
  }

  lemma {:induction false} WalkRuns(s: State, sh: Shared, t: nat, pc: Pc, k: nat)
    requires t < |s.threads| && Walk(sh, t, pc, k).ok
    ensures var p := Walk(sh, t, pc, k); Schedule(Put(s, sh, t, pc), Solo(t, k)) == Put(s, p.sh, t, p.pc)
    decreases k
  {
    if k > 0 {
      var m := Step(sh, pc, Fine);
      assert Solo(t, k) == [Event(t, Action.Go(Fine))] + Solo(t, k - 1);
      FoldCons(Next, Put(s, sh, t, pc), Event(t, Action.Go(Fine)), Solo(t, k - 1));
      assert s.threads[t := pc][t := m.pc] == s.threads[t := m.pc];
      WalkRuns(s, Apply(sh, t, m.change), t, m.pc, k - 1);
    }
  }

  /** k steps of t from where it stands. */
  lemma {:induction false} Walks(s: State, t: nat, k: nat)
    requires t < |s.threads| && Walk(s.sh, t, s.threads[t], k).ok
    ensures var p := Walk(s.sh, t, s.threads[t], k); Schedule(s, Solo(t, k)) == Put(s, p.sh, t, p.pc)
  {
    assert s.threads[t := s.threads[t]] == s.threads;
    WalkRuns(s, s.sh, t, s.threads[t], k);
  }

  /** A call, then k steps of the caller. */
  function CallThen(t: nat, op: Op, k: nat): seq<Event> {
    [Event(t, Call(op))] + Solo(t, k)
  }

  lemma {:induction false} Calls(s: State, t: nat, op: Op, k: nat)
    requires t < |s.threads| && Ready(s.threads[t]) && !s.sh.deleted && Walk(s.sh, t, Start(s.sh, op), k).ok
    ensures var p := Walk(s.sh, t, Start(s.sh, op), k); Schedule(s, CallThen(t, op, k)) == Put(s, p.sh, t, p.pc)
  {
    FoldCons(Next, s, Event(t, Call(op)), Solo(t, k));
    WalkRuns(s, s.sh, t, Start(s.sh, op), k);
  }

  // ---------------------------------------------------------------- adding

  /** The pool with one more node, alive or already freed. */
  function Allocated(sh: Shared, task: Task, live: bool): Shared {
    sh.(nodes := sh.nodes + [Node(task, live, 0)])
  }

  /** And queued. */
  function Queued(sh: Shared, task: Task): Shared {
    Allocated(sh, task, true).(queue := sh.queue + [|sh.nodes|], enqueued := sh.enqueued + [|sh.nodes|])
  }

  /** With room in the queue both adds return 0, whatever max_try, and the task is last in the queue. */
  lemma {:induction false} AddAlone(s: State, t: nat, once: bool, task: Task, maxTry: int)
    requires t < |s.threads| && Ready(s.threads[t]) && !s.sh.deleted && |s.sh.queue| < s.sh.cap
    ensures Schedule(s, CallThen(t, AddOp(once, task, maxTry), 2)) == Put(s, Queued(s.sh, task), t, Idle(0))
  {
    var tries := if once then 0 else maxTry;
    var sh := Allocated(s.sh, task, true);
    assert Walk(sh, t, Adding(once, tries, AEnq(|s.sh.nodes|)), 1) == Place(Queued(s.sh, task), Idle(0), true);
    Calls(s, t, AddOp(once, task, maxTry), 2);
  }

  /** On a full queue, from the first attempt. */
  lemma {:induction false} GiveUpWalk(sh: Shared, t: nat, tries: int, n: nat)
    requires !sh.deleted && |sh.queue| == sh.cap && n < |sh.nodes| && sh.nodes[n].live && tries >= -1
    ensures Walk(sh, t, Adding(false, tries, AEnq(n)), 2 * (tries + 1) + 2)
            == Place(FreeNode(sh, n), Idle(-1), true)
    decreases tries
  {
    var k := 2 * (tries + 1) + 2;
    if tries >= 0 {
      assert Walk(sh, t, Adding(false, tries, ANap(n)), k - 1) == Walk(sh, t, Adding(false, tries - 1, AEnq(n)), k - 2);
      GiveUpWalk(sh, t, tries - 1, n);
    } else {
      assert Walk(sh, t, Adding(false, tries, AFree(n, -1)), 1) == Place(FreeNode(sh, n), Idle(-1), true);
    }
  }

  /** lfthpool_add_task_try on a full queue makes max_try + 2 attempts, and at least one; it returns -1 with its
      node freed. */
  lemma {:induction false} AddTryFull(s: State, t: nat, task: Task, maxTry: int)
    requires t < |s.threads| && Ready(s.threads[t]) && !s.sh.deleted && |s.sh.queue| == s.sh.cap
    ensures var k := if maxTry < -1 then 3 else 2 * (maxTry + 1) + 3;
            Schedule(s, CallThen(t, AddTry(task, maxTry), k)) == Put(s, Allocated(s.sh, task, false), t, Idle(-1))
  {
    var n, sh := |s.sh.nodes|, Allocated(s.sh, task, true);
    var k := if maxTry < -1 then 3 else 2 * (maxTry + 1) + 3;
    assert FreeNode(sh, n) == Allocated(s.sh, task, false);
    if maxTry >= -1 {
      GiveUpWalk(sh, t, maxTry, n);
    } else {
      assert Walk(sh, t, Adding(false, maxTry, AFree(n, -1)), 1) == Place(FreeNode(sh, n), Idle(-1), true);
    }
    assert Walk(sh, t, Adding(false, maxTry, AEnq(n)), k - 1) == Place(FreeNode(sh, n), Idle(-1), true);
    Calls(s, t, AddTry(task, maxTry), k);
  }

  /** lfthpool_add_task makes one. */
  lemma {:induction false} AddFull(s: State, t: nat, task: Task)
    requires t < |s.threads| && Ready(s.threads[t]) && !s.sh.deleted && |s.sh.queue| == s.sh.cap
    ensures Schedule(s, CallThen(t, Add(task), 3)) == Put(s, Allocated(s.sh, task, false), t, Idle(-1))
  {
    var n, sh := |s.sh.nodes|, Allocated(s.sh, task, true);
    assert FreeNode(sh, n) == Allocated(s.sh, task, false);
    assert Walk(sh, t, Adding(true, 0, AFree(n, -1)), 1) == Place(FreeNode(sh, n), Idle(-1), true);
    assert Walk(sh, t, Adding(true, 0, AEnq(n)), 2) == Place(FreeNode(sh, n), Idle(-1), true);
    Calls(s, t, Add(task), 3);
  }

  /** Without memory both return -1 and change nothing; on another error of the queue they free the node and return
      -1, or that error. */
  lemma {:induction false} AddFails(s: State, t: nat, once: bool, task: Task, maxTry: int, code: int)
    requires t < |s.threads| && Ready(s.threads[t]) && !s.sh.deleted
    ensures var call := Event(t, Call(AddOp(once, task, maxTry)));
            && Schedule(s, [call] + ([Event(t, Action.Go(NoMemory))] + [])) == Put(s, s.sh, t, Idle(-1))
            && Schedule(s, [call] + ([Event(t, Action.Go(Fine))] + ([Event(t, Action.Go(QueueError(code)))]
                                     + ([Event(t, Action.Go(Fine))] + []))))
               == Put(s, Allocated(s.sh, task, false), t, Idle(if once then -1 else code))
  {
    var op := AddOp(once, task, maxTry);
    var call, go := Event(t, Call(op)), Event(t, Action.Go(Fine));
    var none, error := Event(t, Action.Go(NoMemory)), Event(t, Action.Go(QueueError(code)));
    var s1 := Next(s, call);
    FoldCons(Next, s, call, [none] + []);
    FoldCons(Next, s1, none, []);
    var s2 := Next(s1, go);
    var s3 := Next(s2, error);
    FoldCons(Next, s, call, [go] + ([error] + ([go] + [])));
    FoldCons(Next, s1, go, [error] + ([go] + []));
    FoldCons(Next, s2, error, [go] + []);
    FoldCons(Next, s3, go, []);
    assert s2.sh.nodes[|s.sh.nodes| := Node(task, false, 0)] == s.sh.nodes + [Node(task, false, 0)];
    assert s3.threads[t := Idle(if once then -1 else code)] == s.threads[t := Idle(if once then -1 else code)];
  }

  // ---------------------------------------------------------------- running a task

  /** lfthpool_worker_try_once on an empty queue returns -1 and changes nothing. */
  lemma {:induction false} TryFindsNothing(s: State, t: nat)
    requires t < |s.threads| && Ready(s.threads[t]) && !s.sh.deleted && s.sh.queue == []
    ensures Schedule(s, CallThen(t, TryOnce, 1)) == Put(s, s.sh, t, Idle(-1))
  {
    Calls(s, t, TryOnce, 1);
  }

  /** The queue has a first node, and it is alive. */
  predicate HasTask(sh: Shared) {
    !sh.deleted && sh.queue != [] && sh.queue[0] < |sh.nodes| && sh.nodes[sh.queue[0]].live
  }

  /** The pool once its first node has been dequeued by t. */
  function AfterTake(sh: Shared, t: nat, worker: bool): Shared
    requires HasTask(sh)
  {
    Apply(sh, t, Dequeue(worker))
  }

  /** And run, and freed. */
  function AfterRun(sh: Shared, t: nat, worker: bool): Shared
    requires HasTask(sh)
  {
    var n := sh.queue[0];
    AfterTake(sh, t, worker).(nodes := sh.nodes[n := sh.nodes[n].(live := false, runs := sh.nodes[n].runs + 1)])
  }

  /** From the increment to the end of the function. */
  lemma {:induction false} ExecWalk(sh: Shared, t: nat, worker: bool, n: nat, k: nat)
    requires !sh.deleted && n < |sh.nodes| && sh.nodes[n].live
    ensures Walk(sh, t, Run(worker, n, Incr), k + 2)
            == Walk(sh.(running := sh.running + 1, nodes := sh.nodes[n := sh.nodes[n].(runs := sh.nodes[n].runs + 1)]),
                    t, Run(worker, n, if worker then Decr else RunPc.Free), k)
  {
    var up := sh.(running := sh.running + 1);
    assert Walk(sh, t, Run(worker, n, Incr), k + 2) == Walk(up, t, Run(worker, n, Exec), k + 1);
  }

  /** And from there to the end. */
  lemma {:induction false} EndWalk(sh: Shared, t: nat, worker: bool, n: nat)
    requires !sh.deleted && n < |sh.nodes| && sh.nodes[n].live && sh.running > 0
    ensures Walk(sh, t, Run(worker, n, if worker then Decr else RunPc.Free), 2)
            == Place(sh.(running := sh.running - 1, nodes := sh.nodes[n := sh.nodes[n].(live := false)]),
                     if worker then Work(VShut) else Idle(0), true)
  {
    var down, freed := sh.(running := sh.running - 1), sh.(nodes := sh.nodes[n := sh.nodes[n].(live := false)]);
    assert Walk(down, t, Run(worker, n, RunPc.Free), 1).sh == freed.(running := sh.running - 1);
    assert Walk(freed, t, Run(worker, n, Decr), 1).sh == freed.(running := sh.running - 1);
  }

  lemma {:induction false} RunWalk(sh: Shared, t: nat, worker: bool, k: nat)
    requires HasTask(sh) && k == 4
    ensures Walk(AfterTake(sh, t, worker), t, Run(worker, sh.queue[0], Incr), k)
            == Place(AfterRun(sh, t, worker), if worker then Work(VShut) else Idle(0), true)
  {
    ExecWalk(AfterTake(sh, t, worker), t, worker, sh.queue[0], k - 2);
    EndWalk(Ran(sh, t, worker), t, worker, sh.queue[0]);
    RanThenFreed(sh, t, worker);
  }

  /** The pool while its first task, dequeued and run, has not been freed. */
  function Ran(sh: Shared, t: nat, worker: bool): Shared
    requires HasTask(sh)
  {
    var n, taken := sh.queue[0], AfterTake(sh, t, worker);
    taken.(running := taken.running + 1, nodes := taken.nodes[n := taken.nodes[n].(runs := taken.nodes[n].runs + 1)])
  }

  lemma {:induction false} RanThenFreed(sh: Shared, t: nat, worker: bool)
    requires HasTask(sh)
    ensures var n, ran := sh.queue[0], Ran(sh, t, worker);
            AfterRun(sh, t, worker)
            == ran.(running := ran.running - 1, nodes := ran.nodes[n := ran.nodes[n].(live := false)])
  {
    var n, ran := sh.queue[0], Ran(sh, t, worker);
    assert ran.nodes[n := ran.nodes[n].(live := false)] == AfterRun(sh, t, worker).nodes;
  }

  /** On any other it runs the first task, frees its node and returns 0, whether the pool is on hold or not. */
  lemma {:induction false} TryRuns(s: State, t: nat)
    requires t < |s.threads| && Ready(s.threads[t]) && HasTask(s.sh)
    ensures Schedule(s, CallThen(t, TryOnce, 5)) == Put(s, AfterRun(s.sh, t, false), t, Idle(0))
  {
    RunWalk(s.sh, t, false, 4);
    assert Walk(s.sh, t, Control(TDeq), 5) == Walk(AfterTake(s.sh, t, false), t, Run(false, s.sh.queue[0], Incr), 4);
    Calls(s, t, TryOnce, 5);
  }

  /** A worker at its loop top, with hold off, runs the first task and is back. */
  lemma {:induction false} WorkerRuns(s: State, t: nat)
    requires t < |s.threads| && s.threads[t] == Work(VShut) && HasTask(s.sh) && !s.sh.shutdown && !s.sh.hold
    ensures OnlySteps(Solo(t, 7)) && Schedule(s, Solo(t, 7)) == s.(sh := AfterRun(s.sh, t, true))
  {
    RunWalk(s.sh, t, true, 4);
    var taken := AfterTake(s.sh, t, true);
    assert Walk(s.sh, t, Work(VDeq), 5) == Walk(taken, t, Run(true, s.sh.queue[0], Incr), 4);
    assert Walk(s.sh, t, Work(VHold), 6) == Walk(s.sh, t, Work(VDeq), 5);
    assert Walk(s.sh, t, Work(VShut), 7) == Walk(s.sh, t, Work(VHold), 6);
    Walks(s, t, 7);
    assert s.threads[t := Work(VShut)] == s.threads;
  }

  /** On hold, or with nothing queued, it goes round its loop and changes nothing. */
  lemma {:induction false} WorkerIdles(s: State, t: nat)
    requires t < |s.threads| && s.threads[t] == Work(VShut) && !s.sh.deleted && !s.sh.shutdown
    requires s.sh.hold || s.sh.queue == []
    ensures Schedule(s, Solo(t, if s.sh.hold then 3 else 4)) == s
  {
    if s.sh.hold {
      assert Walk(s.sh, t, Work(VHold), 2) == Place(s.sh, Work(VShut), true);
      Walks(s, t, 3);
    } else {
      assert Walk(s.sh, t, Work(VDeq), 2) == Place(s.sh, Work(VShut), true);
      assert Walk(s.sh, t, Work(VHold), 3) == Place(s.sh, Work(VShut), true);
      Walks(s, t, 4);
    }
    assert s.threads[t := Work(VShut)] == s.threads;
  }

  // ---------------------------------------------------------------- waiting, pausing, resuming

  /** lfthpool_wait with nothing queued or running returns after its three looks, on hold or not. */
  lemma {:induction false} WaitReturns(s: State, t: nat)
    requires t < |s.threads| && Ready(s.threads[t]) && !s.sh.deleted && s.sh.queue == [] && s.sh.running == 0
    ensures Schedule(s, CallThen(t, Wait, 3)) == Put(s, s.sh, t, Waited(|s.sh.enqueued|, |s.sh.enqueued|))
  {
    var n := |s.sh.enqueued|;
    assert Walk(s.sh, t, Waiting(n, LLen), 2) == Place(s.sh, Waited(n, n), true);
    Calls(s, t, Wait, 3);
  }

  /** With anything queued or running it goes round and looks again. */
  lemma {:induction false} WaitLooksAgain(s: State, t: nat, since: nat)
    requires t < |s.threads| && s.threads[t] == Waiting(since, LActive) && !s.sh.deleted
    requires s.sh.queue != [] || s.sh.running > 0
    ensures Schedule(s, Solo(t, if s.sh.running > 0 then 2 else 3)) == s
  {
    if s.sh.running == 0 {
      assert Walk(s.sh, t, Waiting(since, LLen), 2) == Place(s.sh, Waiting(since, LActive), true);
      Walks(s, t, 3);
    } else {
      assert Walk(s.sh, t, Waiting(since, LNap), 1) == Place(s.sh, Waiting(since, LActive), true);
      Walks(s, t, 2);
    }
    assert s.threads[t := Waiting(since, LActive)] == s.threads;
  }

  /** Also if a task was dequeued between its first look and its last. */
  lemma {:induction false} WaitRechecks(s: State, t: nat, since: nat, mark: nat)
    requires t < |s.threads| && s.threads[t] == Waiting(since, LCheck(mark)) && !s.sh.deleted && s.sh.running > 0
    ensures Schedule(s, Solo(t, 2)) == Put(s, s.sh, t, Waiting(since, LActive))
  {
    assert Walk(s.sh, t, Waiting(since, LNap), 1) == Place(s.sh, Waiting(since, LActive), true);
    Walks(s, t, 2);
  }

  /** lfthpool_pause and lfthpool_resume set hold and clear it. */
  lemma {:induction false} HoldAlone(s: State, t: nat)
    requires t < |s.threads| && Ready(s.threads[t]) && !s.sh.deleted
    ensures Schedule(s, CallThen(t, Pause, 1)) == Put(s, Apply(s.sh, t, HoldOn), t, Idle(0))
    ensures Apply(s.sh, t, HoldOn) == s.sh.(hold := true, heldTakes := Apply(s.sh, t, HoldOn).heldTakes)
    ensures Schedule(s, CallThen(t, Resume, 1)) == Put(s, s.sh.(hold := false), t, Idle(0))
  {
    Calls(s, t, Pause, 1);
    Calls(s, t, Resume, 1);
  }

  /** What a pause keeps from the workers, a resume gives back: from any state in which a worker u stands at its
      loop top with a task in the queue, after lfthpool_resume by t, that worker runs the task in seven steps. */
  lemma {:induction false} ResumeServes(s: State, t: nat, u: nat)
    requires t < |s.threads| && Ready(s.threads[t]) && u < |s.threads| && s.threads[u] == Work(VShut)
    requires HasTask(s.sh) && !s.sh.shutdown
    ensures var n := s.sh.queue[0];
            var r := Schedule(s, CallThen(t, Resume, 1) + Solo(u, 7));
            n < |r.sh.nodes| && r.sh.nodes[n].runs == s.sh.nodes[n].runs + 1 && r.sh.queue == s.sh.queue[1..]
  {
    HoldAlone(s, t);
    WorkerRuns(Put(s, s.sh.(hold := false), t, Idle(0)), u);
    FoldAppend(Next, s, CallThen(t, Resume, 1), Solo(u, 7));
  }

  /** In every pool: a pause, an add and a resume by any client, and worker 0 runs the task, once. */
  lemma {:induction false} PauseAddResume(workers: nat, clients: nat, cap: nat, c: nat, once: bool, task: Task,
                                          maxTry: int)
    requires workers >= 1 && cap >= 1 && workers <= c < workers + clients
    ensures var calls := CallThen(c, Pause, 1) + (CallThen(c, AddOp(once, task, maxTry), 2) + CallThen(c, Resume, 1));
            Schedule(Init(workers, clients, cap), calls + Solo(0, 7)).sh.nodes == [Node(task, false, 1)]
  {
    var pause, add, resume := CallThen(c, Pause, 1), CallThen(c, AddOp(once, task, maxTry), 2), CallThen(c, Resume, 1);
    var s0 := Init(workers, clients, cap);
    HoldAlone(s0, c);
    var s1 := Schedule(s0, pause);
    AddAlone(s1, c, once, task, maxTry);
    var s2 := Schedule(s1, add);
    HoldAlone(s2, c);
    var s3 := Schedule(s2, resume);
    assert s3.sh.nodes == [Node(task, true, 0)] && s3.sh.queue == [0] && s3.threads[0] == Work(VShut);
    WorkerRuns(s3, 0);
    FoldAppend(Next, s1, add, resume);
    FoldAppend(Next, s0, pause, add + resume);
    FoldAppend(Next, s0, pause + (add + resume), Solo(0, 7));
  }
}
