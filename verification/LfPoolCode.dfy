/** lfthpool.c on its own data: `struct lfthpool` as a class, its nodes as a heap that is allocated and freed
    by hand.  Each access is proved to be the step of LfPoolModel.

    Whole calls run in company and leave a trail, as in ThPoolCode. */
module LfPoolCode {
  import opened Options
  import opened Tasks
  import opened Sums
  import opened Trails
  import opened LfPoolModel
  import opened LfPoolInvariant
  import opened LfPoolTheorems

  /** What a thread itself did: tasks it enqueued, functions it ran, nodes it allocated and freed. */
  datatype Ledger = Ledger(put: seq<Task>, ran: nat, allocs: nat, frees: nat)

  function Booked(l: Ledger, sh: Shared, c: Change): Ledger {
    match c
    case Alloc(_) => l.(allocs := l.allocs + 1)
    case Release(_) => l.(frees := l.frees + 1)
    case Use(_) => l.(ran := l.ran + 1)
    case Enqueue(n) => if n < |sh.nodes| then l.(put := l.put + [sh.nodes[n].task]) else l
    case _ => l
  }

  /** Nobody is destroying the pool. */
  predicate Calm(s: State) {
    forall t :: 0 <= t < |s.threads| ==>
      !(s.threads[t].Joining? && s.threads[t].destroy) && s.threads[t] != Control(SStore(true))
      && s.threads[t] != Control(DDelete)
  }

  lemma {:induction false} NextCalm(s: State, e: Event)
    requires Inv(s) && Calm(s) && (e.act.Call? ==> !e.act.op.Destroy?)
    ensures Calm(Next(s, e)) && Inv(Next(s, e))
  {
    NextInv(s, e);
    if Steps(s, e) {
      CalmStep(s.sh, s.threads[e.t], e.act.luck);
      if s.threads[e.t] != Control(DDelete) {
        NotDeleted(s.sh, e.t, Step(s.sh, s.threads[e.t], e.act.luck).change);
      }
    }
  }

  lemma CalmStep(sh: Shared, pc: Pc, luck: Luck)
    requires pc != Control(SStore(true)) && pc != Control(DDelete) && !(pc.Joining? && pc.destroy)
    ensures var m := Step(sh, pc, luck);
            && m.pc != Control(SStore(true)) && m.pc != Control(DDelete) && !(m.pc.Joining? && m.pc.destroy)
            && !m.change.Delete?
  {
  }

  lemma NotDeleted(sh: Shared, t: nat, c: Change)
    requires !c.Delete?
    ensures Apply(sh, t, c).deleted == sh.deleted
  {
  }

  /** The invariant, until lfthpool_destroy has freed the pool. */
  predicate Sound(s: State) { Inv(s) || (s.sh.deleted && !s.sh.fault) }

  lemma Fresh(workers: nat, clients: nat, cap: nat)
    ensures Path(Next, [Init(workers, clients, cap)], []) && All(Sound, [Init(workers, clients, cap)])
  {
    InitInv(workers, clients, cap);
    AllSnoc(Sound, [], Init(workers, clients, cap));
    assert [] + [Init(workers, clients, cap)] == [Init(workers, clients, cap)];
  }

  class LfPool {
    var shutdown: bool
    var hold: bool
    var runningCount: nat
    const cap: nat            // queue_size, a power of two
    var queue: seq<nat>       // the ring queue, atomic
    var nodes: seq<Node>      // the heap
    var deleted: bool
    const workers: nat
    var threads: seq<Pc>
    var fault: bool           // a use of a freed node, or a second free
    var enqueued: seq<nat>    // history, as in the model
    var dequeued: seq<nat>
    var heldTakes: seq<nat>
    ghost var book: seq<Ledger>
    ghost var trail: seq<Event>   // everything that has happened
    ghost var past: seq<State>    // and the states it happened in, up to the present one

    ghost function Pool(): Shared
      reads this
    {
      Shared(cap, shutdown, hold, runningCount, queue, nodes, deleted, fault, enqueued, dequeued, heldTakes)
    }

    ghost function View(): State
      reads this
    {
      State(Pool(), workers, threads)
    }

    ghost predicate Valid()
      reads this
    {
      !deleted && |book| == |threads| && Traced(View())
    }

    /** `s` is where the trail has led, and the invariant has held all along. */
    ghost predicate Traced(s: State)
      reads `trail, `past
    {
      Path(Next, past, trail) && past[|trail|] == s && All(Sound, past)
    }

    lemma Present()
      requires Valid()
      ensures Inv(View())
    {
      AllAt(Sound, past, |trail|);
    }

    constructor (workers: nat, clients: nat, cap: nat)
      ensures Valid() && View() == Init(workers, clients, cap)
    {
      this.workers, this.cap := workers, cap;
      shutdown, hold, runningCount, queue, nodes := false, false, 0, [], [];
      deleted, fault, enqueued, dequeued := false, false, [], [];
      heldTakes := seq(workers + clients, i => 0);
      threads := seq(workers + clients, i => if i < workers then Work(VShut) else Idle(0));
      book := seq(workers + clients, i => Ledger([], 0, 0, 0));
      trail, past := [], [Init(workers, clients, cap)];
      new;
      Fresh(workers, clients, cap);
    }

    lemma StaysCalm(e: Event)
      requires Valid() && Calm(View()) && (e.act.Call? ==> !e.act.op.Destroy?)
      ensures Calm(Next(View(), e)) && !Next(View(), e).sh.deleted
    {
      Present();
      NextCalm(View(), e);
    }

    // -------------------------------------------------------------- what a step does to the fields

    twostate predicate Moved(t: nat, pc: Pc, luck: Luck, next: Pc)
      reads this
    {
      && Pool() == Apply(old(Pool()), t, Step(old(Pool()), pc, luck).change)
      && next == Step(old(Pool()), pc, luck).pc
      && threads == old(threads) && book == old(book) && trail == old(trail) && past == old(past)
    }

    /** free */
    method Free(n: nat)
      modifies `nodes, `fault
      ensures Pool() == FreeNode(old(Pool()), n)
    {
      if n < |nodes| && nodes[n].live {
        nodes := nodes[n := nodes[n].(live := false)];
      } else {
        fault := true;
      }
    }

    /** mpmc_ring_queue_dequeue on a non-empty queue */
    method Dequeue(t: nat, worker: bool) returns (n: nat)
      requires queue != []
      modifies `queue, `dequeued, `heldTakes
      ensures Pool() == Apply(old(Pool()), t, Change.Dequeue(worker)) && n == old(queue)[0]
    {
      n := queue[0];
      queue, dequeued := queue[1..], dequeued + [n];
      if worker && hold && t < |heldTakes| {
        heldTakes := heldTakes[t := heldTakes[t] + 1];
      }
    }

    /** mpmc_ring_queue_delete(queue, free) */
    method DeleteQueue(t: nat)
      modifies `nodes, `fault, `queue, `deleted
      ensures Pool() == Apply(old(Pool()), t, Delete)
    {
      var i := 0;
      while i < |queue|
        invariant i <= |queue| && queue == old(queue)
        invariant FreeAll(Pool(), queue[i..]) == FreeAll(old(Pool()), queue)
        invariant Pool() == old(Pool()).(nodes := nodes, fault := fault)
      {
        assert queue[i..][1..] == queue[i + 1..];
        Free(queue[i]);
        i := i + 1;
      }
      assert queue[i..] == [];
      queue, deleted := [], true;
    }

    /** _lfthpool_worker outside the handling of a task. */
    method WorkCode(t: nat, w: WorkPc, luck: Luck) returns (next: Pc)
      modifies `queue, `dequeued, `heldTakes
      ensures Moved(t, Work(w), luck, next)
    {
      match w {
        case VShut => next := Work(if shutdown then VExited else VHold);
        case VHold => next := Work(if hold then VHoldSleep else VDeq);
        case VHoldSleep => next := Work(VShut);
        case VDeq =>
          if queue == [] {
            next := Work(VNap);
          } else {
            var n := Dequeue(t, true);
            next := Run(true, n, Incr);
          }
        case VNap => next := Work(VShut);
        case VExited => next := Work(w);
      }
    }

    /** The handling of one node. */
    method RunCode(t: nat, worker: bool, n: nat, r: RunPc, luck: Luck) returns (next: Pc)
      modifies `runningCount, `nodes, `fault
      ensures Moved(t, Run(worker, n, r), luck, next)
    {
      match r {
        case Incr => runningCount, next := runningCount + 1, Run(worker, n, Exec);
        case Exec => next := RunTask(t, worker, n, luck);
        case Decr =>
          runningCount := if runningCount == 0 then 0xFFFF_FFFF_FFFF_FFFF else runningCount - 1;
          next := if worker then Run(worker, n, RunPc.Free) else Idle(0);
        case Free =>
          Free(n);
          next := if worker then Work(VShut) else Run(worker, n, Decr);
      }
    }

    /** The call of the node's function. */
    method RunTask(t: nat, worker: bool, n: nat, luck: Luck) returns (next: Pc)
      modifies `nodes, `fault
      ensures Moved(t, Run(worker, n, Exec), luck, next)
    {
      if n < |nodes| && nodes[n].live {
        nodes := nodes[n := nodes[n].(runs := nodes[n].runs + 1)];
      } else {
        fault := true;
      }
      next := Run(worker, n, if worker then Decr else RunPc.Free);
    }

    /** lfthpool_add_task, lfthpool_add_task_try. */
    method AddCode(t: nat, once: bool, tries: int, a: AddPc, luck: Luck) returns (next: Pc)
      modifies `nodes, `queue, `enqueued, `fault
      ensures Moved(t, Adding(once, tries, a), luck, next)
    {
      match a {
        case AAlloc(task) =>
          if luck.NoMemory? {
            next := Idle(-1);
          } else {
            next := Adding(once, tries, AEnq(|nodes|));
            nodes := nodes + [Node(task, true, 0)];
          }
        case AEnq(n) =>
          if luck.QueueError? {
            next := Adding(once, tries, AFree(n, if once then -1 else luck.code));
          } else if |queue| < cap {
            queue, enqueued, next := queue + [n], enqueued + [n], Idle(0);
          } else if once || tries < 0 {
            next := Adding(once, tries, AFree(n, -1));
          } else {
            next := Adding(once, tries, ANap(n));
          }
        case ANap(n) => next := Adding(once, tries - 1, AEnq(n));
        case AFree(n, rc) =>
          Free(n);
          next := Idle(rc);
      }
    }

    /** lfthpool_wait. */
    method WaitCode(t: nat, since: nat, c: WaitPc, luck: Luck) returns (next: Pc)
      ensures Moved(t, Waiting(since, c), luck, next)
    {
      match c {
        case LActive => next := Waiting(since, if runningCount > 0 then LNap else LLen);
        case LLen => next := Waiting(since, if |queue| > 0 then LNap else LCheck(|enqueued|));
        case LCheck(mark) => next := if runningCount > 0 then Waiting(since, LNap) else Waited(since, mark);
        case LNap => next := Waiting(since, LActive);
      }
    }

    /** lfthpool_worker_try_once before it has a node, pause, resume, and the ends of shutdown and destroy. */
    method ControlCode(t: nat, x: ControlPc, luck: Luck) returns (next: Pc)
      modifies `queue, `dequeued, `heldTakes, `hold, `shutdown, `nodes, `fault, `deleted
      ensures Moved(t, Control(x), luck, next)
    {
      match x {
        case TDeq =>
          if queue == [] {
            next := Idle(-1);
          } else {
            var n := Dequeue(t, false);
            next := Run(false, n, Incr);
          }
        case PStore => next := Pause(t, luck);
        case RStore => hold, next := false, Idle(0);
        case SStore(destroy) => shutdown, next := true, Joining(0, destroy);
        case DDelete =>
          DeleteQueue(t);
          next := Destroyed;
      }
    }

    /** lfthpool_pause. */
    method Pause(t: nat, luck: Luck) returns (next: Pc)
      modifies `heldTakes, `hold
      ensures Moved(t, Control(PStore), luck, next)
    {
      heldTakes := if hold then heldTakes else seq(|heldTakes|, i => 0);
      hold, next := true, Idle(0);
    }

    // -------------------------------------------------------------- one access of one thread

    /** The access was the step of event e; thread e.t's book has its entry. */
    twostate predicate Did(e: Event)
      reads this
    {
      && View() == Next(old(View()), e)
      && Traced(View()) && trail == old(trail) + [e] && past == old(past) + [View()]
      && |book| == |old(book)|
      && (forall u :: 0 <= u < |book| && u != e.t ==> book[u] == old(book)[u])
      && (e.t < |book| ==>
            book[e.t] == if old(Steps(View(), e)) && e.t < |old(threads)| then
                           var c := Step(old(Pool()), old(threads)[e.t], e.act.luck).change;
                           Booked(old(book)[e.t], old(Pool()), c)
                         else old(book)[e.t])
    }

    /** Adds an event to the trail. */
    ghost method Note(e: Event, before: State)
      requires Traced(before) && !before.sh.deleted && View() == Next(before, e)
      modifies `trail, `past
      ensures Traced(View()) && trail == old(trail) + [e] && past == old(past) + [View()]
    {
      AllAt(Sound, past, |trail|);
      NextInv(before, e);
      AllSnoc(Sound, past, View());
      PathSnoc(Next, past, trail, e);
      trail, past := trail + [e], past + [View()];
    }

    /** The code of thread t's next step on the fields. */
    method Code(t: nat, luck: Luck) returns (next: Pc)
      requires t < |threads| && !threads[t].Joining?
      modifies this
      ensures Moved(t, old(threads)[t], luck, next)
    {
      next := threads[t];
      match threads[t] {
        case Work(w) => next := WorkCode(t, w, luck);
        case Run(worker, n, r) => next := RunCode(t, worker, n, r, luck);
        case Adding(once, tries, a) => next := AddCode(t, once, tries, a, luck);
        case Waiting(since, c) => next := WaitCode(t, since, c, luck);
        case Control(x) => next := ControlCode(t, x, luck);
        case _ =>
      }
    }

    /** The step of thread t in place. */
    method Access(t: nat, luck: Luck)
      requires Valid() && t < |threads| && !threads[t].Joining?
      modifies this
      ensures Did(Event(t, Action.Go(luck)))
    {
      ghost var before := View();
      var next := Code(t, luck);
      ghost var c := Step(before.sh, before.threads[t], luck).change;
      threads, book := threads[t := next], book[t := Booked(book[t], before.sh, c)];
      Note(Event(t, Action.Go(luck)), before);
    }

    /** Entering a function. */
    method Call(t: nat, op: Op)
      requires Valid() && t < |threads| && Ready(threads[t])
      modifies `threads, `trail, `past
      ensures Did(Event(t, Action.Call(op))) && book == old(book)
    {
      ghost var before := View();
      var next: Pc;
      match op {
        case TryOnce => next := Control(TDeq);
        case Add(task) => next := Adding(true, 0, AAlloc(task));
        case AddTry(task, maxTry) => next := Adding(false, maxTry, AAlloc(task));
        case Wait => next := Waiting(|enqueued|, LActive);
        case Pause => next := Control(PStore);
        case Resume => next := Control(RStore);
        case Shutdown => next := Control(SStore(false));
        case Destroy => next := Control(SStore(true));
      }
      threads := threads[t := next];
      Note(Event(t, Action.Call(op)), before);
    }

    /** pthread_join of worker i. */
    method Join(t: nat, luck: Luck)
      requires Valid() && t < |threads| && threads[t].Joining?
      modifies `threads, `trail, `past
      ensures Did(Event(t, Action.Go(luck)))
    {
      ghost var before := View();
      var i, destroy := threads[t].i, threads[t].destroy;
      var next := threads[t];
      if i >= workers {
        next := if destroy then Control(DDelete) else Down;
      } else if i < |threads| && threads[i] == Work(VExited) {
        next := Joining(i + 1, destroy);
      }
      threads := threads[t := next];
      Note(Event(t, Action.Go(luck)), before);
    }

    method Execute(e: Event)
      requires Valid()
      modifies this
      ensures Did(e)
    {
      if e.t < |threads| && e.act.Call? && Ready(threads[e.t]) {
        Call(e.t, e.act.op);
      } else if e.t < |threads| && e.act.Go? {
        if threads[e.t].Joining? { Join(e.t, e.act.luck); } else { Access(e.t, e.act.luck); }
      } else {
        Note(e, View());
      }
    }

    // -------------------------------------------------------------- whole calls, in company

    /** Other threads, none of which destroys the pool. */
    static predicate Company(t: nat, es: seq<Event>) {
      forall e :: e in es ==> e.t != t && (e.act.Call? ==> !e.act.op.Destroy?)
    }

    twostate predicate Untouched(t: nat)
      reads this
    {
      && Valid() && Calm(View()) && |threads| == |old(threads)| && t < |threads| && |old(book)| == |threads|
      && threads[t] == old(threads)[t] && book[t] == old(book)[t]
      && |nodes| >= |old(nodes)| && (forall n :: 0 <= n < |old(nodes)| ==> nodes[n].task == old(nodes)[n].task)
    }

    /** What has happened since is exactly `es`. */
    twostate predicate Replay(es: seq<Event>)
      reads this
    {
      trail == old(trail) + es && old(past) <= past
    }

    method Others(t: nat, es: seq<Event>)
      requires Valid() && Calm(View()) && t < |threads| && Company(t, es)
      modifies this
      ensures Untouched(t) && Replay(es)
    {
      for i := 0 to |es|
        invariant Untouched(t) && Replay(es[..i])
      {
        assert es[i] in es;
        Other(t, es[i]);
        assert es[..i + 1] == es[..i] + [es[i]];
      }
      assert es[..|es|] == es;
    }

    method Other(t: nat, e: Event)
      requires Valid() && Calm(View()) && t < |threads| && Company(t, [e])
      modifies this
      ensures Untouched(t) && Replay([e])
    {
      assert e in [e];
      ghost var before := View();
      StaysCalm(e);
      KeepsTasks(e);
      OtherThread(before, e, t);
      Execute(e);
    }

    static lemma OtherThread(s: State, e: Event, t: nat)
      requires t < |s.threads| && e.t != t
      ensures Next(s, e).threads[t] == s.threads[t]
    {
    }

    lemma KeepsTasks(e: Event)
      requires Valid()
      ensures var r := Next(View(), e);
              && |r.sh.nodes| >= |nodes| && |r.threads| == |threads| && r.workers == workers
              && (forall n :: 0 <= n < |nodes| ==> r.sh.nodes[n].task == nodes[n].task)
    {
      Present();
      NextTasks(View(), e);
    }

    static lemma NextTasks(s: State, e: Event)
      requires Inv(s)
      ensures var r := Next(s, e);
              && |r.sh.nodes| >= |s.sh.nodes| && |r.threads| == |s.threads| && r.workers == s.workers
              && (forall n :: 0 <= n < |s.sh.nodes| ==> r.sh.nodes[n].task == s.sh.nodes[n].task)
    {
      if Steps(s, e) {
        var c := Step(s.sh, s.threads[e.t], e.act.luck).change;
        StepAllowed(s, e.t, e.act.luck);
        ApplyTasks(s.sh, e.t, c);
      }
    }

    static lemma ApplyTasks(sh: Shared, t: nat, c: Change)
      requires Allowed(sh, c)
      ensures var r := Apply(sh, t, c);
              && |r.nodes| >= |sh.nodes|
              && (forall n :: 0 <= n < |sh.nodes| ==> r.nodes[n].task == sh.nodes[n].task)
    {
      if c.Delete? { FreeAllOk(sh, sh.queue); }
    }

    /** Entering a function other than lfthpool_destroy. */
    method Enter(t: nat, op: Op)
      requires Valid() && Calm(View()) && t < |threads| && Ready(threads[t]) && !op.Destroy?
      modifies this
      ensures Valid() && Calm(View()) && |threads| == |old(threads)| && book == old(book)
      ensures threads[t] == Start(old(Pool()), op)
      ensures Replay([Event(t, Action.Call(op))])
    {
      StaysCalm(Event(t, Action.Call(op)));
      Call(t, op);
    }

    /** What the own step does to the heap. */
    lemma OwnNodes(t: nat, luck: Luck)
      requires Valid() && t < |threads|
      ensures PcOk(Pool(), t, threads[t]) && |queue| <= cap
      ensures var c := Step(Pool(), threads[t], luck).change;
              var r := Apply(Pool(), t, c);
              && |r.nodes| == |nodes| + (if c.Alloc? then 1 else 0)
              && (c.Alloc? ==> r.nodes[|nodes|].task == c.task)
    {
      Present();
      assert PcOk(Pool(), t, threads[t]);
      StepAllowed(View(), t, luck);
      ApplyNodes(Pool(), t, Step(Pool(), threads[t], luck).change);
    }

    /** One turn: the others run, then thread t takes its step. */
    method Advance(t: nat, turn: Turn) returns (ghost mid: Shared)
      requires Valid() && Calm(View()) && t < |threads| && !Ready(threads[t]) && !threads[t].Joining?
      requires Company(t, turn.others)
      modifies this
      ensures Valid() && Calm(View()) && |threads| == |old(threads)| && |old(book)| == |threads|
      ensures PcOk(mid, t, old(threads)[t]) && |mid.queue| <= mid.cap
      ensures |past| > |old(past)| && Was(past, |past| - 2, t, mid, old(threads)[t])
      ensures past[|past| - 1].sh == Apply(mid, t, Step(mid, old(threads)[t], turn.luck).change)
      ensures var m := Step(mid, old(threads)[t], turn.luck);
              threads[t] == m.pc && book[t] == Booked(old(book)[t], mid, m.change)
              && |nodes| == |mid.nodes| + (if m.change.Alloc? then 1 else 0)
              && (m.change.Alloc? ==> nodes[|mid.nodes|].task == m.change.task)
      ensures |nodes| >= |mid.nodes| >= |old(nodes)|
      ensures forall n :: 0 <= n < |old(nodes)| ==> mid.nodes[n].task == old(nodes)[n].task
      ensures forall n :: 0 <= n < |mid.nodes| ==> nodes[n].task == mid.nodes[n].task
      ensures Replay(turn.others + [Event(t, Action.Go(turn.luck))])
    {
      Others(t, turn.others);
      mid := Pool();
      ghost var before := View();
      ghost var e := Event(t, Action.Go(turn.luck));
      StaysCalm(e);
      KeepsTasks(e);
      OwnNodes(t, turn.luck);
      Access(t, turn.luck);
    }

    // -------------------------------------------------------------- the functions of the library

    /** One turn of an add. */
    method AddTurn(t: nat, turn: Turn, once: bool, task: Task, maxTry: int, full0: nat, ghost l: Ledger,
                   ghost from: nat, ghost fulls0: seq<nat>)
      returns (full: nat, ghost fulls: seq<nat>)
      requires Valid() && Calm(View()) && t < |threads| && threads[t].Adding? && Company(t, turn.others)
      requires turn.luck.QueueError? ==> turn.luck.code != 0
      requires AddPhase(nodes, threads[t], once, task, maxTry, l, book[t])
      requires from < |past| && Moments(FindsFull(t), past, from, fulls0) && |fulls0| == full0
      modifies this
      ensures Valid() && Calm(View()) && |threads| == |old(threads)| && |book| == |old(book)|
      ensures AddPhase(nodes, threads[t], once, task, maxTry, l, book[t])
      ensures Replay(turn.others + [Event(t, Action.Go(turn.luck))])
      ensures Moments(FindsFull(t), past, from, fulls) && |fulls| == full
      ensures FailsBy(old(threads)[t], threads[t], turn.luck, once)
      ensures turn.luck.Fine? && Tried(old(threads)[t], once, maxTry, full0) ==> Tried(threads[t], once, maxTry, full)
    {
      ghost var was, b := nodes, book[t];
      var pc := threads[t];
      ghost var mid := Advance(t, turn);
      AddPhaseStep(mid, pc, turn.luck, once, task, maxTry, l, b, nodes);
      full := if NoRoom(pc, turn.luck, threads[t]) then full0 + 1 else full0;
      AddTried(mid, pc, turn.luck, once, maxTry, full0);
      fulls := MomentsGrow(FindsFull(t), old(past), past, from, fulls0, full > full0);
    }

    /** lfthpool_add_task_try, or with `once` lfthpool_add_task.  A call that returns 0 has put its task into
        the queue in a node of its own; any other return put nothing and left no node behind.  It gives up on a
        full queue after finding it full max_try + 2 times, and once at least, namely at the past states `fulls`.
        An error of the queue other than that is returned as it is by the one, and as -1 by the other. */
    method AddTask(t: nat, once: bool, task: Task, maxTry: int, env: seq<Turn>)
      returns (rc: Option<int>, full: nat, ghost used: nat, ghost fulls: seq<nat>, ghost bad: nat)
      requires Valid() && Calm(View()) && t < |threads| && Ready(threads[t])
      requires forall i :: 0 <= i < |env| ==> Company(t, env[i].others)
      requires forall i :: 0 <= i < |env| && env[i].luck.QueueError? ==> env[i].luck.code != 0
      modifies this
      ensures Valid() && |book| == |old(book)| && t < |book| && book[t].ran == old(book)[t].ran
      ensures used <= |env| && Replay(Woven(t, AddOp(once, task, maxTry), env[..used]))
      ensures if Ready(threads[t]) then threads[t].Idle? && rc == Some(threads[t].rc) else rc == None && used == |env|
      ensures rc == Some(0) ==>
        book[t] == old(book)[t].(put := old(book)[t].put + [task], allocs := old(book)[t].allocs + 1)
      ensures rc.Some? && rc != Some(0) ==>
        book[t].put == old(book)[t].put && book[t].allocs - old(book)[t].allocs == book[t].frees - old(book)[t].frees
      ensures rc.Some? && rc != Some(0) && (forall i :: 0 <= i < used ==> env[i].luck.Fine?) ==>
        rc == Some(-1) && full == if once || maxTry < -1 then 1 else maxTry + 2
      ensures Moments(FindsFull(t), past, |old(past)|, fulls) && |fulls| == full
      ensures rc.Some? && rc.value !in {0, -1} ==> !once && bad < used && env[bad].luck == QueueError(rc.value)
    {
      Enter(t, AddOp(once, task, maxTry));
      full, used, fulls, bad := AddLoop(t, once, task, maxTry, env, old(trail));
      rc := if Ready(threads[t]) then Some(threads[t].rc) else None;
    }

    /** An add from its start on. */
    method AddLoop(t: nat, once: bool, task: Task, maxTry: int, env: seq<Turn>, ghost base: seq<Event>)
      returns (full: nat, ghost used: nat, ghost fulls: seq<nat>, ghost bad: nat)
      requires Valid() && Calm(View()) && t < |threads|
      requires threads[t] == Adding(once, if once then 0 else maxTry, AAlloc(task))
      requires forall i :: 0 <= i < |env| ==> Company(t, env[i].others)
      requires forall i :: 0 <= i < |env| && env[i].luck.QueueError? ==> env[i].luck.code != 0
      requires trail == base + [Event(t, Action.Call(AddOp(once, task, maxTry)))]
      modifies this
      ensures Valid() && |book| == |old(book)| == |threads| && t < |book| && old(past) <= past
      ensures InAdd(t, once, task, maxTry, env, base, used, old(book)[t], |old(past)| - 1, full, fulls, bad)
      ensures Ready(threads[t]) || used == |env|
    {
      ghost var l := book[t];
      full, fulls, bad := 0, [], 0;
      var k := 0;
      AddStarts(t, once, task, maxTry, env, base);
      while !Ready(threads[t]) && k < |env|
        invariant k <= |env| && Valid() && Calm(View()) && |book| == |old(book)| && |threads| == |book|
        invariant old(past) <= past
        invariant InAdd(t, once, task, maxTry, env, base, k, l, |old(past)| - 1, full, fulls, bad)
      {
        full, fulls, bad := AddRound(t, once, task, maxTry, env, base, k, l, |old(past)| - 1, full, fulls, bad);
        k := k + 1;
      }
      used := k;
    }

    lemma AddStarts(t: nat, once: bool, task: Task, maxTry: int, env: seq<Turn>, base: seq<Event>)
      requires Valid() && t < |threads|
      requires threads[t] == Adding(once, if once then 0 else maxTry, AAlloc(task))
      requires trail == base + [Event(t, Action.Call(AddOp(once, task, maxTry)))]
      ensures InAdd(t, once, task, maxTry, env, base, 0, book[t], |past| - 1, 0, [], 0)
    {
      assert env[..0] == [];
    }

    /** An add that has taken k turns. */
    ghost predicate InAdd(t: nat, once: bool, task: Task, maxTry: int, env: seq<Turn>, base: seq<Event>, k: nat,
                          l: Ledger, from: nat, full: nat, fulls: seq<nat>, bad: nat)
      requires t < |threads| && t < |book|
      reads this
    {
      && k <= |env| && trail == base + Woven(t, AddOp(once, task, maxTry), env[..k])
      && AddPhase(nodes, threads[t], once, task, maxTry, l, book[t])
      && ((forall i :: 0 <= i < k ==> env[i].luck.Fine?) ==> Tried(threads[t], once, maxTry, full))
      && from < |past| && Moments(FindsFull(t), past, from, fulls) && |fulls| == full
      && Blamed(threads[t], env, bad, k, once)
    }

    /** Its next turn. */
    method AddRound(t: nat, once: bool, task: Task, maxTry: int, env: seq<Turn>, ghost base: seq<Event>, k: nat,
                    ghost l: Ledger, ghost from: nat, full0: nat, ghost fulls0: seq<nat>, ghost bad0: nat)
      returns (full: nat, ghost fulls: seq<nat>, ghost bad: nat)
      requires Valid() && Calm(View()) && t < |threads| && threads[t].Adding? && k < |env|
      requires Company(t, env[k].others) && (env[k].luck.QueueError? ==> env[k].luck.code != 0)
      requires InAdd(t, once, task, maxTry, env, base, k, l, from, full0, fulls0, bad0)
      modifies this
      ensures Valid() && Calm(View()) && |threads| == |old(threads)| && |book| == |old(book)| && old(past) <= past
      ensures InAdd(t, once, task, maxTry, env, base, k + 1, l, from, full, fulls, bad)
    {
      var was := Failing(threads[t]);
      full, fulls := AddTurn(t, env[k], once, task, maxTry, full0, l, from, fulls0);
      bad := if Failing(threads[t]) == was then bad0 else k;
      WeavePrefix(base, [Event(t, Action.Call(AddOp(once, task, maxTry)))], Turned(t), env, k);
    }

    /** One turn of a try_once. */
    method TryTurn(t: nat, turn: Turn, ghost l: Ledger)
      requires Valid() && Calm(View()) && t < |threads| && !Ready(threads[t]) && Company(t, turn.others)
      requires TryPhase(threads[t], l, book[t])
      modifies this
      ensures Valid() && Calm(View()) && |threads| == |old(threads)| && |book| == |old(book)|
      ensures TryPhase(threads[t], l, book[t]) && Replay(turn.others + [Event(t, Action.Go(turn.luck))])
      ensures |past| > |old(past)| && (threads[t] == Idle(-1) ==> past[|past| - 2].sh.queue == [])
    {
      ghost var b, pc := book[t], threads[t];
      ghost var mid := Advance(t, turn);
      TryPhaseStep(mid, pc, turn.luck, l, b);
    }

    /** lfthpool_worker_try_once.  A call that returns 0 ran exactly one task and freed its node, one that
        returns -1 did nothing, the queue having been empty at past state `when`, during the call. */
    method TryOnce(t: nat, env: seq<Turn>) returns (rc: Option<int>, ghost used: nat, ghost when: nat)
      requires Valid() && Calm(View()) && t < |threads| && Ready(threads[t])
      requires forall i :: 0 <= i < |env| ==> Company(t, env[i].others)
      modifies this
      ensures Valid() && |book| == |old(book)| && t < |book|
      ensures used <= |env| && Replay(Woven(t, Op.TryOnce, env[..used]))
      ensures if Ready(threads[t]) then threads[t].Idle? && rc == Some(threads[t].rc) else rc == None && used == |env|
      ensures rc == None || rc == Some(0) || rc == Some(-1)
      ensures rc == Some(0) ==> book[t] == old(book)[t].(ran := old(book)[t].ran + 1, frees := old(book)[t].frees + 1)
      ensures rc == Some(-1) ==> book[t] == old(book)[t]
      ensures rc == Some(-1) ==> FoundEmpty(past, |old(past)|, when)
    {
      ghost var l := book[t];
      Enter(t, Op.TryOnce);
      when := 0;
      var k := 0;
      assert env[..0] == [];
      while !Ready(threads[t]) && k < |env|
        invariant k <= |env| && Valid() && Calm(View()) && |book| == |old(book)| && |threads| == |book|
        invariant TryPhase(threads[t], l, book[t])
        invariant Replay(Woven(t, Op.TryOnce, env[..k])) && |old(past)| < |past|
        invariant threads[t] == Idle(-1) ==> FoundEmpty(past, |old(past)|, when)
      {
        TryTurn(t, env[k], l);
        when := |past| - 2;
        WeavePrefix(old(trail), [Event(t, Action.Call(Op.TryOnce))], Turned(t), env, k);
        k := k + 1;
      }
      used := k;
      rc := if Ready(threads[t]) then Some(threads[t].rc) else None;
    }

    /** lfthpool_pause, or lfthpool_resume if `to` is false: when it returns, hold had that value at past state
        `when`, during the call. */
    method SetHold(t: nat, to: bool, env: seq<Turn>) returns (done: bool, ghost used: nat, ghost when: nat)
      requires Valid() && Calm(View()) && t < |threads| && Ready(threads[t])
      requires forall i :: 0 <= i < |env| ==> Company(t, env[i].others)
      modifies this
      ensures Valid() && |book| == |old(book)| && t < |book| && book[t] == old(book)[t]
      ensures used <= |env| && Replay(Woven(t, if to then Op.Pause else Op.Resume, env[..used]))
      ensures (done <==> Ready(threads[t])) && (!done ==> used == |env|)
      ensures done ==> threads[t] == Idle(0) && |old(past)| <= when < |past| && past[when].sh.hold == to
    {
      var op := if to then Op.Pause else Op.Resume;
      Enter(t, op);
      assert env[..0] == [];
      used, when, done := 0, 0, false;
      if |env| > 0 {
        ghost var b, pc := book[t], threads[t];
        ghost var mid := Advance(t, env[0]);
        FlagStep(mid, t, to, env[0].luck, b);
        WeavePrefix(old(trail), [Event(t, Action.Call(op))], Turned(t), env, 0);
        used, when, done := 1, |past| - 1, true;
      }
    }

    lemma Waits(t: nat, luck: Luck)
      requires Valid() && t < |threads| && threads[t].Waiting?
      ensures var r := GoStep(View(), t, luck);
              && (r.threads[t].Waiting? || r.threads[t].Waited?) && r.threads[t].since == threads[t].since
              && (r.threads[t].Waited? ==> Short(r, threads[t].since, r.threads[t].mark))
    {
      Present();
      if GoStep(View(), t, luck).threads[t].Waited? { WaitReturns(View(), t, luck); }
    }

    /** One read of a wait. */
    method Look(t: nat, luck: Luck)
      requires Valid() && Calm(View()) && t < |threads| && threads[t].Waiting?
      modifies this
      ensures Valid() && Calm(View()) && |threads| == |old(threads)| && |book| == |old(book)|
      ensures book[t] == old(book)[t] && Replay([Event(t, Action.Go(luck))])
      ensures threads[t].Waiting? || threads[t].Waited?
      ensures threads[t].since == old(threads)[t].since
      ensures threads[t].Waited? ==> Short(View(), threads[t].since, threads[t].mark)
    {
      StaysCalm(Event(t, Action.Go(luck)));
      Waits(t, luck);
      Access(t, luck);
    }

    /** One turn of a wait. */
    method WaitTurn(t: nat, turn: Turn)
      requires Valid() && Calm(View()) && t < |threads| && threads[t].Waiting? && Company(t, turn.others)
      modifies this
      ensures Valid() && Calm(View()) && |threads| == |old(threads)| && |book| == |old(book)|
      ensures book[t] == old(book)[t] && Replay(turn.others + [Event(t, Action.Go(turn.luck))])
      ensures threads[t].Waiting? || threads[t].Waited?
      ensures threads[t].since == old(threads)[t].since
      ensures threads[t].Waited? ==> Short(View(), threads[t].since, threads[t].mark)
    {
      Others(t, turn.others);
      Look(t, turn.luck);
    }

    /** lfthpool_wait.  When it returns, the tasks accepted before it saw the queue empty, among them all those
        accepted before the call, have run, but for at most one in the hands of each thread that stands between
        its dequeue and its increment. */
    method WaitForAll(t: nat, env: seq<Turn>) returns (done: bool, ghost used: nat)
      requires Valid() && Calm(View()) && t < |threads| && Ready(threads[t])
      requires forall i :: 0 <= i < |env| ==> Company(t, env[i].others)
      modifies this
      ensures Valid() && |book| == |old(book)| && t < |book| && book[t] == old(book)[t]
      ensures used <= |env| && Replay(Woven(t, Op.Wait, env[..used]))
      ensures (done <==> Ready(threads[t])) && (!done ==> used == |env|)
      ensures done ==> threads[t].Waited? && Short(View(), |old(enqueued)|, threads[t].mark)
    {
      Enter(t, Op.Wait);
      var k := 0;
      assert env[..0] == [];
      while !Ready(threads[t]) && k < |env|
        invariant k <= |env| && Valid() && Calm(View()) && |book| == |old(book)| && |threads| == |book|
        invariant Replay(Woven(t, Op.Wait, env[..k])) && book[t] == old(book)[t]
        invariant threads[t].Waiting? || threads[t].Waited?
        invariant threads[t].since == |old(enqueued)|
        invariant threads[t].Waited? ==> Short(View(), threads[t].since, threads[t].mark)
      {
        WaitTurn(t, env[k]);
        WeavePrefix(old(trail), [Event(t, Action.Call(Op.Wait))], Turned(t), env, k);
        k := k + 1;
      }
      used := k;
      done := Ready(threads[t]);
    }

    lemma Shuts(t: nat, luck: Luck)
      requires Valid() && t < |threads| && ShutPhase(threads[t])
      ensures var r := Next(View(), Event(t, Action.Go(luck)));
              && |r.threads| == |threads|
              && (ShutPhase(r.threads[t]) || (r.threads[t].Down? && WorkersGone(r)))
    {
      Present();
    }

    /** The own step of that turn. */
    method Own(t: nat, luck: Luck)
      requires Valid() && Calm(View()) && t < |threads| && ShutPhase(threads[t])
      modifies this
      ensures Valid() && Calm(View()) && |threads| == |old(threads)| && |book| == |old(book)|
      ensures book[t] == old(book)[t] && Replay([Event(t, Action.Go(luck))])
      ensures ShutPhase(threads[t]) || (threads[t].Down? && WorkersGone(View()))
    {
      StaysCalm(Event(t, Action.Go(luck)));
      Shuts(t, luck);
      if threads[t].Joining? { Join(t, luck); } else { Access(t, luck); }
    }

    /** One turn of a shutdown. */
    method ShutTurn(t: nat, turn: Turn)
      requires Valid() && Calm(View()) && t < |threads| && ShutPhase(threads[t]) && Company(t, turn.others)
      modifies this
      ensures Valid() && Calm(View()) && |threads| == |old(threads)| && |book| == |old(book)|
      ensures book[t] == old(book)[t] && Replay(turn.others + [Event(t, Action.Go(turn.luck))])
      ensures ShutPhase(threads[t]) || (threads[t].Down? && WorkersGone(View()))
    {
      Others(t, turn.others);
      Own(t, turn.luck);
    }

    /** lfthpool_shutdown.  When it returns, every worker has exited; the queue is left as it is. */
    method ShutDown(t: nat, env: seq<Turn>) returns (done: bool, ghost used: nat)
      requires Valid() && Calm(View()) && t < |threads| && Ready(threads[t])
      requires forall i :: 0 <= i < |env| ==> Company(t, env[i].others)
      modifies this
      ensures Valid() && |book| == |old(book)| && t < |book| && book[t] == old(book)[t]
      ensures used <= |env| && Replay(Woven(t, Op.Shutdown, env[..used]))
      ensures (done <==> Ready(threads[t])) && (!done ==> used == |env|)
      ensures done ==> threads[t].Down? && WorkersGone(View())
    {
      Enter(t, Op.Shutdown);
      var k := 0;
      assert env[..0] == [];
      while !Ready(threads[t]) && k < |env|
        invariant k <= |env| && Valid() && Calm(View()) && |book| == |old(book)| && |threads| == |book|
        invariant Replay(Woven(t, Op.Shutdown, env[..k])) && book[t] == old(book)[t]
        invariant ShutPhase(threads[t]) || (threads[t].Down? && WorkersGone(View()))
      {
        ShutTurn(t, env[k]);
        WeavePrefix(old(trail), [Event(t, Action.Call(Op.Shutdown))], Turned(t), env, k);
        k := k + 1;
      }
      used := k;
      done := Ready(threads[t]);
    }
  }

  /** What lfthpool_wait leaves undone is in the hands of threads that have dequeued and not yet counted. */
  predicate Short(s: State, since: nat, mark: nat) {
    since <= mark <= |s.sh.enqueued| && Unfinished(s.sh, mark) <= Sum(InWindow, s.threads)
  }

  lemma {:induction false} WaitReturns(s: State, t: nat, luck: Luck)
    requires Inv(s) && t < |s.threads| && s.threads[t].Waiting?
    requires GoStep(s, t, luck).threads[t].Waited?
    ensures var r := GoStep(s, t, luck); Short(r, s.threads[t].since, r.threads[t].mark)
  {
    assert PcOk(s.sh, t, s.threads[t]);
    WaitShortfall(s, t);
    SumUpdate(InWindow, s.threads, t, GoStep(s, t, luck).threads[t]);
  }

  predicate ShutPhase(pc: Pc) { pc == Control(SStore(false)) || (pc.Joining? && !pc.destroy) }

  /** The accesses of other threads before the next own one, and the luck of that one. */
  datatype Turn = Turn(others: seq<Event>, luck: Luck)

  /** Everything that happens during a call: entering it, then turn by turn the others and the caller's step. */
  function Woven(t: nat, op: Op, env: seq<Turn>): seq<Event> {
    Weave([Event(t, Action.Call(op))], Turned(t), env)
  }

  function Turned(t: nat): Turn -> seq<Event> {
    (turn: Turn) => turn.others + [Event(t, Action.Go(turn.luck))]
  }

  /** How far an add is, in its node and in its thread's book. */
  predicate AddPhase(nodes: seq<Node>, pc: Pc, once: bool, task: Task, maxTry: int, l0: Ledger, l: Ledger) {
    match pc
    case Adding(o, tries, a) =>
      && o == once
      && (match a
          case AAlloc(task') => task' == task && l == l0
          case AEnq(n) => l == l0.(allocs := l0.allocs + 1) && n < |nodes| && nodes[n].task == task
          case ANap(n) => l == l0.(allocs := l0.allocs + 1) && n < |nodes| && nodes[n].task == task
          case AFree(n, rc) => l == l0.(allocs := l0.allocs + 1) && rc != 0)
    case Idle(rc) =>
      if rc == 0 then l == l0.(put := l0.put + [task], allocs := l0.allocs + 1)
      else l == l0 || l == l0.(allocs := l0.allocs + 1, frees := l0.frees + 1)
    case _ => false
  }

  lemma AddPhaseStep(sh: Shared, pc: Pc, luck: Luck, once: bool, task: Task, maxTry: int, l0: Ledger, l: Ledger,
                     nodes: seq<Node>)
    requires AddPhase(sh.nodes, pc, once, task, maxTry, l0, l) && pc.Adding?
    requires luck.QueueError? ==> luck.code != 0
    requires |nodes| >= |sh.nodes| && forall n :: 0 <= n < |sh.nodes| ==> nodes[n].task == sh.nodes[n].task
    requires var c := Step(sh, pc, luck).change; c.Alloc? ==> |nodes| > |sh.nodes| && nodes[|sh.nodes|].task == c.task
    ensures var m := Step(sh, pc, luck);
            AddPhase(nodes, m.pc, once, task, maxTry, l0, Booked(l, sh, m.change))
  {
  }

  /** An attempt that found the queue full. */
  predicate NoRoom(pc: Pc, luck: Luck, next: Pc) {
    pc.Adding? && pc.a.AEnq? && !luck.QueueError? && next.Adding?
  }

  /** At past state i the queue was `sh.queue` and thread t at `pc`. */
  predicate Was(past: seq<State>, i: int, t: nat, sh: Shared, pc: Pc) {
    0 <= i < |past| && t < |past[i].threads| && past[i].sh == sh && past[i].threads[t] == pc
  }

  /** Thread t offers its node and the queue is full. */
  function FindsFull(t: nat): State -> bool {
    (s: State) => t < |s.threads| && s.threads[t].Adding? && s.threads[t].a.AEnq? && |s.sh.queue| == s.sh.cap
  }

  /** The attempts counted and the error to be returned, after one step. */
  lemma AddTried(sh: Shared, pc: Pc, luck: Luck, once: bool, maxTry: int, full: nat)
    requires pc.Adding? && pc.once == once
    ensures var next := Step(sh, pc, luck).pc;
            && FailsBy(pc, next, luck, once)
            && (luck.Fine? && Tried(pc, once, maxTry, full) ==>
                  Tried(next, once, maxTry, if NoRoom(pc, luck, next) then full + 1 else full))
  {
    if luck.Fine? && Tried(pc, once, maxTry, full) { TriedStep(sh, pc, once, maxTry, full); }
  }

  /** The store of a pause or a resume. */
  lemma FlagStep(sh: Shared, t: nat, to: bool, luck: Luck, l: Ledger)
    ensures var m := Step(sh, Control(if to then PStore else RStore), luck);
            m.pc == Idle(0) && Apply(sh, t, m.change).hold == to && Booked(l, sh, m.change) == l && !m.change.Alloc?
  {
  }

  predicate FoundEmpty(past: seq<State>, from: nat, when: nat) {
    from <= when < |past| && past[when].sh.queue == []
  }

  /** What an add that has failed is going to return, or has. */
  function Failing(pc: Pc): int {
    match pc
    case Adding(_, _, a) => if a.AFree? then a.rc else 0
    case Idle(rc) => rc
    case _ => 0
  }

  /** A new error other than -1 is the queue's own, and only lfthpool_add_task_try returns it. */
  predicate FailsBy(pc: Pc, next: Pc, luck: Luck, once: bool) {
    var f := Failing(next);
    f == 0 || f == -1 || f == Failing(pc) || (!once && luck == QueueError(f))
  }

  /** Turn `bad` of the call gave the error it is going to return. */
  predicate Blamed(pc: Pc, env: seq<Turn>, bad: nat, k: nat, once: bool) {
    var f := Failing(pc);
    f == 0 || f == -1 || (!once && bad < k <= |env| && env[bad].luck == QueueError(f))
  }

  /** How often the queue has been found full, when nothing else goes wrong. */
  predicate Tried(pc: Pc, once: bool, maxTry: int, full: nat) {
    match pc
    case Adding(o, tries, a) =>
      && o == once
      && (match a
          case AAlloc(_) => full == 0 && (!once ==> tries == maxTry)
          case AEnq(_) => if once then full == 0 else full == maxTry - tries && (tries >= -1 || full == 0)
          case ANap(_) => !once && full == maxTry - tries + 1 && tries >= 0
          case AFree(_, rc) => rc == -1 && full == if once || maxTry < -1 then 1 else maxTry + 2)
    case Idle(rc) => rc == 0 || (rc == -1 && full == if once || maxTry < -1 then 1 else maxTry + 2)
    case _ => false
  }

  lemma TriedStep(sh: Shared, pc: Pc, once: bool, maxTry: int, full: nat)
    requires pc.Adding? && Tried(pc, once, maxTry, full)
    ensures var next := Step(sh, pc, Fine).pc;
            Tried(next, once, maxTry, if NoRoom(pc, Fine, next) then full + 1 else full)
  {
  }

  predicate TryPhase(pc: Pc, l0: Ledger, l: Ledger) {
    match pc
    case Control(x) => x.TDeq? && l == l0
    case Run(worker, _, r) =>
      !worker && l == (match r
                       case Incr => l0
                       case Exec => l0
                       case Free => l0.(ran := l0.ran + 1)
                       case Decr => l0.(ran := l0.ran + 1, frees := l0.frees + 1))
    case Idle(rc) => (rc == 0 && l == l0.(ran := l0.ran + 1, frees := l0.frees + 1)) || (rc == -1 && l == l0)
    case _ => false
  }

  lemma TryPhaseStep(sh: Shared, pc: Pc, luck: Luck, l0: Ledger, l: Ledger)
    requires TryPhase(pc, l0, l) && !pc.Idle?
    ensures var m := Step(sh, pc, luck);
            TryPhase(m.pc, l0, Booked(l, sh, m.change)) && (m.pc == Idle(-1) ==> sh.queue == [])
  {
  }
}
