/** thpool.c on its own data: `struct thpool` with its ring buffer as a class, updated in place by whichever
    thread moves.  Each access is proved to be the step of ThPoolModel, the ring buffer to be its FIFO.

    Whole calls run in company: before each own step of the calling thread the others take any number of theirs,
    and `env` is the schedule around the call.  The ghost trail records every event; a call promises that what
    was added to it is exactly its own entry and the turns it used, and that it used all if it did not return. */
module ThPoolCode {
  import opened Options
  import opened Tasks
  import opened Trails
  import opened ThPoolModel
  import opened ThPoolInvariant
  import opened ThPoolTheorems

  /** History, written and never consulted by the code. */
  datatype Log = Log(accepted: seq<Task>, started: seq<Task>, owner: seq<nat>, completed: set<nat>,
                     retired: nat, late: bool, told: bool, pausedStarts: nat)

  /** What a thread itself did to the pool: the tasks it put in, and how many tasks it ran to their end. */
  datatype Ledger = Ledger(inserted: seq<Task>, ran: nat)

  function Booked(l: Ledger, before: Shared, after: Shared): Ledger {
    Ledger(if before.accepted <= after.accepted then l.inserted + after.accepted[|before.accepted|..] else l.inserted,
           if after.completed != before.completed then l.ran + 1 else l.ran)
  }

  /** The slot i places after h in a ring of n. */
  function Slot(h: nat, i: nat, n: nat): nat
    requires h < n && i <= n
  {
    if h + i < n then h + i else h + i - n
  }

  lemma NextSlot(h: nat, n: nat)
    requires h < n
    ensures (h + 1) % n == Slot(h, 1, n)
  {
  }

  /** The queue that `count` slots from h on stand for. */
  function RingSeq(data: seq<Task>, h: nat, count: nat): (q: seq<Task>)
    requires h < |data| && count <= |data|
    ensures |q| == count && forall i :: 0 <= i < count ==> q[i] == data[Slot(h, i, |data|)]
  {
    seq(count, i requires 0 <= i < count => data[Slot(h, i, |data|)])
  }

  class ThPool {
    var shutdown: bool
    var hold: bool
    var runningCount: nat
    var lock: Option<nat>
    const taskQueue: array<Task>
    var queueCount: nat
    var head: nat
    var tail: nat
    const workers: nat
    var threads: seq<Pc>
    var log: Log
    ghost var book: seq<Ledger>
    ghost var trail: seq<Event>   // everything that has happened
    ghost var past: seq<State>    // and the states it happened in, up to the present one

    /** tail is head plus queue_count, around the ring. */
    ghost predicate Ring()
      reads `head, `tail, `queueCount
    {
      && head < taskQueue.Length && queueCount <= taskQueue.Length
      && tail == Slot(head, queueCount, taskQueue.Length)
    }

    /** The queue the ring buffer stands for. */
    ghost function Contents(): seq<Task>
      requires Ring()
      reads `head, `tail, `queueCount, taskQueue
    {
      RingSeq(taskQueue[..], head, queueCount)
    }

    ghost function Pool(): Shared
      requires Ring()
      reads this, taskQueue
    {
      Shared(taskQueue.Length, shutdown, hold, runningCount, Contents(), lock, log.accepted, log.started,
             log.owner, log.completed, log.retired, log.late, log.told, log.pausedStarts)
    }

    ghost function View(): State
      requires Ring()
      reads this, taskQueue
    {
      State(Pool(), workers, threads)
    }

    ghost predicate Valid()
      reads this, taskQueue
    {
      Ring() && |book| == |threads| && Traced(View())
    }

    /** `s` is where the trail has led, and the invariant has held all along. */
    ghost predicate Traced(s: State)
      reads `trail, `past
    {
      Path(Next, past, trail) && past[|trail|] == s && All(Inv, past)
    }

    lemma Present()
      requires Valid()
      ensures Inv(View())
    {
      AllAt(Inv, past, |trail|);
    }

    /** thpool_create, as far as the fields go: it refuses no workers and no queue. */
    constructor (workers: nat, clients: nat, queueSize: nat, none: Task)
      requires workers >= 1 && queueSize >= 1
      ensures Valid() && View() == Init(workers, clients, queueSize)
      ensures fresh(taskQueue)
    {
      this.workers := workers;
      taskQueue := new Task[queueSize](i => none);
      queueCount, head, tail := 0, 0, 0;
      runningCount, hold, shutdown, lock := 0, false, false, None;
      log := Log([], [], [], {}, 0, false, false, 0);
      threads := seq(workers + clients, i => if i < workers then Work(WTop) else Idle(0));
      book := seq(workers + clients, i => Ledger([], 0));
      trail, past := [], [Init(workers, clients, queueSize)];
      new;
      InitInv(workers, clients, queueSize);
      assert Contents() == [];
      assert View() == past[0];
    }

    // -------------------------------------------------------------- the ring buffer

    /** task_queue[tail] = task; tail = (tail + 1) % queue_size; queue_count++ */
    method Put(task: Task)
      requires Ring() && queueCount < taskQueue.Length
      modifies this`tail, this`queueCount, taskQueue
      ensures Ring() && Contents() == old(Contents()) + [task]
    {
      ghost var q := Contents();
      NextSlot(tail, taskQueue.Length);
      taskQueue[tail] := task;
      tail := (tail + 1) % taskQueue.Length;
      queueCount := queueCount + 1;
      assert Contents() == q + [task];
    }

    /** task = task_queue[head]; head = (head + 1) % queue_size; queue_count-- */
    method Get() returns (task: Task)
      requires Ring() && queueCount > 0
      modifies this`head, this`queueCount
      ensures Ring() && task == old(Contents())[0] && Contents() == old(Contents())[1..]
    {
      ghost var q := Contents();
      NextSlot(head, taskQueue.Length);
      task := taskQueue[head];
      head := (head + 1) % taskQueue.Length;
      queueCount := queueCount - 1;
      assert Contents() == q[1..];
    }

    // -------------------------------------------------------------- what a step does to the fields

    /** The fields moved as the model's step of a thread at `pc` says; `next` is where it goes. */
    twostate predicate Moved(t: nat, pc: Pc, next: Pc)
      requires old(Ring())
      reads this, taskQueue
    {
      && Ring()
      && Pool() == Apply(old(Pool()), t, Step(old(Pool()), pc).change)
      && next == Step(old(Pool()), pc).pc
      && threads == old(threads) && book == old(book) && trail == old(trail) && past == old(past)
    }

    /** pthread_mutex_lock, tried once. */
    method TryLock(t: nat, pc: Pc, next: Pc) returns (r: Pc)
      modifies `lock
      ensures lock == if old(lock) == None then Some(t) else old(lock)
      ensures r == if old(lock) == None then next else pc
    {
      r := pc;
      if lock == None {
        lock := Some(t);
        r := next;
      }
    }

    /** _thpool_worker outside the handling of a task. */
    method WorkerCode(t: nat, w: WorkerPc) returns (next: Pc)
      requires Ring()
      modifies `lock
      ensures Moved(t, Work(w), next)
    {
      next := Work(w);
      match w {
        case WTop => next := TryLock(t, next, Work(WTest));
        case WTest => next := Work(if queueCount == 0 then WActive else WHold);
        case WActive => next := Work(if runningCount == 0 then WNotifyEmpty else WShutdown);
        case WNotifyEmpty => next := Work(WShutdown);
        case WShutdown => next := Work(if shutdown then WExit else WSleep);
        case WExit => lock, next := None, Work(WExited);
        case WExited =>
        case WSleep => lock, next := None, Work(WAsleep);
        case WAsleep =>
        case WWoken => next := TryLock(t, next, Work(WTest));
        case WHold => next := if hold then Work(WHoldUnlock) else Run(true, Incr);
        case WHoldUnlock => lock, next := None, Work(WHoldSleep);
        case WHoldSleep => next := Work(WTop);
      }
    }

    /** Taking the task at the head of the queue. */
    method PopCode(t: nat, worker: bool) returns (next: Pc)
      requires Ring() && queueCount > 0
      modifies `head, `queueCount, `log
      ensures Moved(t, Run(worker, Pop), next)
    {
      var task := Get();
      next := Run(worker, PopUnlock(|log.started|, task));
      log := log.(started := log.started + [task], owner := log.owner + [t],
                  pausedStarts := log.pausedStarts + (if worker && hold then 1 else 0));
    }

    /** The rest of the handling of one task, by a worker or in thpool_worker_try_once. */
    method TaskCode(t: nat, worker: bool, r: TaskPc) returns (next: Pc)
      requires Ring() && !r.Pop?
      modifies `lock, `runningCount, `log
      ensures Moved(t, Run(worker, r), next)
    {
      match r {
        case Incr => runningCount, next := runningCount + 1, Run(worker, Pop);
        case PopUnlock(k, task) => lock, next := None, Run(worker, Exec(k, task));
        case Exec(_, _) => next := RunTask(t, worker, r);
        case Decr => next := Retire(t, worker);
      }
    }

    /** The call of the task's function. */
    method RunTask(t: nat, worker: bool, r: TaskPc) returns (next: Pc)
      requires Ring() && r.Exec?
      modifies `log
      ensures Moved(t, Run(worker, r), next)
    {
      log, next := log.(completed := log.completed + {r.k}), Run(worker, Decr);
    }

    /** running_count--, a `size_t`. */
    method Retire(t: nat, worker: bool) returns (next: Pc)
      requires Ring()
      modifies `runningCount, `log
      ensures Moved(t, Run(worker, Decr), next)
    {
      runningCount := if runningCount == 0 then SIZE_MAX else runningCount - 1;
      log, next := log.(retired := log.retired + 1), if worker then Work(WTop) else Idle(0);
    }

    /** thpool_add_task and thpool_add_task_try. */
    method AddCode(t: nat, a: AddPc) returns (next: Pc)
      requires Ring() && (a.AInsert? ==> queueCount < taskQueue.Length)
      modifies `lock, `tail, `queueCount, `log, taskQueue
      ensures Moved(t, Adding(a), next)
    {
      match a {
        case ALock(task, tries) => next := TryLock(t, Adding(a), Adding(ATest(task, tries)));
        case ATest(task, tries) =>
          next := Adding(if queueCount == taskQueue.Length then AFull(task, tries) else AInsert(task));
        case AFull(task, tries) =>
          lock, next := None, if tries - 1 < 0 then Idle(-1) else Adding(ALock(task, tries - 1));
        case AInsert(task) => next := Insert(t, task);
        case ASignal => next := Adding(AUnlock);
        case AUnlock => lock, next := None, Idle(0);
      }
    }

    /** Putting a task at the tail of the queue. */
    method Insert(t: nat, task: Task) returns (next: Pc)
      requires Ring() && queueCount < taskQueue.Length
      modifies `tail, `queueCount, `log, taskQueue
      ensures Moved(t, Adding(AInsert(task)), next)
    {
      Put(task);
      next := Adding(ASignal);
      log := log.(accepted := log.accepted + [task], late := log.late || shutdown);
    }

    /** thpool_wait. */
    method WaitCode(t: nat, since: nat, c: WaitPc) returns (next: Pc)
      requires Ring()
      modifies `lock
      ensures Moved(t, Waiting(since, c), next)
    {
      next := Waiting(since, c);
      match c {
        case CLock => next := TryLock(t, next, Waiting(since, CTest));
        case CTest =>
          next := Waiting(since, if queueCount == 0 && runningCount == 0 then CDone(|log.accepted|) else CSleep);
        case CSleep => lock, next := None, Waiting(since, CAsleep);
        case CAsleep =>
        case CWoken => next := TryLock(t, next, Waiting(since, CUnlock));
        case CUnlock => lock, next := None, Waiting(since, CLock);
        case CDone(seen) => lock, next := None, Waited(since, seen);
      }
    }

    /** thpool_worker_try_once before it has a task, thpool_pause, thpool_resume. */
    method ControlCode(t: nat, x: ControlPc) returns (next: Pc)
      requires Ring() && !Ends(x) && !Counts(x)
      modifies `lock, `hold, `log
      ensures Moved(t, Control(x), next)
    {
      next := Control(x);
      match x {
        case TLock => next := TryLock(t, next, Control(TTest));
        case TTest => next := if queueCount == 0 then Control(TEmpty) else Run(false, Incr);
        case TEmpty => lock, next := None, Idle(-1);
        case PStore => next := Pause(t);
        case RStore => hold, next := false, Control(RLock);
        case RLock => next := TryLock(t, next, Control(RSignal));
        case RSignal => next := Control(RUnlock);
        case RUnlock => lock, next := None, Idle(0);
      }
    }

    /** thpool_pause. */
    method Pause(t: nat) returns (next: Pc)
      requires Ring()
      modifies `hold, `log
      ensures Moved(t, Control(PStore), next)
    {
      log := log.(pausedStarts := if hold then log.pausedStarts else 0);
      hold, next := true, Idle(0);
    }

    static predicate Ends(x: ControlPc) {
      x.SStore? || x.SLock? || x.SBroadcast? || x.SUnlock?
    }

    static predicate Counts(x: ControlPc) { x.NLock? || x.NRead? || x.NUnlock? }

    /** thpool_shutdown up to its joins. */
    method EndCode(t: nat, x: ControlPc) returns (next: Pc)
      requires Ring() && Ends(x)
      modifies `lock, `shutdown, `log
      ensures Moved(t, Control(x), next)
    {
      next := Control(x);
      match x {
        case SStore => next := Stop(t);
        case SLock => next := TryLock(t, next, Control(SBroadcast));
        case SBroadcast => next := Tell(t);
        case SUnlock => lock, next := None, Joining(0);
      }
    }

    /** The store of the shutdown flag. */
    method Stop(t: nat) returns (next: Pc)
      requires Ring()
      modifies `shutdown
      ensures Moved(t, Control(SStore), next)
    {
      shutdown, next := true, Control(SLock);
    }

    /** The broadcast, as far as the pool itself is concerned. */
    method Tell(t: nat) returns (next: Pc)
      requires Ring()
      modifies `log
      ensures Moved(t, Control(SBroadcast), next)
    {
      log, next := log.(told := true), Control(SUnlock);
    }

    /** thpool_total_tasks. */
    method TotalCode(t: nat, x: ControlPc) returns (next: Pc)
      requires Ring() && Counts(x)
      modifies `lock
      ensures Moved(t, Control(x), next)
    {
      next := Control(x);
      match x {
        case NLock => next := TryLock(t, next, Control(NRead));
        case NRead => next := Control(NUnlock(runningCount + queueCount));
        case NUnlock(n) => lock, next := None, Counted(n);
      }
    }

    // -------------------------------------------------------------- one access of one thread

    /** The access was the step of event e, and is in thread e.t's book. */
    twostate predicate Did(e: Event)
      requires old(Ring())
      reads this, taskQueue
    {
      && Valid() && View() == Next(old(View()), e)
      && trail == old(trail) + [e] && past == old(past) + [View()]
      && |book| == |old(book)|
      && (forall u :: 0 <= u < |book| && u != e.t ==> book[u] == old(book)[u])
      && (e.t < |book| ==> book[e.t] == Booked(old(book)[e.t], old(Pool()), Pool()))
    }

    /** Adds an event to the trail. */
    ghost method Note(e: Event, before: State)
      requires Ring() && Traced(before) && View() == Next(before, e)
      modifies `trail, `past
      ensures Traced(View())
      ensures trail == old(trail) + [e] && past == old(past) + [View()]
    {
      AllAt(Inv, past, |trail|);
      NextInv(before, e);
      AllSnoc(Inv, past, View());
      PathSnoc(Next, past, trail, e);
      trail, past := trail + [e], past + [View()];
    }

    /** The wakeups of a step and the thread's own next point. */
    method Settle(t: nat, wake: nat, next: Pc, ghost before: State)
      requires t < |before.threads| && !before.threads[t].Joining?
      requires MayWake(before.threads, before.threads[t], wake)
      requires Ring() && threads == before.threads && workers == before.workers && |book| == |threads|
      requires var m := Step(before.sh, before.threads[t]);
               Pool() == Apply(before.sh, t, m.change) && next == m.pc
      requires Traced(before)
      modifies `threads, `book, `trail, `past
      ensures Valid() && View() == Next(before, Event(t, Action.Go(wake)))
      ensures book == old(book)[t := Booked(old(book)[t], before.sh, Pool())]
      ensures trail == old(trail) + [Event(t, Action.Go(wake))] && past == old(past) + [View()]
    {
      threads := Wakes(threads, threads[t], wake)[t := next];
      book := book[t := Booked(book[t], before.sh, Pool())];
      Note(Event(t, Action.Go(wake)), before);
    }

    /** The code of thread t's next step on the fields. */
    method Code(t: nat) returns (next: Pc)
      requires Valid() && t < |threads| && !threads[t].Joining? && !Ready(threads[t])
      modifies this, taskQueue
      ensures Moved(t, old(threads)[t], next)
    {
      Present();
      assert PcOk(Pool(), t, threads[t]);
      match threads[t] {
        case Work(w) => next := WorkerCode(t, w);
        case Run(worker, r) =>
          if r.Pop? { next := PopCode(t, worker); } else { next := TaskCode(t, worker, r); }
        case Adding(a) => next := AddCode(t, a);
        case Waiting(since, c) => next := WaitCode(t, since, c);
        case Control(x) =>
          if Ends(x) {
            next := EndCode(t, x);
          } else if Counts(x) {
            next := TotalCode(t, x);
          } else {
            next := ControlCode(t, x);
          }
      }
    }

    /** The step of thread t in place. */
    method Access(t: nat, wake: nat)
      requires Valid() && t < |threads| && MayWake(threads, threads[t], wake)
      requires !threads[t].Joining? && !Ready(threads[t])
      modifies this, taskQueue
      ensures Did(Event(t, Action.Go(wake)))
    {
      ghost var before := View();
      var next := Code(t);
      Settle(t, wake, next, before);
    }

    /** A step that moves only the thread itself. */
    method Place(t: nat, next: Pc, ghost e: Event, ghost after: State)
      requires Ring() && |book| == |threads| && t < |threads|
      requires Traced(View()) && after == View().(threads := threads[t := next]) && after == Next(View(), e)
      modifies `threads, `book, `trail, `past
      ensures Valid() && View() == after && |book| == |old(book)|
      ensures book == old(book)[t := Booked(old(book)[t], old(Pool()), Pool())]
      ensures trail == old(trail) + [e] && past == old(past) + [after]
    {
      ghost var before := View();
      threads := threads[t := next];
      book := book[t := Booked(book[t], Pool(), Pool())];
      Note(e, before);
    }

    /** Entering a function. */
    method Call(t: nat, op: Op)
      requires Valid() && t < |threads| && Ready(threads[t])
      modifies `threads, `book, `trail, `past
      ensures Did(Event(t, Action.Call(op)))
    {
      ghost var e := Event(t, Action.Call(op));
      var next: Pc;
      match op {
        case TryOnce => next := Control(TLock);
        case Add(task, maxTry) => next := if maxTry < 0 then Idle(-1) else Adding(ALock(task, maxTry));
        case Wait => next := Waiting(|log.accepted|, CLock);
        case Pause => next := Control(PStore);
        case Resume => next := Control(RStore);
        case Shutdown => next := Control(SStore);
        case Total => next := Control(NLock);
      }
      Place(t, next, e, Next(View(), e));
    }

    /** A condition wait that returns by itself. */
    method WakeUp(t: nat)
      requires Valid() && t < |threads|
      modifies `threads, `book, `trail, `past
      ensures Did(Event(t, Spurious))
    {
      ghost var e := Event(t, Spurious);
      Place(t, Wake(threads[t]), e, Next(View(), e));
    }

    /** pthread_join of worker i, for thpool_shutdown. */
    method Join(t: nat, wake: nat)
      requires Valid() && t < |threads| && threads[t].Joining?
      modifies `threads, `book, `trail, `past
      ensures Did(Event(t, Action.Go(wake)))
      ensures threads[t].Joining? || (threads[t].Down? && AllExited(View()))
    {
      ghost var e := Event(t, Action.Go(wake));
      Present();
      JoinWaitsForAll(View(), t, wake);
      var i := threads[t].i;
      var next := threads[t];
      if i >= workers {
        next := Down;
      } else if i < |threads| && threads[i] == Work(WExited) {
        next := Joining(i + 1);
      } else {
        assert threads[t := next] == threads;
      }
      Place(t, next, e, Next(View(), e));
    }

    /** An event that finds nothing to do. */
    ghost method Pass(e: Event)
      requires Valid() && Next(View(), e) == View()
      modifies `book, `trail, `past
      ensures Did(e)
    {
      Note(e, View());
      if e.t < |threads| {
        book := book[e.t := Booked(book[e.t], Pool(), Pool())];
      }
    }

    method Execute(e: Event)
      requires Valid()
      modifies this, taskQueue
      ensures Did(e)
    {
      if e.t >= |threads| {
        Pass(e);
      } else if e.act.Call? && Ready(threads[e.t]) {
        Call(e.t, e.act.op);
      } else if e.act.Spurious? {
        WakeUp(e.t);
      } else if e.act.Go? && threads[e.t].Joining? {
        Join(e.t, e.act.wake);
      } else if e.act.Go? && !Ready(threads[e.t]) && MayWake(threads, threads[e.t], e.act.wake) {
        Access(e.t, e.act.wake);
      } else {
        assert threads[e.t := threads[e.t]] == threads;
        Pass(e);
      }
    }

    // -------------------------------------------------------------- whole calls, in company

    /** Others may do anything; to t itself they can only happen as a wakeup. */
    static predicate Company(t: nat, es: seq<Event>) {
      forall e :: e in es && e.t == t ==> e.act.Spurious?
    }

    /** What has happened since is exactly `es`. */
    twostate predicate Replay(es: seq<Event>)
      reads this
    {
      trail == old(trail) + es && old(past) <= past
    }

    /** Where others leave thread t: at most woken, its book closed. */
    twostate predicate Untouched(t: nat)
      requires old(Ring())
      reads this, taskQueue
    {
      && Valid() && |threads| == |old(threads)| && t < |threads| && |old(book)| == |threads|
      && (threads[t] == old(threads)[t] || threads[t] == Wake(old(threads)[t]))
      && book[t] == old(book)[t]
      && |log.accepted| >= |old(log.accepted)|
    }

    method Others(t: nat, es: seq<Event>)
      requires Valid() && t < |threads| && Company(t, es)
      modifies this, taskQueue
      ensures Untouched(t) && Replay(es)
    {
      for i := 0 to |es|
        invariant Untouched(t) && Replay(es[..i])
      {
        assert es[i] in es;
        Other(t, es[i]);
        assert es[..i + 1] == es[..i] + [es[i]];
      }
      assert es[..|es|] == es;
    }

    method Other(t: nat, e: Event)
      requires Valid() && t < |threads| && (e.t == t ==> e.act.Spurious?)
      modifies this, taskQueue
      ensures Untouched(t) && Replay([e])
    {
      ghost var before := View();
      Present();
      NextHistory(before, e);
      Execute(e);
      OtherThread(before, e, t);
    }

    static lemma OtherThread(s: State, e: Event, t: nat)
      requires t < |s.threads| && (e.t == t ==> e.act.Spurious?)
      ensures var r := Next(s, e);
              && |r.threads| == |s.threads|
              && (r.threads[t] == s.threads[t] || r.threads[t] == Wake(s.threads[t]))
              && (e.t == t ==> r.sh == s.sh)
    {
    }

    /** The own step of a turn. */
    method OwnStep(t: nat, wake: nat) returns (moved: bool, ghost mid: Shared, ghost at: Pc)
      requires Valid() && t < |threads| && !Ready(threads[t]) && !threads[t].Joining?
      modifies this, taskQueue
      ensures Valid() && |threads| == |old(threads)| && |book| == |threads| && at == old(threads)[t]
      ensures |mid.owner| == |mid.started| && PcOk(mid, t, at)
      ensures if moved then
                var m := Step(mid, at);
                threads[t] == m.pc && book[t] == Booked(old(book)[t], mid, Apply(mid, t, m.change))
              else threads[t] == at && book[t] == old(book)[t]
      ensures |past| == |old(past)| + 1 && (moved ==> Was(past, |past| - 2, t, mid, at))
      ensures moved ==> past[|past| - 1].sh == Apply(mid, t, Step(mid, at).change)
      ensures Replay([Event(t, Action.Go(wake))])
    {
      mid, at := Pool(), threads[t];
      Knows(t);
      moved := MayWake(threads, threads[t], wake);
      if moved {
        Access(t, wake);
      } else {
        Pass(Event(t, Action.Go(wake)));
        assert Booked(old(book)[t], mid, mid) == old(book)[t];
      }
    }

    lemma Knows(t: nat)
      requires Valid() && t < |threads|
      ensures |Pool().owner| == |Pool().started| && PcOk(Pool(), t, threads[t])
    {
      Present();
    }

    /** One turn: the others run, then thread t takes its step if its choice of a wakeup is possible.  `mid` is
        the pool in between, `at` where t then stood. */
    method Advance(t: nat, turn: Turn) returns (moved: bool, ghost mid: Shared, ghost at: Pc)
      requires Valid() && t < |threads| && !Ready(threads[t]) && !threads[t].Joining? && Company(t, turn.others)
      modifies this, taskQueue
      ensures Valid() && |threads| == |old(threads)| && |book| == |threads|
      ensures at == old(threads)[t] || at == Wake(old(threads)[t])
      ensures |mid.owner| == |mid.started| && PcOk(mid, t, at)
      ensures if moved then
                var m := Step(mid, at);
                threads[t] == m.pc && book[t] == Booked(old(book)[t], mid, Apply(mid, t, m.change))
              else threads[t] == at && book[t] == old(book)[t]
      ensures |past| > |old(past)| && (moved ==> Was(past, |past| - 2, t, mid, at))
      ensures moved ==> past[|past| - 1].sh == Apply(mid, t, Step(mid, at).change)
      ensures Replay(turn.others + [Event(t, Action.Go(turn.wake))])
    {
      Others(t, turn.others);
      moved, mid, at := OwnStep(t, turn.wake);
    }

    /** One turn of a thread that joins the workers. */
    method AdvanceJoin(t: nat, turn: Turn)
      requires Valid() && t < |threads| && threads[t].Joining? && Company(t, turn.others)
      modifies this, taskQueue
      ensures Valid() && |threads| == |old(threads)| && |book| == |threads| && book[t] == old(book)[t]
      ensures threads[t].Joining? || (threads[t].Down? && AllExited(View()))
      ensures Replay(turn.others + [Event(t, Action.Go(turn.wake))])
    {
      Others(t, turn.others);
      ghost var l := book[t];
      ghost var sh := Pool();
      Join(t, turn.wake);
      assert Booked(l, sh, sh) == l;
    }

    // -------------------------------------------------------------- the functions of the library

    /** One turn of an add. */
    method AddTurn(t: nat, turn: Turn, task: Task, maxTry: int, full0: nat, ghost l: Ledger, ghost added0: bool,
                   ghost from: nat, ghost fulls0: seq<nat>)
      returns (full: nat, ghost added: bool, ghost fulls: seq<nat>)
      requires Valid() && t < |threads| && threads[t].Adding? && Company(t, turn.others)
      requires AddPhase(threads[t], task, added0) && Tried(threads[t], maxTry, full0)
      requires from < |past| && Moments(FindsFull(t), past, from, fulls0) && |fulls0| == full0
      requires book[t] == if added0 then Ledger(l.inserted + [task], l.ran) else l
      modifies this, taskQueue
      ensures Valid() && |book| == |old(book)| && |threads| == |book|
      ensures AddPhase(threads[t], task, added) && Tried(threads[t], maxTry, full)
      ensures Moments(FindsFull(t), past, from, fulls) && |fulls| == full
      ensures book[t] == if added then Ledger(l.inserted + [task], l.ran) else l
      ensures Replay(turn.others + [Event(t, Action.Go(turn.wake))])
    {
      ghost var was := book[t];
      var pc := threads[t];
      var moved;
      ghost var mid, at;
      moved, mid, at := Advance(t, turn);
      full, added := full0, added0;
      if moved {
        AddPhaseStep(mid, t, at, task, added0, was);
        added := AddsNow(at) || added0;
        TriedStep(mid, at, maxTry, full0);
        full := if NoRoom(pc, threads[t]) then full0 + 1 else full0;
      }
      fulls := MomentsGrow(FindsFull(t), old(past), past, from, fulls0, full > full0);
    }

    /** thpool_add_task_try; with maxTry 0, thpool_add_task.  A call that returns 0 put its task into the queue,
        once and nothing else; a call that returns -1 put nothing, having found the queue full max_try + 1
        times, namely at the past states `fulls`. */
    method AddTaskTry(t: nat, task: Task, maxTry: int, env: seq<Turn>)
      returns (rc: Option<int>, full: nat, ghost used: nat, ghost fulls: seq<nat>)
      requires Valid() && t < |threads| && Ready(threads[t])
      requires forall i :: 0 <= i < |env| ==> Company(t, env[i].others)
      modifies this, taskQueue
      ensures Valid() && |book| == |old(book)| && t < |book|
      ensures used <= |env| && Replay(Woven(t, Add(task, maxTry), env[..used]))
      ensures if Ready(threads[t]) then threads[t].Idle? && rc == Some(threads[t].rc) else rc == None && used == |env|
      ensures rc == None || rc == Some(0) || rc == Some(-1)
      ensures rc == Some(0) ==> book[t] == Ledger(old(book)[t].inserted + [task], old(book)[t].ran)
      ensures rc == Some(-1) ==> book[t] == old(book)[t]
      ensures maxTry < 0 ==> rc == Some(-1)
      ensures rc == Some(-1) ==> full == if maxTry < 0 then 0 else maxTry + 1
      ensures rc == Some(0) ==> full <= maxTry
      ensures Moments(FindsFull(t), past, |old(past)|, fulls) && |fulls| == full
    {
      ghost var l := book[t];
      ghost var added := false;
      Call(t, Add(task, maxTry));
      full, fulls := 0, [];
      var k := 0;
      assert env[..0] == [];
      while !Ready(threads[t]) && k < |env|
        invariant k <= |env| && Valid() && |book| == |old(book)| && |threads| == |book|
        invariant Replay(Woven(t, Add(task, maxTry), env[..k]))
        invariant AddPhase(threads[t], task, added)
        invariant book[t] == if added then Ledger(l.inserted + [task], l.ran) else l
        invariant maxTry < 0 ==> threads[t] == Idle(-1)
        invariant Tried(threads[t], maxTry, full)
        invariant |old(past)| < |past| && Moments(FindsFull(t), past, |old(past)|, fulls) && |fulls| == full
      {
        full, added, fulls := AddTurn(t, env[k], task, maxTry, full, l, added, |old(past)|, fulls);
        WeavePrefix(old(trail), [Event(t, Action.Call(Add(task, maxTry)))], Turned(t), env, k);
        k := k + 1;
      }
      used := k;
      rc := if Ready(threads[t]) then Some(threads[t].rc) else None;
    }

    /** One turn of a try_once. */
    method TryTurn(t: nat, turn: Turn, ghost l: Ledger, ghost ran0: bool, ghost from: nat, ghost when0: nat)
      returns (ghost ran: bool, ghost when: nat)
      requires Valid() && t < |threads| && !Ready(threads[t]) && Company(t, turn.others)
      requires TryPhase(threads[t], ran0)
      requires from < |past| && (RefusesTry(threads[t]) ==> FoundEmpty(past, from, when0))
      requires book[t] == if ran0 then Ledger(l.inserted, l.ran + 1) else l
      modifies this, taskQueue
      ensures Valid() && |book| == |old(book)| && |threads| == |book|
      ensures TryPhase(threads[t], ran)
      ensures RefusesTry(threads[t]) ==> FoundEmpty(past, from, when)
      ensures book[t] == if ran then Ledger(l.inserted, l.ran + 1) else l
      ensures Replay(turn.others + [Event(t, Action.Go(turn.wake))])
    {
      ghost var was := book[t];
      var moved;
      ghost var mid, at;
      moved, mid, at := Advance(t, turn);
      ran := ran0;
      if moved {
        TryPhaseStep(mid, t, at, ran0, was);
        ran := (at.Run? && at.r.Exec?) || ran0;
      }
      when := if moved && at == Control(TTest) then |past| - 2 else when0;
    }

    /** thpool_worker_try_once.  A call that returns 0 ran exactly one task to its end, one that returns -1
        ran none, the queue having been empty at past state `when`, during the call; neither inserts. */
    method TryOnce(t: nat, env: seq<Turn>) returns (rc: Option<int>, ghost used: nat, ghost when: nat)
      requires Valid() && t < |threads| && Ready(threads[t])
      requires forall i :: 0 <= i < |env| ==> Company(t, env[i].others)
      modifies this, taskQueue
      ensures Valid() && |book| == |old(book)| && t < |book|
      ensures used <= |env| && Replay(Woven(t, Op.TryOnce, env[..used]))
      ensures if Ready(threads[t]) then threads[t].Idle? && rc == Some(threads[t].rc) else rc == None && used == |env|
      ensures rc == None || rc == Some(0) || rc == Some(-1)
      ensures rc == Some(0) ==> book[t] == Ledger(old(book)[t].inserted, old(book)[t].ran + 1)
      ensures rc == Some(-1) ==> book[t] == old(book)[t]
      ensures rc == Some(-1) ==> FoundEmpty(past, |old(past)|, when)
    {
      ghost var l := book[t];
      ghost var ran := false;
      when := 0;
      Call(t, Op.TryOnce);
      var k := 0;
      assert env[..0] == [];
      while !Ready(threads[t]) && k < |env|
        invariant k <= |env| && Valid() && |book| == |old(book)| && |threads| == |book|
        invariant Replay(Woven(t, Op.TryOnce, env[..k]))
        invariant TryPhase(threads[t], ran)
        invariant |old(past)| < |past| && (RefusesTry(threads[t]) ==> FoundEmpty(past, |old(past)|, when))
        invariant book[t] == if ran then Ledger(l.inserted, l.ran + 1) else l
      {
        ran, when := TryTurn(t, env[k], l, ran, |old(past)|, when);
        WeavePrefix(old(trail), [Event(t, Action.Call(Op.TryOnce))], Turned(t), env, k);
        k := k + 1;
      }
      used := k;
      rc := if Ready(threads[t]) then Some(threads[t].rc) else None;
    }

    /** thpool_wait.  When it returns, every task accepted before the call has run to its end. */
    method WaitForAll(t: nat, env: seq<Turn>) returns (done: bool, ghost used: nat)
      requires Valid() && t < |threads| && Ready(threads[t])
      requires forall i :: 0 <= i < |env| ==> Company(t, env[i].others)
      modifies this, taskQueue
      ensures Valid() && |book| == |old(book)| && t < |book|
      ensures used <= |env| && Replay(Woven(t, Op.Wait, env[..used]))
      ensures (done <==> Ready(threads[t])) && (!done ==> used == |env|)
      ensures done ==> AllDone(Pool(), |old(log.accepted)|) && book[t] == old(book)[t]
    {
      ghost var n := |log.accepted|;
      Call(t, Op.Wait);
      var k := 0;
      assert env[..0] == [];
      while !Ready(threads[t]) && k < |env|
        invariant k <= |env| && Valid() && |book| == |old(book)| && |threads| == |book|
        invariant Replay(Woven(t, Op.Wait, env[..k]))
        invariant (threads[t].Waiting? || threads[t].Waited?) && threads[t].since == n
        invariant book[t] == old(book)[t]
      {
        var moved;
        ghost var mid, at;
        moved, mid, at := Advance(t, env[k]);
        if moved { WaitPhaseStep(mid, t, at, old(book)[t]); }
        WeavePrefix(old(trail), [Event(t, Action.Call(Op.Wait))], Turned(t), env, k);
        k := k + 1;
      }
      used := k;
      done := Ready(threads[t]);
      Present();
      assert PcOk(Pool(), t, threads[t]);
    }

    /** One turn of a pause or a resume, which is `to`. */
    method FlagTurn(t: nat, turn: Turn, to: bool, ghost from: nat, ghost when0: nat) returns (ghost when: nat)
      requires Valid() && t < |threads| && !Ready(threads[t]) && FlagPhase(threads[t], to) && Company(t, turn.others)
      requires from < |past| && (Stored(threads[t]) ==> HoldWas(past, from, when0, to))
      modifies this, taskQueue
      ensures Valid() && |book| == |old(book)| && |threads| == |book| && book[t] == old(book)[t]
      ensures FlagPhase(threads[t], to) && (Stored(threads[t]) ==> HoldWas(past, from, when, to))
      ensures Replay(turn.others + [Event(t, Action.Go(turn.wake))])
    {
      ghost var was := book[t];
      var moved;
      ghost var mid, at;
      moved, mid, at := Advance(t, turn);
      when := when0;
      if moved {
        when := if Stored(at) then when0 else |past| - 1;
      }
    }

    /** thpool_pause, or thpool_resume if `to` is false: when it returns, hold had that value at past state `when`,
        during the call; whoever finds it otherwise later owes that to another call. */
    method SetHold(t: nat, to: bool, env: seq<Turn>) returns (done: bool, ghost used: nat, ghost when: nat)
      requires Valid() && t < |threads| && Ready(threads[t])
      requires forall i :: 0 <= i < |env| ==> Company(t, env[i].others)
      modifies this, taskQueue
      ensures Valid() && |book| == |old(book)| && t < |book| && book[t] == old(book)[t]
      ensures used <= |env| && Replay(Woven(t, if to then Op.Pause else Op.Resume, env[..used]))
      ensures (done <==> Ready(threads[t])) && (!done ==> used == |env|)
      ensures done ==> threads[t] == Idle(0) && HoldWas(past, |old(past)|, when, to)
    {
      var op := if to then Op.Pause else Op.Resume;
      Call(t, op);
      when := 0;
      var k := 0;
      assert env[..0] == [];
      while !Ready(threads[t]) && k < |env|
        invariant k <= |env| && Valid() && |book| == |old(book)| && |threads| == |book|
        invariant Replay(Woven(t, op, env[..k])) && book[t] == old(book)[t]
        invariant FlagPhase(threads[t], to) && |old(past)| < |past|
        invariant Stored(threads[t]) ==> HoldWas(past, |old(past)|, when, to)
      {
        when := FlagTurn(t, env[k], to, |old(past)|, when);
        WeavePrefix(old(trail), [Event(t, Action.Call(op))], Turned(t), env, k);
        k := k + 1;
      }
      used := k;
      done := Ready(threads[t]);
    }

    /** One turn of a count. */
    method CountTurn(t: nat, turn: Turn, ghost from: nat, ghost when0: nat) returns (ghost when: nat)
      requires Valid() && t < |threads| && CountPhase(threads[t]) && !Ready(threads[t]) && Company(t, turn.others)
      requires from < |past| && CountWas(past, from, when0, threads[t])
      modifies this, taskQueue
      ensures Valid() && |book| == |old(book)| && |threads| == |book| && book[t] == old(book)[t]
      ensures CountPhase(threads[t]) && CountWas(past, from, when, threads[t])
      ensures Replay(turn.others + [Event(t, Action.Go(turn.wake))])
    {
      ghost var was := book[t];
      var moved;
      ghost var mid, at;
      moved, mid, at := Advance(t, turn);
      when := when0;
      if moved {
        when := if at == Control(NRead) then |past| - 2 else when0;
      }
    }

    /** thpool_total_tasks: the number it returns is that of the tasks queued and running at past state `when`. */
    method TotalTasks(t: nat, env: seq<Turn>) returns (n: Option<nat>, ghost used: nat, ghost when: nat)
      requires Valid() && t < |threads| && Ready(threads[t])
      requires forall i :: 0 <= i < |env| ==> Company(t, env[i].others)
      modifies this, taskQueue
      ensures Valid() && |book| == |old(book)| && t < |book| && book[t] == old(book)[t]
      ensures used <= |env| && Replay(Woven(t, Op.Total, env[..used]))
      ensures if Ready(threads[t]) then n.Some? else n == None && used == |env|
      ensures n.Some? ==> threads[t] == Counted(n.value) && CountWas(past, |old(past)|, when, threads[t])
    {
      Call(t, Op.Total);
      when := 0;
      var k := 0;
      assert env[..0] == [];
      while !Ready(threads[t]) && k < |env|
        invariant k <= |env| && Valid() && |book| == |old(book)| && |threads| == |book|
        invariant Replay(Woven(t, Op.Total, env[..k])) && book[t] == old(book)[t]
        invariant CountPhase(threads[t]) && |old(past)| < |past| && CountWas(past, |old(past)|, when, threads[t])
      {
        when := CountTurn(t, env[k], |old(past)|, when);
        WeavePrefix(old(trail), [Event(t, Action.Call(Op.Total))], Turned(t), env, k);
        k := k + 1;
      }
      used := k;
      n := if Ready(threads[t]) then Some(threads[t].n) else None;
    }

    /** thpool_shutdown.  When it returns, every worker has exited. */
    method ShutDown(t: nat, env: seq<Turn>) returns (done: bool, ghost used: nat)
      requires Valid() && t < |threads| && Ready(threads[t])
      requires forall i :: 0 <= i < |env| ==> Company(t, env[i].others)
      modifies this, taskQueue
      ensures Valid() && |book| == |old(book)| && t < |book|
      ensures used <= |env| && Replay(Woven(t, Op.Shutdown, env[..used]))
      ensures (done <==> Ready(threads[t])) && (!done ==> used == |env|)
      ensures done ==> AllExited(View()) && book[t] == old(book)[t]
    {
      Call(t, Op.Shutdown);
      var k := 0;
      assert env[..0] == [];
      while !Ready(threads[t]) && k < |env|
        invariant k <= |env| && Valid() && |book| == |old(book)| && |threads| == |book|
        invariant Replay(Woven(t, Op.Shutdown, env[..k]))
        invariant ShutPhase(threads[t]) && (threads[t].Down? ==> AllExited(View()))
        invariant book[t] == old(book)[t]
      {
        if threads[t].Joining? {
          AdvanceJoin(t, env[k]);
        } else {
          var moved;
          ghost var mid, at;
          moved, mid, at := Advance(t, env[k]);
          if moved { ShutPhaseStep(mid, t, at, old(book)[t]); }
        }
        WeavePrefix(old(trail), [Event(t, Action.Call(Op.Shutdown))], Turned(t), env, k);
        k := k + 1;
      }
      used := k;
      done := Ready(threads[t]);
    }
  }

  /** The accesses of other threads before the next own one, and whom a signal of that one wakes. */
  datatype Turn = Turn(others: seq<Event>, wake: nat)

  /** Everything that happens during a call: entering it, then turn by turn the others and the caller's step. */
  function Woven(t: nat, op: Op, env: seq<Turn>): seq<Event> {
    Weave([Event(t, Action.Call(op))], Turned(t), env)
  }

  function Turned(t: nat): Turn -> seq<Event> {
    (turn: Turn) => turn.others + [Event(t, Action.Go(turn.wake))]
  }

  /** At past state i the pool was `sh` and thread t at `pc`. */
  predicate Was(past: seq<State>, i: int, t: nat, sh: Shared, pc: Pc) {
    0 <= i < |past| && t < |past[i].threads| && past[i].sh == sh && past[i].threads[t] == pc
  }

  /** Thread t tests the queue for room and there is none. */
  function FindsFull(t: nat): State -> bool {
    (s: State) =>
      t < |s.threads| && s.threads[t].Adding? && s.threads[t].a.ATest? && |s.sh.queue| == s.sh.size
  }

  /** A test of the queue that found it full. */
  predicate NoRoom(pc: Pc, next: Pc) {
    pc.Adding? && pc.a.ATest? && next.Adding? && next.a.AFull?
  }

  predicate AddsNow(pc: Pc) { pc.Adding? && pc.a.AInsert? }

  /** An add before its insert carries its task; after it, nothing is left but to return 0. */
  predicate AddPhase(pc: Pc, task: Task, added: bool) {
    match pc
    case Adding(a) => if a.ASignal? || a.AUnlock? then added else !added && a.task == task
    case Idle(rc) => rc == if added then 0 else -1
    case _ => false
  }

  lemma AddPhaseStep(sh: Shared, t: nat, pc: Pc, task: Task, added: bool, l: Ledger)
    requires AddPhase(pc, task, added) && pc.Adding?
    ensures var m := Step(sh, pc);
            && AddPhase(m.pc, task, AddsNow(pc) || added)
            && Booked(l, sh, Apply(sh, t, m.change))
               == if AddsNow(pc) then Ledger(l.inserted + [task], l.ran) else l
  {
  }

  /** How often the queue has been found full. */
  predicate Tried(pc: Pc, maxTry: int, full: nat) {
    match pc
    case Adding(a) =>
      (match a
       case ALock(_, tries) => full == maxTry - tries && tries >= 0
       case ATest(_, tries) => full == maxTry - tries && tries >= 0
       case AFull(_, tries) => full == maxTry - tries + 1 && tries >= 0
       case _ => full <= maxTry)
    case Idle(rc) => if rc == 0 then full <= maxTry else full == if maxTry < 0 then 0 else maxTry + 1
    case _ => false
  }

  lemma TriedStep(sh: Shared, pc: Pc, maxTry: int, full: nat)
    requires Tried(pc, maxTry, full) && pc.Adding?
    ensures var next := Step(sh, pc).pc;
            Tried(next, maxTry, if NoRoom(pc, next) then full + 1 else full)
  {
  }

  predicate TryPhase(pc: Pc, ran: bool) {
    match pc
    case Control(x) => !ran && (x.TLock? || x.TTest? || x.TEmpty?)
    case Run(worker, r) => !worker && (ran <==> r.Decr?)
    case Idle(rc) => rc == if ran then 0 else -1
    case _ => false
  }

  /** thpool_worker_try_once has decided to return -1. */
  predicate RefusesTry(pc: Pc) { pc == Control(TEmpty) || pc == Idle(-1) }

  predicate FoundEmpty(past: seq<State>, from: nat, when: nat) {
    from <= when < |past| && past[when].sh.queue == []
  }

  lemma TryPhaseStep(sh: Shared, t: nat, pc: Pc, ran: bool, l: Ledger)
    requires TryPhase(pc, ran) && !pc.Idle?
    requires |sh.owner| == |sh.started| && PcOk(sh, t, pc)
    ensures var m := Step(sh, pc);
            var now := pc.Run? && pc.r.Exec?;
            && TryPhase(m.pc, now || ran)
            && (RefusesTry(m.pc) ==> RefusesTry(pc) || (pc == Control(TTest) && sh.queue == []))
            && Booked(l, sh, Apply(sh, t, m.change)) == if now then Ledger(l.inserted, l.ran + 1) else l
  {
  }

  /** A pause or a resume; past its store of hold. */
  predicate FlagPhase(pc: Pc, to: bool) {
    match pc
    case Control(x) => if to then x.PStore? else x.RStore? || x.RLock? || x.RSignal? || x.RUnlock?
    case Idle(rc) => rc == 0
    case _ => false
  }

  predicate Stored(pc: Pc) { pc != Control(PStore) && pc != Control(RStore) }

  predicate HoldWas(past: seq<State>, from: nat, when: nat, to: bool) {
    from <= when < |past| && past[when].sh.hold == to
  }

  predicate CountPhase(pc: Pc) { (pc.Control? && (pc.x.NLock? || pc.x.NRead? || pc.x.NUnlock?)) || pc.Counted? }

  /** The number a count has read, if it has. */
  predicate CountWas(past: seq<State>, from: nat, when: nat, pc: Pc) {
    (pc.Counted? || (pc.Control? && pc.x.NUnlock?)) ==>
      from <= when < |past|
      && (if pc.Counted? then pc.n else pc.x.n) == past[when].sh.running + |past[when].sh.queue|
  }

  predicate ShutPhase(pc: Pc) {
    pc.Joining? || pc.Down? || (pc.Control? && (pc.x.SStore? || pc.x.SLock? || pc.x.SBroadcast? || pc.x.SUnlock?))
  }

  lemma ShutPhaseStep(sh: Shared, t: nat, pc: Pc, l: Ledger)
    requires ShutPhase(pc) && pc.Control?
    ensures var m := Step(sh, pc);
            ShutPhase(m.pc) && !m.pc.Down? && Booked(l, sh, Apply(sh, t, m.change)) == l
  {
  }

  lemma WaitPhaseStep(sh: Shared, t: nat, pc: Pc, l: Ledger)
    requires pc.Waiting?
    ensures var m := Step(sh, pc);
            && (m.pc.Waiting? || m.pc.Waited?) && m.pc.since == pc.since
            && Booked(l, sh, Apply(sh, t, m.change)) == l
  {
  }
}
