/** The mutex/condition-variable thread pool (thpool) as a state machine: any number of workers and of client
    threads that add tasks, run one (thpool_worker_try_once), wait, count, pause, resume and shut down.

    One event is one lock, unlock, condition-variable action or atomic access of one thread, or a step of the
    code between them.  A signal wakes an arbitrary sleeper, and sleepers may wake by themselves. */
module ThPoolModel {
  import opened Options
  import opened Tasks
  import opened Trails

  const SIZE_MAX: nat := 0xFFFF_FFFF_FFFF_FFFF

  /** _thpool_worker, outside the handling of a task */
  datatype WorkerPc =
    | WTop           // wants the lock, top of the loop
    | WTest          // queue_count == 0 ?
    | WActive        // no task: running_count == 0 ?
    | WNotifyEmpty   //   signal notify_empty
    | WShutdown      //   shutdown ?
    | WExit          //   unlock and return
    | WExited
    | WSleep         //   about to wait on notify
    | WAsleep
    | WWoken         //   wants the lock back
    | WHold          // a task: hold ?
    | WHoldUnlock
    | WHoldSleep     //   sleep(1)

  /** The handling of one task, by a worker or by thpool_worker_try_once */
  datatype TaskPc =
    | Incr                        // running_count++
    | Pop                         // take the head of the queue
    | PopUnlock(k: nat, task: Task)
    | Exec(k: nat, task: Task)    // k-th task ever started
    | Decr                        // running_count--

  /** thpool_add_task is thpool_add_task_try with max_try 0 */
  datatype AddPc =
    | ALock(task: Task, tries: int)
    | ATest(task: Task, tries: int)
    | AFull(task: Task, tries: int)
    | AInsert(task: Task)
    | ASignal
    | AUnlock

  /** thpool_wait */
  datatype WaitPc = CLock | CTest | CSleep | CAsleep | CWoken | CUnlock | CDone(seen: nat)

  /** The rest: try_once before it has a task, pause, resume, shutdown, total_tasks */
  datatype ControlPc =
    | TLock | TTest | TEmpty
    | PStore
    | RStore | RLock | RSignal | RUnlock
    | SStore | SLock | SBroadcast | SUnlock
    | NLock | NRead | NUnlock(n: nat)

  datatype Pc =
    | Work(w: WorkerPc)
    | Run(worker: bool, r: TaskPc)
    | Adding(a: AddPc)
    | Waiting(since: nat, c: WaitPc)    // `since` tasks had been accepted when the call was made
    | Control(x: ControlPc)
    | Joining(i: nat)                   // thpool_shutdown joining worker i
    | Idle(rc: int)                     // between calls
    | Waited(since: nat, seen: nat)     // thpool_wait returned; `seen` tasks accepted at its last check
    | Counted(n: nat)                   // thpool_total_tasks returned n
    | Down                              // thpool_shutdown returned

  /** The fields of `struct thpool`, with the ring buffer as the FIFO it stands for, then history. */
  datatype Shared = Shared(
    size: nat, shutdown: bool, hold: bool, running: nat, queue: seq<Task>, lock: Option<nat>,
    accepted: seq<Task>,     // every task ever inserted, in order
    started: seq<Task>,      // every task ever taken from the queue, in order
    owner: seq<nat>,         // which thread took it
    completed: set<nat>,     // which of them have run to their end
    retired: nat,            // decrements of running_count so far
    late: bool,              // a task was inserted after the shutdown store
    told: bool,              // the shutdown broadcast has happened
    pausedStarts: nat)       // tasks taken by workers since hold was last switched on

  datatype State = State(sh: Shared, workers: nat, threads: seq<Pc>)

  datatype Op =
    | TryOnce | Add(task: Task, maxTry: int) | Wait | Pause | Resume | Shutdown | Total

  datatype Action =
    | Call(op: Op)
    | Go(wake: nat)     // the thread's next step; a signal wakes thread `wake`
    | Spurious

  datatype Event = Event(t: nat, act: Action)

  function Init(workers: nat, clients: nat, size: nat): State {
    State(Shared(size, false, false, 0, [], None, [], [], [], {}, 0, false, false, 0),
          workers, seq(workers + clients, i => if i < workers then Work(WTop) else Idle(0)))
  }

  predicate Ready(pc: Pc) { pc.Idle? || pc.Waited? || pc.Counted? || pc.Down? }

  predicate IsWorker(pc: Pc) { pc.Work? || (pc.Run? && pc.worker) }

  /** Program points inside a critical section. */
  predicate Holds(pc: Pc) {
    match pc
    case Work(w) => !(w.WTop? || w.WExited? || w.WAsleep? || w.WWoken? || w.WHoldSleep?)
    case Run(_, r) => r.Incr? || r.Pop? || r.PopUnlock?
    case Adding(a) => !a.ALock?
    case Waiting(_, c) => !(c.CLock? || c.CAsleep? || c.CWoken?)
    case Control(x) =>
      x.TTest? || x.TEmpty? || x.RSignal? || x.RUnlock? || x.SBroadcast? || x.SUnlock? || x.NRead? || x.NUnlock?
    case _ => false
  }

  /** Where a call starts. */
  function Start(sh: Shared, op: Op): Pc {
    match op
    case TryOnce => Control(TLock)
    case Add(task, maxTry) => if maxTry < 0 then Idle(-1) else Adding(ALock(task, maxTry))
    case Wait => Waiting(|sh.accepted|, CLock)
    case Pause => Control(PStore)
    case Resume => Control(RStore)
    case Shutdown => Control(SStore)
    case Total => Control(NLock)
  }

  /** The ways in which a step can change the pool. */
  datatype Change =
    | Keep | Acquire | Release | Enqueue(task: Task) | Dequeue(worker: bool) | Raise | Lower | Finish(k: nat)
    | HoldOn | HoldOff | Stop | Tell

  function Apply(sh: Shared, t: nat, c: Change): Shared {
    match c
    case Keep => sh
    case Acquire => sh.(lock := Some(t))
    case Release => sh.(lock := None)
    case Enqueue(task) =>
      sh.(queue := sh.queue + [task], accepted := sh.accepted + [task], late := sh.late || sh.shutdown)
    case Dequeue(worker) =>
      if sh.queue == [] then sh else
      sh.(queue := sh.queue[1..], started := sh.started + [sh.queue[0]], owner := sh.owner + [t],
          pausedStarts := sh.pausedStarts + (if worker && sh.hold then 1 else 0))
    case Raise => sh.(running := sh.running + 1)
    case Lower =>
      sh.(running := if sh.running == 0 then SIZE_MAX else sh.running - 1, retired := sh.retired + 1)
    case Finish(k) => sh.(completed := sh.completed + {k})
    case HoldOn => sh.(hold := true, pausedStarts := if sh.hold then sh.pausedStarts else 0)
    case HoldOff => sh.(hold := false)
    case Stop => sh.(shutdown := true)
    case Tell => sh.(told := true)
  }

  /** A thread's step: the change it makes and where it goes next. */
  datatype Move = Move(change: Change, pc: Pc)

  function Lock(sh: Shared, pc: Pc, next: Pc): Move {
    if sh.lock == None then Move(Acquire, next) else Move(Keep, pc)
  }

  function WorkerStep(sh: Shared, w: WorkerPc): Move {
    match w
    case WTop => Lock(sh, Work(w), Work(WTest))
    case WTest => Move(Keep, Work(if sh.queue == [] then WActive else WHold))
    case WActive => Move(Keep, Work(if sh.running == 0 then WNotifyEmpty else WShutdown))
    case WNotifyEmpty => Move(Keep, Work(WShutdown))
    case WShutdown => Move(Keep, Work(if sh.shutdown then WExit else WSleep))
    case WExit => Move(Release, Work(WExited))
    case WExited => Move(Keep, Work(w))
    case WSleep => Move(Release, Work(WAsleep))
    case WAsleep => Move(Keep, Work(w))
    case WWoken => Lock(sh, Work(w), Work(WTest))
    case WHold => Move(Keep, if sh.hold then Work(WHoldUnlock) else Run(true, Incr))
    case WHoldUnlock => Move(Release, Work(WHoldSleep))
    case WHoldSleep => Move(Keep, Work(WTop))
  }

  function TaskStep(sh: Shared, worker: bool, r: TaskPc): Move {
    match r
    case Incr => Move(Raise, Run(worker, Pop))
    case Pop =>
      if sh.queue == [] then Move(Keep, Run(worker, r))
      else Move(Dequeue(worker), Run(worker, PopUnlock(|sh.started|, sh.queue[0])))
    case PopUnlock(k, task) => Move(Release, Run(worker, Exec(k, task)))
    case Exec(k, _) => Move(Finish(k), Run(worker, Decr))
    case Decr => Move(Lower, if worker then Work(WTop) else Idle(0))
  }

  function AddStep(sh: Shared, a: AddPc): Move {
    match a
    case ALock(task, tries) => Lock(sh, Adding(a), Adding(ATest(task, tries)))
    case ATest(task, tries) =>
      Move(Keep, Adding(if |sh.queue| == sh.size then AFull(task, tries) else AInsert(task)))
    case AFull(task, tries) =>
      Move(Release, if tries - 1 < 0 then Idle(-1) else Adding(ALock(task, tries - 1)))
    case AInsert(task) => Move(Enqueue(task), Adding(ASignal))
    case ASignal => Move(Keep, Adding(AUnlock))
    case AUnlock => Move(Release, Idle(0))
  }

  function WaitStep(sh: Shared, since: nat, c: WaitPc): Move {
    match c
    case CLock => Lock(sh, Waiting(since, c), Waiting(since, CTest))
    case CTest =>
      Move(Keep, Waiting(since, if sh.queue == [] && sh.running == 0 then CDone(|sh.accepted|) else CSleep))
    case CSleep => Move(Release, Waiting(since, CAsleep))
    case CAsleep => Move(Keep, Waiting(since, c))
    case CWoken => Lock(sh, Waiting(since, c), Waiting(since, CUnlock))
    case CUnlock => Move(Release, Waiting(since, CLock))
    case CDone(seen) => Move(Release, Waited(since, seen))
  }

  function ControlStep(sh: Shared, x: ControlPc): Move {
    match x
    case TLock => Lock(sh, Control(x), Control(TTest))
    case TTest => Move(Keep, if sh.queue == [] then Control(TEmpty) else Run(false, Incr))
    case TEmpty => Move(Release, Idle(-1))
    case PStore => Move(HoldOn, Idle(0))
    case RStore => Move(HoldOff, Control(RLock))
    case RLock => Lock(sh, Control(x), Control(RSignal))
    case RSignal => Move(Keep, Control(RUnlock))
    case RUnlock => Move(Release, Idle(0))
    case SStore => Move(Stop, Control(SLock))
    case SLock => Lock(sh, Control(x), Control(SBroadcast))
    case SBroadcast => Move(Tell, Control(SUnlock))
    case SUnlock => Move(Release, Joining(0))
    case NLock => Lock(sh, Control(x), Control(NRead))
    case NRead => Move(Keep, Control(NUnlock(sh.running + |sh.queue|)))
    case NUnlock(n) => Move(Release, Counted(n))
  }

  function Step(sh: Shared, pc: Pc): Move {
    match pc
    case Work(w) => WorkerStep(sh, w)
    case Run(worker, r) => TaskStep(sh, worker, r)
    case Adding(a) => AddStep(sh, a)
    case Waiting(since, c) => WaitStep(sh, since, c)
    case Control(x) => ControlStep(sh, x)
    case _ => Move(Keep, pc)
  }

  // ---------------------------------------------------------------- condition variables

  predicate OnNotify(pc: Pc) { pc == Work(WAsleep) }

  predicate OnEmpty(pc: Pc) { pc.Waiting? && pc.c.CAsleep? }

  function Wake(pc: Pc): Pc {
    if OnNotify(pc) then Work(WWoken) else if OnEmpty(pc) then Waiting(pc.since, CWoken) else pc
  }

  /** Program points whose step signals `notify`, or `notify_empty`. */
  predicate SignalsNotify(pc: Pc) { pc == Adding(ASignal) || pc == Control(RSignal) }

  predicate SignalsEmpty(pc: Pc) { pc == Work(WNotifyEmpty) }

  predicate Broadcasts(pc: Pc) { pc == Control(SBroadcast) }

  /** A signal wakes some sleeper `w`; it wakes nobody only when nobody sleeps there. */
  predicate MayWake(threads: seq<Pc>, pc: Pc, w: nat) {
    && (SignalsNotify(pc) ==>
          (w < |threads| && OnNotify(threads[w])) || forall i :: 0 <= i < |threads| ==> !OnNotify(threads[i]))
    && (SignalsEmpty(pc) ==>
          (w < |threads| && OnEmpty(threads[w])) || forall i :: 0 <= i < |threads| ==> !OnEmpty(threads[i]))
  }

  function WakeAll(threads: seq<Pc>): (r: seq<Pc>)
    ensures |r| == |threads|
    ensures forall i :: 0 <= i < |r| ==> r[i] == if OnNotify(threads[i]) then Work(WWoken) else threads[i]
  {
    seq(|threads|, i requires 0 <= i < |threads| => if OnNotify(threads[i]) then Work(WWoken) else threads[i])
  }

  /** The other threads after the step of a thread at `pc`. */
  function Wakes(threads: seq<Pc>, pc: Pc, w: nat): (r: seq<Pc>)
    ensures |r| == |threads|
    ensures forall i :: 0 <= i < |r| ==> r[i] == threads[i] || r[i] == Wake(threads[i])
  {
    if Broadcasts(pc) then WakeAll(threads)
    else if w < |threads| && ((SignalsNotify(pc) && OnNotify(threads[w])) || (SignalsEmpty(pc) && OnEmpty(threads[w])))
    then threads[w := Wake(threads[w])]
    else threads
  }

  function GoStep(s: State, t: nat, w: nat): State
    requires t < |s.threads|
  {
    var pc := s.threads[t];
    if pc.Joining? then
      if pc.i >= s.workers then s.(threads := s.threads[t := Down])
      else if pc.i < |s.threads| && s.threads[pc.i] == Work(WExited) then
        s.(threads := s.threads[t := Joining(pc.i + 1)])
      else s
    else if !MayWake(s.threads, pc, w) then s
    else
      var m := Step(s.sh, pc);
      s.(sh := Apply(s.sh, t, m.change), threads := Wakes(s.threads, pc, w)[t := m.pc])
  }

  function Next(s: State, e: Event): State {
    if e.t >= |s.threads| then s else
    var pc := s.threads[e.t];
    match e.act
    case Call(op) => if Ready(pc) then s.(threads := s.threads[e.t := Start(s.sh, op)]) else s
    case Spurious => s.(threads := s.threads[e.t := Wake(pc)])
    case Go(w) => GoStep(s, e.t, w)
  }

  function Schedule(s: State, es: seq<Event>): State {
    Fold(Next, s, es)
  }
}
