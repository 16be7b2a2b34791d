/** The thread pool over a lock-free queue (lfthpool) as a state machine.  The queue itself is an atomic
    bounded FIFO of task nodes; every node is a heap object that is allocated, run and freed by hand.

    `fault` records a use of a freed node or a second free; the theorems show that it is never set. */
module LfPoolModel {
  import opened Tasks
  import opened Trails

  /** _lfthpool_worker, outside the handling of a task */
  datatype WorkPc =
    | VShut         // shutdown ?
    | VHold         // hold ?
    | VHoldSleep    //   sleep(1)
    | VDeq          // dequeue
    | VNap          //   nothing there: usleep(1)
    | VExited

  /** The handling of one node.  A worker lowers running_count and then frees; thpool_worker_try_once frees
      and then lowers. */
  datatype RunPc = Incr | Exec | Decr | Free

  /** lfthpool_add_task and lfthpool_add_task_try */
  datatype AddPc = AAlloc(task: Task) | AEnq(n: nat) | ANap(n: nat) | AFree(n: nat, rc: int)

  /** lfthpool_wait; `mark` nodes had been enqueued when the queue was seen empty */
  datatype WaitPc = LActive | LLen | LCheck(mark: nat) | LNap

  datatype ControlPc = TDeq | PStore | RStore | SStore(destroy: bool) | DDelete

  datatype Pc =
    | Work(w: WorkPc)
    | Run(worker: bool, n: nat, r: RunPc)
    | Adding(once: bool, tries: int, a: AddPc)    // once: lfthpool_add_task
    | Waiting(since: nat, c: WaitPc)
    | Control(x: ControlPc)
    | Joining(i: nat, destroy: bool)
    | Idle(rc: int)
    | Waited(since: nat, mark: nat)
    | Down
    | Destroyed

  datatype Node = Node(task: Task, live: bool, runs: nat)

  datatype Shared = Shared(
    cap: nat, shutdown: bool, hold: bool, running: nat, queue: seq<nat>, nodes: seq<Node>,
    deleted: bool,
    fault: bool,
    enqueued: seq<nat>,     // history: every node ever enqueued, in order
    dequeued: seq<nat>,     // history: every node ever dequeued, in order
    heldTakes: seq<nat>)    // history: nodes each thread dequeued as a worker since hold was last switched on

  datatype State = State(sh: Shared, workers: nat, threads: seq<Pc>)

  datatype Op =
    | TryOnce | Add(task: Task) | AddTry(task: Task, maxTry: int) | Wait | Pause | Resume | Shutdown | Destroy

  /** lfthpool_add_task (`once`) or lfthpool_add_task_try. */
  function AddOp(once: bool, task: Task, maxTry: int): Op {
    if once then Add(task) else AddTry(task, maxTry)
  }

  /** What the environment decides: malloc may fail, and enqueue may fail for a reason other than fullness. */
  datatype Luck = Fine | NoMemory | QueueError(code: int)

  datatype Action = Call(op: Op) | Go(luck: Luck)

  datatype Event = Event(t: nat, act: Action)

  function Init(workers: nat, clients: nat, cap: nat): State {
    State(Shared(cap, false, false, 0, [], [], false, false, [], [], seq(workers + clients, i => 0)),
          workers, seq(workers + clients, i => if i < workers then Work(VShut) else Idle(0)))
  }

  predicate Ready(pc: Pc) { pc.Idle? || pc.Waited? || pc.Down? }

  function Start(sh: Shared, op: Op): Pc {
    match op
    case TryOnce => Control(TDeq)
    case Add(task) => Adding(true, 0, AAlloc(task))
    case AddTry(task, maxTry) => Adding(false, maxTry, AAlloc(task))
    case Wait => Waiting(|sh.enqueued|, LActive)
    case Pause => Control(PStore)
    case Resume => Control(RStore)
    case Shutdown => Control(SStore(false))
    case Destroy => Control(SStore(true))
  }

  datatype Change =
    | Keep | Alloc(task: Task) | Enqueue(n: nat) | Dequeue(worker: bool) | Raise | Lower | Use(n: nat)
    | Release(n: nat) | HoldOn | HoldOff | Stop | Delete

  /** free(node) */
  function FreeNode(sh: Shared, n: nat): Shared {
    if n < |sh.nodes| && sh.nodes[n].live then sh.(nodes := sh.nodes[n := sh.nodes[n].(live := false)])
    else sh.(fault := true)
  }

  /** free applied to every node still in the queue */
  function FreeAll(sh: Shared, q: seq<nat>): Shared
    decreases |q|
  {
    if q == [] then sh else FreeAll(FreeNode(sh, q[0]), q[1..])
  }

  function Apply(sh: Shared, t: nat, c: Change): Shared {
    match c
    case Keep => sh
    case Alloc(task) => sh.(nodes := sh.nodes + [Node(task, true, 0)])
    case Enqueue(n) => sh.(queue := sh.queue + [n], enqueued := sh.enqueued + [n])
    case Dequeue(worker) =>
      if sh.queue == [] then sh else
      sh.(queue := sh.queue[1..], dequeued := sh.dequeued + [sh.queue[0]],
          heldTakes := if worker && sh.hold && t < |sh.heldTakes| then sh.heldTakes[t := sh.heldTakes[t] + 1]
                       else sh.heldTakes)
    case Raise => sh.(running := sh.running + 1)
    case Lower => sh.(running := if sh.running == 0 then 0xFFFF_FFFF_FFFF_FFFF else sh.running - 1)
    case Use(n) =>
      if n < |sh.nodes| && sh.nodes[n].live then
        sh.(nodes := sh.nodes[n := sh.nodes[n].(runs := sh.nodes[n].runs + 1)])
      else sh.(fault := true)
    case Release(n) => FreeNode(sh, n)
    case HoldOn => sh.(hold := true, heldTakes := if sh.hold then sh.heldTakes else seq(|sh.heldTakes|, i => 0))
    case HoldOff => sh.(hold := false)
    case Stop => sh.(shutdown := true)
    case Delete => FreeAll(sh, sh.queue).(queue := [], deleted := true)
  }

  datatype Move = Move(change: Change, pc: Pc)

  function WorkStep(sh: Shared, w: WorkPc): Move {
    match w
    case VShut => Move(Keep, Work(if sh.shutdown then VExited else VHold))
    case VHold => Move(Keep, Work(if sh.hold then VHoldSleep else VDeq))
    case VHoldSleep => Move(Keep, Work(VShut))
    case VDeq => if sh.queue == [] then Move(Keep, Work(VNap)) else Move(Dequeue(true), Run(true, sh.queue[0], Incr))
    case VNap => Move(Keep, Work(VShut))
    case VExited => Move(Keep, Work(VExited))
  }

  function RunStep(worker: bool, n: nat, r: RunPc): Move {
    match r
    case Incr => Move(Raise, Run(worker, n, Exec))
    case Exec => Move(Use(n), Run(worker, n, if worker then Decr else Free))
    case Decr => Move(Lower, if worker then Run(worker, n, Free) else Idle(0))
    case Free => Move(Release(n), if worker then Work(VShut) else Run(worker, n, Decr))
  }

  function AddStep(sh: Shared, once: bool, tries: int, a: AddPc, luck: Luck): Move {
    match a
    case AAlloc(task) =>
      if luck.NoMemory? then Move(Keep, Idle(-1)) else Move(Alloc(task), Adding(once, tries, AEnq(|sh.nodes|)))
    case AEnq(n) =>
      if luck.QueueError? then Move(Keep, Adding(once, tries, AFree(n, if once then -1 else luck.code)))
      else if |sh.queue| < sh.cap then Move(Enqueue(n), Idle(0))
      else if once || tries < 0 then Move(Keep, Adding(once, tries, AFree(n, -1)))
      else Move(Keep, Adding(once, tries, ANap(n)))
    case ANap(n) => Move(Keep, Adding(once, tries - 1, AEnq(n)))
    case AFree(n, rc) => Move(Release(n), Idle(rc))
  }

  function WaitStep(sh: Shared, since: nat, c: WaitPc): Move {
    match c
    case LActive => Move(Keep, Waiting(since, if sh.running > 0 then LNap else LLen))
    case LLen => Move(Keep, Waiting(since, if |sh.queue| > 0 then LNap else LCheck(|sh.enqueued|)))
    case LCheck(mark) => Move(Keep, if sh.running > 0 then Waiting(since, LNap) else Waited(since, mark))
    case LNap => Move(Keep, Waiting(since, LActive))
  }

  function ControlStep(sh: Shared, x: ControlPc): Move {
    match x
    case TDeq =>
      if sh.queue == [] then Move(Keep, Idle(-1)) else Move(Dequeue(false), Run(false, sh.queue[0], Incr))
    case PStore => Move(HoldOn, Idle(0))
    case RStore => Move(HoldOff, Idle(0))
    case SStore(destroy) => Move(Stop, Joining(0, destroy))
    case DDelete => Move(Delete, Destroyed)
  }

  function Step(sh: Shared, pc: Pc, luck: Luck): Move {
    match pc
    case Work(w) => WorkStep(sh, w)
    case Run(worker, n, r) => RunStep(worker, n, r)
    case Adding(once, tries, a) => AddStep(sh, once, tries, a, luck)
    case Waiting(since, c) => WaitStep(sh, since, c)
    case Control(x) => ControlStep(sh, x)
    case _ => Move(Keep, pc)
  }

  /** pthread_join of worker i, one after the other; then destroy goes on to the queue. */
  function JoinStep(s: State, i: nat, destroy: bool): Pc {
    if i >= s.workers then (if destroy then Control(DDelete) else Down)
    else if i < |s.threads| && s.threads[i] == Work(VExited) then Joining(i + 1, destroy)
    else Joining(i, destroy)
  }

  function GoStep(s: State, t: nat, luck: Luck): State
    requires t < |s.threads|
  {
    var pc := s.threads[t];
    if pc.Joining? then s.(threads := s.threads[t := JoinStep(s, pc.i, pc.destroy)])
    else
      var m := Step(s.sh, pc, luck);
      s.(sh := Apply(s.sh, t, m.change), threads := s.threads[t := m.pc])
  }

  /** Nothing is modelled after the pool has been freed. */
  function Next(s: State, e: Event): State {
    if e.t >= |s.threads| || s.sh.deleted then s else
    match e.act
    case Call(op) =>
      if Ready(s.threads[e.t]) then s.(threads := s.threads[e.t := Start(s.sh, op)]) else s
    case Go(luck) => GoStep(s, e.t, luck)
  }

  function Schedule(s: State, es: seq<Event>): State {
    Fold(Next, s, es)
  }
}
