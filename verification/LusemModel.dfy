/** The lightweight semaphore (lusem) as a state machine: a signed counter in front of a kernel semaphore.

    A thread is an index into `threads`; its program counter also holds the C function's local variables.
    One event is one atomic access of one thread.  `Next` is total: an event that the thread cannot take
    (a call made inside a call, a kernel wait at value 0) leaves the state as it is, so every theorem below
    ranges over all finite schedules whatever. */
module LusemModel {
  import opened Sums
  import opened Trails

  /** Which entry point a wait came in by; timeout 0 sleeps without a deadline. */
  datatype Kind = TryOnly | Blocking(timeout: nat)

  datatype Pc =
    | Idle                                                // no call yet, or a signal call returned
    | Done(rc: int)                                       // a wait call returned rc
    | TryLoad(kind: Kind)                                 // lusem_try_wait: first load
    | TryCas(kind: Kind, seen: int)                        //   weak compare-exchange
    | SpinTop(timeout: nat, spin: int)                    // part_spin: loop test, then load or fetch-sub
    | SpinCas(timeout: nat, spin: int, seen: int)          //   strong compare-exchange
    | Asleep(timeout: nat)                                //   in the kernel wait
    | FixLoad                                             //   fix-up loop: load
    | FixTry                                              //   fix-up loop: kernel try-wait after a value >= 0
    | FixCas(seen: int)                                    //   fix-up loop: compare-exchange after a value < 0
    | SigAdd(count: int)                                  // lusem_signal_count: fetch-add
    | Post(left: int)                                     //   kernel posts still to be made

  datatype State = State(m: int, sem: nat, maxSpins: int, semMax: nat, threads: seq<Pc>)

  datatype Action =
    | CallTry
    | CallWait(timeout: nat)
    | CallSignal(count: int)
    | Go     // the thread's next atomic access
    | Fail   // the access fails for the environment's reasons: spurious weak CAS, deadline, signal

  datatype Event = Event(t: nat, act: Action)

  /** What lusem_init leaves behind: `initial` goes to the counter AND to the kernel semaphore. */
  function Init(initial: nat, maxSpins: int, semMax: nat, n: nat): State {
    State(initial, initial, maxSpins, semMax, seq(n, i => Idle))
  }

  predicate Ready(pc: Pc) {
    pc.Idle? || pc.Done?
  }

  /** What one atomic access can touch: the counter, the kernel value, the thread's own program counter. */
  datatype Cell = Cell(m: int, sem: nat, pc: Pc)

  /** Where a failed lusem_try_wait continues. */
  function TryFailed(kind: Kind, maxSpins: int): Pc {
    match kind
    case TryOnly => Done(-1)
    case Blocking(timeout) => SpinTop(timeout, maxSpins)
  }

  function Reload(m: int, kind: Kind, maxSpins: int): Pc {
    if m > 0 then TryCas(kind, m) else TryFailed(kind, maxSpins)
  }

  function ToRelease(seen: int, count: int): int {
    if -seen < count then -seen else count
  }

  function Call(pc: Pc, act: Action): Pc {
    if !Ready(pc) then pc else
    match act
    case CallTry => TryLoad(TryOnly)
    case CallWait(timeout) => TryLoad(Blocking(timeout))
    case CallSignal(count) => if count > 0 then SigAdd(count) else Idle
    case _ => pc
  }

  function Go(c: Cell, maxSpins: int, semMax: nat): Cell {
    match c.pc
    case Idle => c
    case Done(_) => c
    case TryLoad(kind) => c.(pc := Reload(c.m, kind, maxSpins))
    case TryCas(kind, seen) =>
      if c.m == seen then c.(m := seen - 1, pc := Done(0)) else c.(pc := Reload(c.m, kind, maxSpins))
    case SpinTop(timeout, spin) =>
      if spin - 1 >= 0 then
        c.(pc := if c.m > 0 then SpinCas(timeout, spin - 1, c.m) else SpinTop(timeout, spin - 1))
      else
        c.(m := c.m - 1, pc := if c.m > 0 then Done(0) else Asleep(timeout))
    case SpinCas(timeout, spin, seen) =>
      if c.m == seen then c.(m := seen - 1, pc := Done(0)) else c.(pc := SpinTop(timeout, spin))
    case Asleep(timeout) =>
      if c.sem > 0 then c.(sem := c.sem - 1, pc := Done(0)) else c
    case FixLoad => c.(pc := if c.m >= 0 then FixTry else FixCas(c.m))
    case FixTry =>
      if c.sem > 0 then c.(sem := c.sem - 1, pc := Done(0)) else c.(pc := FixLoad)
    case FixCas(seen) =>
      if c.m == seen then c.(m := seen + 1, pc := Done(-1)) else c.(pc := FixLoad)
    case SigAdd(count) =>
      var rel := ToRelease(c.m, count);
      c.(m := c.m + count, pc := if rel > 0 then Post(rel) else Idle)
    case Post(left) =>
      if c.sem >= semMax then c
      else c.(sem := c.sem + 1, pc := if left - 1 > 0 then Post(left - 1) else Idle)
  }

  function Fail(c: Cell, maxSpins: int): Cell {
    match c.pc
    case TryCas(kind, _) => c.(pc := Reload(c.m, kind, maxSpins))
    case Asleep(timeout) => if timeout != 0 then c.(pc := FixLoad) else c
    case _ => c
  }

  function Access(c: Cell, maxSpins: int, semMax: nat, act: Action): Cell {
    if act.Go? then Go(c, maxSpins, semMax)
    else if act.Fail? then Fail(c, maxSpins)
    else c.(pc := Call(c.pc, act))
  }

  function CellOf(s: State, t: nat): Cell
    requires t < |s.threads|
  {
    Cell(s.m, s.sem, s.threads[t])
  }

  function Next(s: State, e: Event): State {
    if e.t >= |s.threads| then s else
    var c := Access(CellOf(s, e.t), s.maxSpins, s.semMax, e.act);
    s.(m := c.m, sem := c.sem, threads := s.threads[e.t := c.pc])
  }

  function Run(s: State, es: seq<Event>): State {
    Fold(Next, s, es)
  }

  // ---------------------------------------------------------------- the invariant

  /** 1 for a thread past its fetch-sub (with an old value <= 0) that has not finished its call. */
  function Waits(pc: Pc): nat {
    if pc.Asleep? || pc.FixLoad? || pc.FixTry? || pc.FixCas? then 1 else 0
  }

  /** Kernel posts a signaller has announced on the counter and not yet made. */
  function Owes(pc: Pc): nat {
    if pc.Post? && pc.left > 0 then pc.left else 0
  }

  function W(s: State): nat { Sum(Waits, s.threads) }

  function R(s: State): nat { Sum(Owes, s.threads) }

  function Positive(x: int): nat { if x > 0 then x else 0 }

  /** The number of permits the semaphore holds, wherever they currently are. */
  function Value(s: State): nat { Positive(s.m) + s.sem + R(s) }

  predicate PcOk(pc: Pc) {
    && (pc.TryCas? ==> pc.seen > 0)
    && (pc.SpinCas? ==> pc.seen > 0)
    && (pc.FixCas? ==> pc.seen < 0)
    && (pc.SigAdd? ==> pc.count > 0)
    && (pc.Post? ==> pc.left > 0)
  }

  /** `s0` is the value the kernel semaphore was initialised with. */
  predicate Inv(s: State, s0: nat) {
    && (forall t :: 0 <= t < |s.threads| ==> PcOk(s.threads[t]))
    && W(s) + s0 == Positive(-s.m) + s.sem + R(s)
  }

  lemma {:induction false} InitInv(initial: nat, maxSpins: int, semMax: nat, n: nat)
    ensures Inv(Init(initial, maxSpins, semMax, n), initial)
    ensures Value(Init(initial, maxSpins, semMax, n)) == initial + initial
  {
    var s := Init(initial, maxSpins, semMax, n);
    SumZero(Waits, s.threads);
    SumZero(Owes, s.threads);
  }

  /** One access, seen from the cell it touches: the waiter it adds or removes, the sign of the counter and
      the permits in the kernel or owed to it move together. */
  lemma AccessBalance(c: Cell, maxSpins: int, semMax: nat, act: Action)
    requires PcOk(c.pc)
    ensures var c' := Access(c, maxSpins, semMax, act);
            && PcOk(c'.pc)
            && Waits(c'.pc) - Waits(c.pc)
               == Positive(-c'.m) - Positive(-c.m) + c'.sem - c.sem + Owes(c'.pc) - Owes(c.pc)
  {
  }

  /** Every atomic access of every thread keeps the counting identity. */
  lemma {:induction false} NextInv(s: State, s0: nat, e: Event)
    requires Inv(s, s0)
    ensures Inv(Next(s, e), s0)
  {
    if e.t < |s.threads| {
      AccessBalance(CellOf(s, e.t), s.maxSpins, s.semMax, e.act);
      SumUpdate(Waits, s.threads, e.t, Next(s, e).threads[e.t]);
      SumUpdate(Owes, s.threads, e.t, Next(s, e).threads[e.t]);
    }
  }

  lemma {:induction false} RunInv(s: State, s0: nat, es: seq<Event>)
    requires Inv(s, s0)
    ensures Inv(Run(s, es), s0)
    decreases |es|
  {
    if es != [] {
      NextInv(s, s0, es[0]);
      RunInv(Next(s, es[0]), s0, es[1..]);
    }
  }

  // ---------------------------------------------------------------- refinement of an atomic semaphore

  /** What an atomic counting semaphore would see. */
  datatype Label = Take | Add(count: nat) | Tau

  predicate InWait(pc: Pc) {
    !Ready(pc) && !pc.SigAdd? && !pc.Post?
  }

  /** Labels are read off the calls alone: a wait call returning 0, the fetch-add of a signal, the rest. */
  function LabelOf(s: State, e: Event): Label {
    if e.t >= |s.threads| then Tau
    else if InWait(s.threads[e.t]) && Next(s, e).threads[e.t] == Done(0) then Take
    else if s.threads[e.t].SigAdd? && e.act.Go? then Add(Positive(s.threads[e.t].count))
    else Tau
  }

  function Labels(s: State, es: seq<Event>): seq<Label>
    decreases |es|
  {
    if es == [] then [] else [LabelOf(s, es[0])] + Labels(Next(s, es[0]), es[1..])
  }

  datatype Outcome = Stuck | Holds(value: nat)

  /** The specification: an atomic counting semaphore.  Taking from an empty one is impossible. */
  function Atomic(value: nat, labels: seq<Label>): Outcome
    decreases |labels|
  {
    if labels == [] then Holds(value) else
    match labels[0]
    case Take => if value == 0 then Stuck else Atomic(value - 1, labels[1..])
    case Add(count) => Atomic(value + count, labels[1..])
    case Tau => Atomic(value, labels[1..])
  }

  lemma AccessValue(c: Cell, maxSpins: int, semMax: nat, act: Action)
    requires PcOk(c.pc)
    ensures var c' := Access(c, maxSpins, semMax, act);
            Positive(c'.m) + c'.sem + Owes(c'.pc) ==
              Positive(c.m) + c.sem + Owes(c.pc)
              - (if InWait(c.pc) && c'.pc == Done(0) then 1 else 0)
              + (if c.pc.SigAdd? && act.Go? then c.pc.count else 0)
  {
  }

  lemma {:induction false} NextRefines(s: State, s0: nat, e: Event)
    requires Inv(s, s0)
    ensures match LabelOf(s, e)
            case Take => Value(s) > 0 && Value(Next(s, e)) == Value(s) - 1
            case Add(count) => Value(Next(s, e)) == Value(s) + count
            case Tau => Value(Next(s, e)) == Value(s)
  {
    if e.t < |s.threads| {
      AccessValue(CellOf(s, e.t), s.maxSpins, s.semMax, e.act);
      SumUpdate(Owes, s.threads, e.t, Next(s, e).threads[e.t]);
    }
  }

  lemma AtomicCons(value: nat, l: Label, rest: seq<Label>)
    ensures Atomic(value, [l] + rest) == match l
                                         case Take => if value == 0 then Stuck else Atomic(value - 1, rest)
                                         case Add(count) => Atomic(value + count, rest)
                                         case Tau => Atomic(value, rest)
  {
    assert ([l] + rest)[1..] == rest;
  }

  /** Every run of the lusem, over every schedule, is a run of the atomic semaphore. */
  lemma {:induction false} RunRefines(s: State, s0: nat, es: seq<Event>)
    requires Inv(s, s0)
    ensures Atomic(Value(s), Labels(s, es)) == Holds(Value(Run(s, es)))
    decreases |es|
  {
    if es != [] {
      NextRefines(s, s0, es[0]);
      NextInv(s, s0, es[0]);
      RunRefines(Next(s, es[0]), s0, es[1..]);
      AtomicCons(Value(s), LabelOf(s, es[0]), Labels(Next(s, es[0]), es[1..]));
    }
  }
}
