/** The cyclic barrier (pthread_barrier) as a state machine over any number of threads.

    Everything the functions read or write is under the barrier's mutex, so one event is one lock, unlock or
    condition-variable action together with the code of its critical section.  The condition variable may wake
    a sleeper at any time.  `ticket`, `rounds` and `current` are history: the program never looks at them. */
module BarrierModel {
  import opened Options
  import opened Trails

  /** `unsigned` wraps here. */
  const MODULUS: nat := 0x1_0000_0000

  const SERIAL_THREAD: int := -1

  datatype Pc =
    | Outside
    | Entering                               // wants the mutex to arrive
    | Arriving                               // holds it, about to decrement `left`
    | Sleeping(round: nat, ticket: nat)      // in pthread_cond_wait
    | Woken(round: nat, ticket: nat)         // wants the mutex back
    | Checking(round: nat, ticket: nat)      // holds it, about to compare rounds
    | Leaving(rc: int, ticket: nat)          // holds it, about to unlock
    | Returned(rc: int, ticket: nat)

  datatype State = State(
    count: nat, left: nat, round: nat, mutex: Option<nat>, threads: seq<Pc>,
    rounds: seq<seq<nat>>,   // the arrivals of every completed round, in order
    current: seq<nat>)       // the arrivals of the round in progress

  datatype Action = Enter | Go | Spurious

  datatype Event = Event(t: nat, act: Action)

  function Init(count: nat, n: nat): State {
    State(count, count, 0, None, seq(n, i => Outside), [], [])
  }

  predicate Ready(pc: Pc) { pc.Outside? || pc.Returned? }

  predicate Holds(pc: Pc) { pc.Arriving? || pc.Checking? || pc.Leaving? }

  /** Inside the barrier, with a saved round number. */
  predicate Inside(pc: Pc) { pc.Sleeping? || pc.Woken? || pc.Checking? }

  function Wake(pc: Pc): Pc {
    if pc.Sleeping? then Woken(pc.round, pc.ticket) else pc
  }

  /** pthread_cond_broadcast */
  function WakeAll(threads: seq<Pc>): (r: seq<Pc>)
    ensures |r| == |threads| && forall i :: 0 <= i < |r| ==> r[i] == Wake(threads[i])
  {
    seq(|threads|, i requires 0 <= i < |threads| => Wake(threads[i]))
  }

  function To(s: State, t: nat, mutex: Option<nat>, pc: Pc): State
    requires t < |s.threads|
  {
    s.(mutex := mutex, threads := s.threads[t := pc])
  }

  /** The critical section of an arrival; `unsigned` arithmetic throughout. */
  function Arrive(s: State, t: nat): State
    requires t < |s.threads|
  {
    var left := (s.left + MODULUS - 1) % MODULUS;
    if left != 0 then
      To(s, t, None, Sleeping(s.round, |s.rounds|)).(left := left, current := s.current + [t])
    else
      s.(round := (s.round + 1) % MODULUS,
         left := s.count,
         threads := WakeAll(s.threads)[t := Leaving(SERIAL_THREAD, |s.rounds|)],
         rounds := s.rounds + [s.current + [t]],
         current := [])
  }

  function Go(s: State, t: nat): State
    requires t < |s.threads|
  {
    match s.threads[t]
    case Outside => s
    case Entering => if s.mutex == None then To(s, t, Some(t), Arriving) else s
    case Arriving => Arrive(s, t)
    case Sleeping(_, _) => s
    case Woken(round, ticket) => if s.mutex == None then To(s, t, Some(t), Checking(round, ticket)) else s
    case Checking(round, ticket) =>
      if round == s.round then To(s, t, None, Sleeping(round, ticket)) else To(s, t, s.mutex, Leaving(0, ticket))
    case Leaving(rc, ticket) => To(s, t, None, Returned(rc, ticket))
    case Returned(_, _) => s
  }

  function Next(s: State, e: Event): State {
    if e.t >= |s.threads| then s else
    var pc := s.threads[e.t];
    match e.act
    case Enter => if Ready(pc) then To(s, e.t, s.mutex, Entering) else s
    case Spurious => To(s, e.t, s.mutex, Wake(pc))
    case Go => Go(s, e.t)
  }

  function Run(s: State, es: seq<Event>): State {
    Fold(Next, s, es)
  }

  // ---------------------------------------------------------------- the invariant

  predicate Distinct(a: seq<nat>) {
    forall i, j :: 0 <= i < j < |a| ==> a[i] != a[j]
  }

  predicate Mutual(s: State) {
    && (forall t :: 0 <= t < |s.threads| ==> (Holds(s.threads[t]) <==> s.mutex == Some(t)))
    && (s.mutex.Some? ==> s.mutex.value < |s.threads|)
  }

  /** `left` counts down with the arrivals; `round` is the number of completed rounds, as far as it shows. */
  predicate Counts(s: State) {
    && 1 <= s.left <= s.count < MODULUS
    && |s.current| + s.left == s.count
    && s.round == |s.rounds| % MODULUS
  }

  predicate Groups(s: State) {
    && Distinct(s.current)
    && (forall u :: u in s.current ==> u < |s.threads|)
    && (forall k :: 0 <= k < |s.rounds| ==> |s.rounds[k]| == s.count && Distinct(s.rounds[k]))
    && (forall k :: 0 <= k < |s.rounds| ==> forall u :: u in s.rounds[k] ==> u < |s.threads|)
  }

  /** The thread whose arrival completed round k. */
  function Closer(s: State, k: nat): nat
    requires Groups(s) && k < |s.rounds| && s.count > 0
  {
    s.rounds[k][s.count - 1]
  }

  predicate PcOk(s: State, t: nat)
    requires t < |s.threads| && Groups(s) && s.count > 0
  {
    var pc := s.threads[t];
    && (t in s.current <==> Inside(pc) && pc.ticket == |s.rounds|)
    && (Inside(pc) ==>
          && pc.ticket <= |s.rounds| && pc.round == pc.ticket % MODULUS
          && (pc.ticket < |s.rounds| ==> t in s.rounds[pc.ticket] && t != Closer(s, pc.ticket)))
    && (pc.Sleeping? ==> pc.round == s.round)
    && (pc.Leaving? || pc.Returned? ==>
          && pc.ticket < |s.rounds| && t in s.rounds[pc.ticket]
          && pc.rc == (if t == Closer(s, pc.ticket) then SERIAL_THREAD else 0))
  }

  predicate Inv(s: State) {
    && Mutual(s) && Counts(s) && Groups(s)
    && forall t :: 0 <= t < |s.threads| ==> PcOk(s, t)
  }

  lemma InitInv(count: nat, n: nat)
    requires 1 <= count < MODULUS
    ensures Inv(Init(count, n))
  {
  }

  lemma {:induction false} DistinctSnoc(a: seq<nat>, x: nat)
    requires Distinct(a) && x !in a
    ensures Distinct(a + [x])
  {
  }

  /** An arrival that is not the last of its round. */
  lemma {:induction false} ArriveSleeps(s: State, t: nat)
    requires Inv(s) && t < |s.threads| && s.threads[t].Arriving? && s.left > 1
    ensures var r := Arrive(s, t);
            && Inv(r) && r.left == s.left - 1 && r.mutex == None
            && r.round == s.round && r.rounds == s.rounds && r.current == s.current + [t]
            && r.threads == s.threads[t := Sleeping(s.round, |s.rounds|)]
  {
    var r := Arrive(s, t);
    assert (s.left + MODULUS - 1) % MODULUS == s.left - 1;
    assert PcOk(s, t);
    DistinctSnoc(s.current, t);
    forall u | 0 <= u < |r.threads| ensures PcOk(r, u) {
      assert PcOk(s, u);
    }
  }

  /** The arrival that completes a round. */
  lemma {:induction false} ArriveOpens(s: State, t: nat)
    requires Inv(s) && t < |s.threads| && s.threads[t].Arriving? && s.left == 1
    ensures var r := Arrive(s, t);
            && Inv(r) && r.left == s.count && r.round != s.round && r.mutex == s.mutex
            && r.rounds == s.rounds + [s.current + [t]] && |s.current + [t]| == s.count && Distinct(s.current + [t])
            && r.current == [] && r.threads[t] == Leaving(SERIAL_THREAD, |s.rounds|)
            && forall u :: 0 <= u < |s.threads| && u != t ==> r.threads[u] == Wake(s.threads[u])
  {
    var r := Arrive(s, t);
    var k := |s.rounds|;
    assert (s.left + MODULUS - 1) % MODULUS == 0;
    assert PcOk(s, t);
    DistinctSnoc(s.current, t);
    assert r.rounds[k] == s.current + [t];
    assert forall j :: 0 <= j < k ==> r.rounds[j] == s.rounds[j];
    assert Groups(r);
    forall u | 0 <= u < |r.threads| ensures PcOk(r, u) {
      assert PcOk(s, u);
      assert u in r.rounds[k] <==> u == t || u in s.current;
    }
  }

  /** A step that moves only thread t and the mutex. */
  lemma {:induction false} LocalStep(s: State, t: nat, mutex: Option<nat>, pc: Pc)
    requires Inv(s) && t < |s.threads|
    requires var r := To(s, t, mutex, pc); Mutual(r) && PcOk(r, t)
    ensures Inv(To(s, t, mutex, pc))
  {
    var r := To(s, t, mutex, pc);
    forall u | 0 <= u < |r.threads| ensures PcOk(r, u) {
      assert PcOk(s, u);
    }
  }

  /** Every step of every thread keeps the invariant, whatever the number of threads. */
  lemma {:induction false} NextInv(s: State, e: Event)
    requires Inv(s)
    ensures Inv(Next(s, e))
  {
    var t, r := e.t, Next(s, e);
    if t < |s.threads| && r != s {
      if e.act.Go? && s.threads[t].Arriving? {
        if s.left == 1 { ArriveOpens(s, t); } else { ArriveSleeps(s, t); }
      } else {
        assert PcOk(s, t);
        assert r == To(s, t, r.mutex, r.threads[t]);
        LocalStep(s, t, r.mutex, r.threads[t]);
      }
    }
  }

  lemma {:induction false} RunInv(s: State, es: seq<Event>)
    requires Inv(s)
    ensures Inv(Run(s, es))
    decreases |es|
  {
    if es != [] {
      NextInv(s, es[0]);
      RunInv(Next(s, es[0]), es[1..]);
    }
  }
}
