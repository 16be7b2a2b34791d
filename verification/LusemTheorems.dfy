/** What the counting identity of LusemModel is worth: bounds on the counter, no stranded permit, a fix-up
    loop that cannot wedge, the exact supply law, and signal_count(n) as n single signals. */
module LusemTheorems {
  import opened Sums
  import opened LusemModel

  // ---------------------------------------------------------------- bookkeeping over schedules

  lemma {:induction false} RunAppend(s: State, a: seq<Event>, b: seq<Event>)
    ensures Run(s, a + b) == Run(Run(s, a), b)
    ensures Labels(s, a + b) == Labels(s, a) + Labels(Run(s, a), b)
    decreases |a|
  {
    if a == [] {
      assert a + b == b;
    } else {
      assert (a + b)[0] == a[0] && (a + b)[1..] == a[1..] + b;
      RunAppend(Next(s, a[0]), a[1..], b);
    }
  }

  function Takes(labels: seq<Label>): nat {
    if labels == [] then 0 else (if labels[0].Take? then 1 else 0) + Takes(labels[1..])
  }

  function Adds(labels: seq<Label>): nat {
    if labels == [] then 0 else (if labels[0].Add? then labels[0].count else 0) + Adds(labels[1..])
  }

  lemma {:induction false} TakesAppend(a: seq<Label>, b: seq<Label>)
    ensures Takes(a + b) == Takes(a) + Takes(b)
    ensures Adds(a + b) == Adds(a) + Adds(b)
  {
    if a == [] {
      assert a + b == b;
    } else {
      assert (a + b)[0] == a[0] && (a + b)[1..] == a[1..] + b;
      TakesAppend(a[1..], b);
    }
  }

  /** Wait calls that returned 0 in the schedule, and permits signalled in it. */
  function Acquired(s: State, es: seq<Event>): nat { Takes(Labels(s, es)) }

  function Signalled(s: State, es: seq<Event>): nat { Adds(Labels(s, es)) }

  lemma {:induction false} AcquiredAppend(s: State, a: seq<Event>, b: seq<Event>)
    ensures Acquired(s, a + b) == Acquired(s, a) + Acquired(Run(s, a), b)
    ensures Signalled(s, a + b) == Signalled(s, a) + Signalled(Run(s, a), b)
  {
    RunAppend(s, a, b);
    TakesAppend(Labels(s, a), Labels(Run(s, a), b));
  }

  lemma {:induction false} Unfold(s: State, e: Event, es: seq<Event>)
    ensures Run(s, [e] + es) == Run(Next(s, e), es)
    ensures Acquired(s, [e] + es) == (if LabelOf(s, e).Take? then 1 else 0) + Acquired(Next(s, e), es)
    ensures Signalled(s, [e] + es)
            == (if LabelOf(s, e).Add? then LabelOf(s, e).count else 0) + Signalled(Next(s, e), es)
  {
    assert ([e] + es)[0] == e && ([e] + es)[1..] == es;
    assert Labels(s, [e] + es)[1..] == Labels(Next(s, e), es);
  }

  // ---------------------------------------------------------------- conservation and bounds

  lemma {:induction false} AtomicConserves(value: nat, labels: seq<Label>)
    ensures var r := Atomic(value, labels);
            r.Holds? ==> r.value + Takes(labels) == value + Adds(labels)
    decreases |labels|
  {
    if labels != [] {
      match labels[0]
      case Take => if value > 0 { AtomicConserves(value - 1, labels[1..]); }
      case Add(count) => AtomicConserves(value + count, labels[1..]);
      case Tau => AtomicConserves(value, labels[1..]);
    }
  }

  /** Permits are conserved over every schedule: none is lost between counter, kernel and signallers in
      flight, and none is made. */
  lemma {:induction false} Conservation(s: State, s0: nat, es: seq<Event>)
    requires Inv(s, s0)
    ensures Acquired(s, es) + Value(Run(s, es)) == Value(s) + Signalled(s, es)
  {
    RunRefines(s, s0, es);
    AtomicConserves(Value(s), Labels(s, es));
  }

  /** The counter never leaves [-(n + s0), supply + signals]; with that range inside ssize_t no access of a
      run overflows.  Kernel permits and owed posts never exceed waiters plus s0. */
  lemma {:induction false} Bounds(s: State, s0: nat, es: seq<Event>)
    requires Inv(s, s0)
    ensures var r := Run(s, es);
            && -((|s.threads| + s0) as int) <= -((W(r) + s0) as int) <= r.m <= Value(s) + Signalled(s, es)
            && r.sem + R(r) <= W(r) + s0
  {
    RunInv(s, s0, es);
    Conservation(s, s0, es);
    SameThreads(s, es);
    SumAtMost(Waits, Run(s, es).threads);
  }

  /** With no more threads than the kernel semaphore can count, a signaller that still owes a post finds room for
      it: the loop around sem_post never goes round on a full semaphore. */
  lemma {:induction false} PostFindsRoom(s: State, s0: nat, es: seq<Event>, t: nat)
    requires Inv(s, s0) && |s.threads| + s0 <= s.semMax
    requires t < |Run(s, es).threads| && Run(s, es).threads[t].Post?
    ensures Run(s, es).sem < Run(s, es).semMax
  {
    var r := Run(s, es);
    Bounds(s, s0, es);
    SameThreads(s, es);
    RunInv(s, s0, es);
    SumAtMost(Waits, r.threads);
    SumMember(Owes, r.threads, t);
  }

  lemma {:induction false} SameThreads(s: State, es: seq<Event>)
    ensures |Run(s, es).threads| == |s.threads|
    ensures Run(s, es).maxSpins == s.maxSpins && Run(s, es).semMax == s.semMax
    decreases |es|
  {
    if es != [] {
      SameThreads(Next(s, es[0]), es[1..]);
    }
  }

  // ---------------------------------------------------------------- no stranded permit, no wedge

  /** A thread still waiting while the kernel has nothing and nobody owes it a post: then there is no
      permit anywhere, and the counter says exactly how many are waiting. */
  lemma {:induction false} NoStrandedPermit(s: State, s0: nat, t: nat)
    requires Inv(s, s0)
    requires t < |s.threads| && Waits(s.threads[t]) == 1
    requires s.sem == 0 && R(s) == 0
    ensures Value(s) == 0 && s.m == -((W(s) + s0) as int)
  {
    SumMember(Waits, s.threads, t);
  }

  predicate Blocked(s: State, t: nat)
    requires t < |s.threads|
  {
    s.threads[t].Asleep? && s.sem == 0
  }

  /** If a run ends with everybody either out of the library or asleep in the kernel, and somebody asleep,
      then every permit ever supplied has been acquired. */
  lemma {:induction false} BlockedMeansExhausted(s: State, s0: nat, es: seq<Event>, t: nat)
    requires Inv(s, s0)
    requires var r := Run(s, es);
             && t < |r.threads| && Blocked(r, t)
             && forall u :: 0 <= u < |r.threads| ==> Ready(r.threads[u]) || Blocked(r, u)
    ensures Acquired(s, es) == Value(s) + Signalled(s, es)
  {
    var r := Run(s, es);
    RunInv(s, s0, es);
    SumZero(Owes, r.threads);
    NoStrandedPermit(r, s0, t);
    Conservation(s, s0, es);
  }

  predicate InFixup(pc: Pc) {
    pc.FixLoad? || pc.FixTry? || pc.FixCas?
  }

  function Alone(t: nat, k: nat): seq<Event> {
    seq(k, i => Event(t, Action.Go))
  }

  lemma {:induction false} AloneStep(s: State, t: nat, k: nat)
    requires k > 0
    ensures Run(s, Alone(t, k)) == Run(Next(s, Event(t, Action.Go)), Alone(t, k - 1))
  {
    assert Alone(t, k)[1..] == Alone(t, k - 1);
  }

  /** The counter non-negative while somebody is in the fix-up loop: a permit is in the kernel or on its
      way there. */
  lemma {:induction false} FixupSeesPermit(s: State, s0: nat, t: nat)
    requires Inv(s, s0)
    requires t < |s.threads| && InFixup(s.threads[t]) && s.m >= 0
    ensures s.sem + R(s) >= 1
  {
    SumMember(Waits, s.threads, t);
  }

  /** With no post pending the fix-up loop run alone returns in at most three accesses from any of its
      points, also when the value it read is stale. */
  lemma {:induction false} FixupReturns(s: State, s0: nat, t: nat) returns (k: nat)
    requires Inv(s, s0)
    requires t < |s.threads| && InFixup(s.threads[t]) && R(s) == 0
    ensures 1 <= k <= 3
    ensures var r := Run(s, Alone(t, k)); t < |r.threads| && r.threads[t].Done?
  {
    SumMember(Waits, s.threads, t);
    var s1 := Next(s, Event(t, Action.Go));
    var s2 := Next(s1, Event(t, Action.Go));
    AloneStep(s, t, 1);
    AloneStep(s, t, 2);
    AloneStep(s1, t, 1);
    AloneStep(s, t, 3);
    AloneStep(s1, t, 2);
    AloneStep(s2, t, 1);
    k := if s1.threads[t].Done? then 1 else if s2.threads[t].Done? then 2 else 3;
  }

  // ---------------------------------------------------------------- the supply law

  /** Holds of a schedule: no more wait calls returned 0 than the initial count plus the signals. */
  predicate SupplyLaw(s: State, initial: nat, es: seq<Event>) {
    Acquired(s, es) <= initial + Signalled(s, es)
  }

  /** One lusem_try_wait call from a positive counter, run alone, takes a permit. */
  lemma {:induction false} TryOnce(s: State, t: nat) returns (es: seq<Event>)
    requires t < |s.threads| && Ready(s.threads[t]) && s.m > 0
    ensures Run(s, es) == s.(m := s.m - 1, threads := s.threads[t := Done(0)])
    ensures Acquired(s, es) == 1 && Signalled(s, es) == 0
    ensures forall e :: e in es ==> e.t == t
  {
    var call, go := Event(t, CallTry), Event(t, Action.Go);
    var s1 := Next(s, call);
    var s2 := Next(s1, go);
    Unfold(s, call, [go] + ([go] + []));
    Unfold(s1, go, [go] + []);
    Unfold(s2, go, []);
    es := [call] + ([go] + ([go] + []));
  }

  lemma {:induction false} TryUntilZero(s: State, t: nat) returns (es: seq<Event>)
    requires t < |s.threads| && Ready(s.threads[t]) && s.m >= 0
    ensures var r := Run(s, es);
            r.m == 0 && r.sem == s.sem && |r.threads| == |s.threads| && Ready(r.threads[t])
    ensures Acquired(s, es) == s.m && Signalled(s, es) == 0
    ensures forall e :: e in es ==> e.t == t
    decreases s.m
  {
    if s.m == 0 {
      es := [];
    } else {
      var a := TryOnce(s, t);
      var b := TryUntilZero(Run(s, a), t);
      es := a + b;
      RunAppend(s, a, b);
      AcquiredAppend(s, a, b);
    }
  }

  /** A blocking wait at counter 0 spins itself out, goes to the kernel, and takes what it finds there. */
  lemma {:induction false} SpinOut(s: State, t: nat, timeout: nat, spin: int) returns (es: seq<Event>)
    requires t < |s.threads| && s.threads[t] == SpinTop(timeout, spin)
    requires s.m == 0 && s.sem > 0
    ensures Acquired(s, es) == 1 && Signalled(s, es) == 0
    ensures forall e :: e in es ==> e.t == t
    ensures Run(s, es) == s.(m := -1, sem := s.sem - 1, threads := s.threads[t := Done(0)])
    decreases spin
  {
    var go := Event(t, Action.Go);
    var s1 := Next(s, go);
    if spin - 1 >= 0 {
      var rest := SpinOut(s1, t, timeout, spin - 1);
      es := [go] + rest;
      Unfold(s, go, rest);
      assert s1.threads[t := Done(0)] == s.threads[t := Done(0)];
    } else {
      es := [go] + ([go] + []);
      Unfold(s, go, [go] + []);
      Unfold(s1, go, []);
      assert s1.threads[t := Done(0)] == s.threads[t := Done(0)];
    }
  }

  /** From counter m with anything in the kernel, one thread alone acquires m + 1 permits. */
  lemma {:induction false} OneTooMany(s: State, t: nat) returns (es: seq<Event>)
    requires t < |s.threads| && Ready(s.threads[t]) && s.m >= 0 && s.sem > 0
    ensures Acquired(s, es) == s.m + 1 && Signalled(s, es) == 0
    ensures forall e :: e in es ==> e.t == t
  {
    var a := TryUntilZero(s, t);
    var r := Run(s, a);
    var call, go := Event(t, CallWait(0)), Event(t, Action.Go);
    var r1 := Next(r, call);
    var r2 := Next(r1, go);
    var b := SpinOut(r2, t, 0, r2.maxSpins);
    Unfold(r, call, [go] + b);
    Unfold(r1, go, b);
    es := a + ([call] + ([go] + b));
    AcquiredAppend(s, a, [call] + ([go] + b));
  }

  /** lusem_init hands `initial` out twice, once through the counter and once through the kernel semaphore.
      Hence the law a user expects of a semaphore holds of every schedule exactly when `initial` is 0. */
  lemma {:induction false} SupplyLawIff(initial: nat, maxSpins: int, semMax: nat, n: nat)
    requires n > 0 && initial <= semMax
    ensures (forall es :: SupplyLaw(Init(initial, maxSpins, semMax, n), initial, es)) <==> initial == 0
  {
    var s := Init(initial, maxSpins, semMax, n);
    InitInv(initial, maxSpins, semMax, n);
    if initial == 0 {
      forall es ensures SupplyLaw(s, initial, es) {
        Conservation(s, initial, es);
      }
    } else {
      var es := OneTooMany(s, 0);
      assert !SupplyLaw(s, initial, es);
    }
  }

  /** What does hold for every initial count. */
  lemma {:induction false} DoubleSupply(initial: nat, maxSpins: int, semMax: nat, n: nat, es: seq<Event>)
    ensures Acquired(Init(initial, maxSpins, semMax, n), es)
            <= 2 * initial + Signalled(Init(initial, maxSpins, semMax, n), es)
  {
    InitInv(initial, maxSpins, semMax, n);
    Conservation(Init(initial, maxSpins, semMax, n), initial, es);
  }

  // ---------------------------------------------------------------- signal_count(n) is n signals

  /** A signalling thread run alone, from its fetch-add to its return. */
  lemma {:induction false} PostAll(s: State, t: nat) returns (es: seq<Event>)
    requires t < |s.threads| && s.threads[t].Post? && s.threads[t].left > 0
    requires s.sem + s.threads[t].left <= s.semMax
    ensures Run(s, es) == s.(sem := s.sem + s.threads[t].left, threads := s.threads[t := Idle])
    ensures Signalled(s, es) == 0 && forall e :: e in es ==> e == Event(t, Action.Go)
    decreases s.threads[t].left
  {
    var go := Event(t, Action.Go);
    var s1 := Next(s, go);
    if s.threads[t].left == 1 {
      es := [go] + [];
      Unfold(s, go, []);
    } else {
      var rest := PostAll(s1, t);
      es := [go] + rest;
      Unfold(s, go, rest);
      assert s1.threads[t := Idle] == s.threads[t := Idle];
    }
  }

  /** Kernel posts a signal of `count` makes when it finds the counter at m. */
  function Released(m: int, count: nat): nat {
    Positive(ToRelease(m, count))
  }

  function AfterSignal(s: State, t: nat, count: nat): State
    requires t < |s.threads|
  {
    s.(m := s.m + count, sem := s.sem + Released(s.m, count), threads := s.threads[t := Idle])
  }

  lemma {:induction false} SignalCountAlone(s: State, t: nat, count: nat) returns (es: seq<Event>)
    requires t < |s.threads| && Ready(s.threads[t]) && count > 0
    requires s.sem + Released(s.m, count) <= s.semMax
    ensures Run(s, es) == AfterSignal(s, t, count)
    ensures es != [] && es[0] == Event(t, CallSignal(count)) && Signalled(s, es) == count
    ensures forall e :: e in es ==> e == es[0] || e == Event(t, Action.Go)
  {
    var call, go := Event(t, CallSignal(count)), Event(t, Action.Go);
    var s1 := Next(s, call);
    var s2 := Next(s1, go);
    var rest := [];
    if s2.threads[t].Post? {
      rest := PostAll(s2, t);
      assert s2.threads[t := Idle] == s.threads[t := Idle];
    }
    es := [call] + ([go] + rest);
    Unfold(s, call, [go] + rest);
    Unfold(s1, go, rest);
    assert s1.threads[t := Idle] == s.threads[t := Idle];
  }

  /** n consecutive single signals, each run to its return, end in the very state one signal_count(n) ends
      in: same counter, same kernel value, for a counter of any sign. */
  lemma {:induction false} SingleSignals(s: State, t: nat, n: nat) returns (es: seq<Event>)
    requires t < |s.threads| && Ready(s.threads[t]) && n > 0
    requires s.sem + Released(s.m, n) <= s.semMax
    ensures Run(s, es) == AfterSignal(s, t, n) && Signalled(s, es) == n
    ensures forall e :: e in es && e.act.CallSignal? ==> e.act.count == 1
    decreases n
  {
    var a := SignalCountAlone(s, t, 1);
    if n == 1 {
      es := a;
    } else {
      var s1 := Run(s, a);
      var b := SingleSignals(s1, t, n - 1);
      es := a + b;
      RunAppend(s, a, b);
      AcquiredAppend(s, a, b);
      assert s1.threads[t := Idle] == s.threads[t := Idle];
    }
  }
}
