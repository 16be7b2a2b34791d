/** Each lusem call run alone, from any counter and kernel value: what it returns and all that it changes. */
module LusemAlone {
  import opened LusemModel
  import opened LusemTheorems

  /** All events are thread t's. */
  predicate By(t: nat, es: seq<Event>) {
    forall e :: e in es ==> e.t == t
  }

  /** Thread t at `pc`, with permits taken from the counter and from the kernel. */
  function After(s: State, t: nat, pc: Pc, taken: int, slept: int): State
    requires t < |s.threads| && slept <= s.sem
  {
    s.(m := s.m - taken, sem := s.sem - slept, threads := s.threads[t := pc])
  }

  /** lusem_try_wait takes a permit from a positive counter, and from nowhere else. */
  lemma {:induction false} TryWaitAlone(s: State, t: nat) returns (es: seq<Event>)
    requires t < |s.threads| && Ready(s.threads[t])
    ensures es != [] && es[0] == Event(t, CallTry) && By(t, es)
    ensures Run(s, es) == if s.m > 0 then After(s, t, Done(0), 1, 0) else After(s, t, Done(-1), 0, 0)
  {
    var call, go := Event(t, CallTry), Event(t, Action.Go);
    if s.m > 0 {
      es := TakeAlone(s, t, TryOnly, call);
    } else {
      es := [call] + ([go] + []);
      Unfold(s, call, [go] + []);
      Unfold(Next(s, call), go, []);
    }
  }

  /** A call that begins with lusem_try_wait, on a positive counter, is over after three events. */
  lemma {:induction false} TakeAlone(s: State, t: nat, kind: Kind, call: Event) returns (es: seq<Event>)
    requires t < |s.threads| && Ready(s.threads[t]) && s.m > 0
    requires call == Event(t, if kind.TryOnly? then CallTry else CallWait(kind.timeout))
    ensures es != [] && es[0] == call && By(t, es) && Run(s, es) == After(s, t, Done(0), 1, 0)
  {
    var go := Event(t, Action.Go);
    var s1 := Next(s, call);
    var s2 := Next(s1, go);
    es := [call] + ([go] + ([go] + []));
    Unfold(s, call, [go] + ([go] + []));
    Unfold(s1, go, [go] + []);
    Unfold(s2, go, []);
  }

  /** A compare-exchange of lusem_try_wait that fails, because the counter has moved or for no reason, is followed by
      another as long as there is a permit, and then the call gives up. */
  lemma {:induction false} TryAgain(s: State, t: nat, act: Action)
    requires t < |s.threads| && s.threads[t].TryCas?
    requires act == Action.Fail || (act == Action.Go && s.m != s.threads[t].seen)
    ensures Run(s, [Event(t, act)] + ([Event(t, Action.Go)] + []))
            == if s.m > 0 then After(s, t, Done(0), 1, 0)
               else Next(After(s, t, TryFailed(s.threads[t].kind, s.maxSpins), 0, 0), Event(t, Action.Go))
  {
    var e, go := Event(t, act), Event(t, Action.Go);
    Unfold(s, e, [go] + []);
    Unfold(Next(s, e), go, []);
  }

  /** One of a spinning thread that fails costs it one turn of the spinning and no more. */
  lemma {:induction false} SpinAgain(s: State, t: nat)
    requires t < |s.threads| && s.threads[t].SpinCas? && s.m != s.threads[t].seen && s.threads[t].spin >= 1
    ensures var pc := s.threads[t];
            Run(s, Alone(t, 2))
            == After(s, t, if s.m > 0 then SpinCas(pc.timeout, pc.spin - 1, s.m) else SpinTop(pc.timeout, pc.spin - 1),
                     0, 0)
  {
    AloneStep(s, t, 2);
    AloneStep(Next(s, Event(t, Action.Go)), t, 1);
  }

  /** A spinning thread that finds a permit on the counter takes it there and then, in two accesses. */
  lemma {:induction false} SpinTakes(s: State, t: nat)
    requires t < |s.threads| && s.threads[t].SpinTop? && s.threads[t].spin >= 1 && s.m > 0
    ensures Run(s, Alone(t, 2)) == After(s, t, Done(0), 1, 0)
  {
    AloneStep(s, t, 2);
    AloneStep(Next(s, Event(t, Action.Go)), t, 1);
  }

  /** Without one it spins itself out, announces itself on the counter and goes to the kernel. */
  lemma {:induction false} SpinDown(s: State, t: nat, timeout: nat, spin: int) returns (es: seq<Event>)
    requires t < |s.threads| && s.threads[t] == SpinTop(timeout, spin) && s.m <= 0
    ensures By(t, es) && Run(s, es) == After(s, t, Asleep(timeout), 1, 0)
    decreases spin
  {
    var go := Event(t, Action.Go);
    var s1 := Next(s, go);
    var rest := [];
    if spin - 1 >= 0 {
      rest := SpinDown(s1, t, timeout, spin - 1);
      assert s1.threads[t := Asleep(timeout)] == s.threads[t := Asleep(timeout)];
    } else {
      assert Run(s1, []) == s1;
    }
    es := [go] + rest;
    Unfold(s, go, rest);
  }

  /** A wait on a counter without a permit, up to its sleep in the kernel with the caller's timeout. */
  lemma {:induction false} SleepAlone(s: State, t: nat, timeout: nat) returns (es: seq<Event>)
    requires t < |s.threads| && Ready(s.threads[t]) && s.m <= 0
    ensures es != [] && es[0] == Event(t, CallWait(timeout)) && By(t, es)
    ensures Run(s, es) == After(s, t, Asleep(timeout), 1, 0)
  {
    var call, go := Event(t, CallWait(timeout)), Event(t, Action.Go);
    var s1 := Next(s, call);
    var s2 := Next(s1, go);
    var rest := SpinDown(s2, t, timeout, s.maxSpins);
    es := [call] + ([go] + rest);
    Unfold(s, call, [go] + rest);
    Unfold(s1, go, rest);
    assert s2.threads[t := Asleep(timeout)] == s.threads[t := Asleep(timeout)];
  }

  /** lusem_wait and lusem_timed_wait return 0 with a permit from the counter if it has one, else with one from the
      kernel if that has one. */
  lemma {:induction false} WaitAlone(s: State, t: nat, timeout: nat) returns (es: seq<Event>)
    requires t < |s.threads| && Ready(s.threads[t]) && (s.m > 0 || s.sem > 0)
    ensures es != [] && es[0] == Event(t, CallWait(timeout)) && By(t, es)
    ensures Run(s, es) == After(s, t, Done(0), 1, if s.m > 0 then 0 else 1)
  {
    if s.m > 0 {
      es := TakeAlone(s, t, Blocking(timeout), Event(t, CallWait(timeout)));
    } else {
      var a := SleepAlone(s, t, timeout);
      var r := Run(s, a);
      var go := Event(t, Action.Go);
      es := a + ([go] + []);
      RunAppend(s, a, [go] + []);
      Unfold(r, go, []);
      assert r.threads[t := Done(0)] == s.threads[t := Done(0)];
    }
  }

  /** With no permit anywhere lusem_timed_wait returns -1 when its deadline passes, and leaves everything as it
      was: the count it had taken is put back. */
  lemma {:induction false} TimedOut(s: State, t: nat, timeout: nat) returns (es: seq<Event>)
    requires t < |s.threads| && Ready(s.threads[t]) && s.m <= 0 && timeout > 0
    ensures es != [] && es[0] == Event(t, CallWait(timeout)) && By(t, es)
    ensures Run(s, es) == After(s, t, Done(-1), 0, 0)
  {
    var a := SleepAlone(s, t, timeout);
    var r := Run(s, a);
    var fail, go := Event(t, Action.Fail), Event(t, Action.Go);
    var r1 := Next(r, fail);
    var r2 := Next(r1, go);
    es := a + ([fail] + ([go] + ([go] + [])));
    RunAppend(s, a, [fail] + ([go] + ([go] + [])));
    Unfold(r, fail, [go] + ([go] + []));
    Unfold(r1, go, [go] + []);
    Unfold(r2, go, []);
    assert r2.threads[t := Done(-1)] == s.threads[t := Done(-1)];
  }

  /** And lusem_wait sleeps on: nothing thread t does, and no deadline, ends its sleep. */
  lemma {:induction false} SleepsOn(s: State, t: nat, act: Action)
    requires t < |s.threads| && s.threads[t] == Asleep(0) && s.sem == 0
    ensures Next(s, Event(t, act)) == s
  {
    assert s.threads[t := s.threads[t]] == s.threads;
  }

  /** The fix-up loop run alone, from its top: 0 with a permit from the kernel if the counter shows that one was
      sent, else -1 with the count put back. */
  lemma {:induction false} FixupAlone(s: State, t: nat)
    requires t < |s.threads| && s.threads[t] == FixLoad && (s.m >= 0 ==> s.sem > 0)
    ensures Run(s, Alone(t, 2)) == if s.m >= 0 then After(s, t, Done(0), 0, 1) else After(s, t, Done(-1), -1, 0)
  {
    AloneStep(s, t, 2);
    AloneStep(Next(s, Event(t, Action.Go)), t, 1);
  }
}
