/** pthread_barrier_init and pthread_barrier_wait in their own form, fields updated in place, run in the
    company of any other threads.  Each step is proved to be the step of BarrierModel, and recorded.

    Before each own step of the calling thread the others take any number of theirs; `env` is the whole
    schedule around this one call.  A call whose schedule ends before the call does returns None. */
module BarrierCode {
  import opened Options
  import opened Trails
  import opened BarrierModel
  import opened BarrierTheorems

  const EINVAL: int := 22

  /** The rounds thread t has joined so far, the one in progress included. */
  function Joined(s: State, t: nat): set<nat> {
    set k: nat | k <= |s.rounds| && t in (if k < |s.rounds| then s.rounds[k] else s.current)
  }

  /** A thread joins a round by its own arrival and in no other way. */
  lemma {:induction false} NextJoined(s: State, e: Event, t: nat)
    requires Inv(s)
    ensures Joined(Next(s, e), t) == Joined(s, t) + (if Arrives(s, e) && e.t == t then {|s.rounds|} else {})
  {
    var r := Next(s, e);
    if Arrives(s, e) {
      assert (s.left + MODULUS - 1) % MODULUS == s.left - 1;
      if s.left == 1 {
        assert r.rounds[|s.rounds|] == s.current + [e.t];
        forall k: nat ensures k in Joined(r, t) <==> k in Joined(s, t) || (e.t == t && k == |s.rounds|) {
        }
      }
    }
  }

  /** Turn by turn the others and the caller's own step. */
  function Woven(t: nat, env: seq<seq<Event>>): seq<Event> {
    Weave([], Turned(t), env)
  }

  function Turned(t: nat): seq<Event> -> seq<Event> {
    (others: seq<Event>) => others + [Event(t, Go)]
  }

  class Barrier {
    var count: nat
    var left: nat
    var round: nat
    var mutex: Option<nat>
    var threads: seq<Pc>
    var rounds: seq<seq<nat>>   // history, like the tickets: written, never consulted
    var current: seq<nat>
    ghost var trail: seq<Event>   // everything that has happened since
    ghost var past: seq<State>    // and the states it happened in, up to the present one

    ghost function View(): State
      reads this
    {
      State(count, left, round, mutex, threads, rounds, current)
    }

    ghost predicate Valid()
      reads this
    {
      Inv(View()) && Path(Next, past, trail) && past[|trail|] == View()
    }

    constructor ()
    {
      count, left, round, mutex := 0, 0, 0, None;
      threads, rounds, current := [], [], [];
    }

    /** pthread_barrier_init */
    method Initialise(n: nat, c: nat) returns (rc: int)
      requires c < MODULUS
      modifies this
      ensures rc == if c == 0 then EINVAL else 0
      ensures c != 0 ==> Valid() && View() == Init(c, n) && trail == []
    {
      if c == 0 {
        return EINVAL;
      }
      count, left, round := c, c, 0;
      mutex, threads, rounds, current := None, seq(n, i => Outside), [], [];
      trail, past := [], [View()];
      InitInv(c, n);
      rc := 0;
    }

    twostate predicate Did(t: nat, act: Action)
      reads this
    {
      && Valid() && View() == Next(old(View()), Event(t, act))
      && trail == old(trail) + [Event(t, act)] && past == old(past) + [View()]
      && (forall u :: u != t ==> Joined(View(), u) == old(Joined(View(), u)))
      && Joined(View(), t) == old(Joined(View(), t))
           + (if old(Arrives(View(), Event(t, act))) then {|old(rounds)|} else {})
    }

    ghost method Record(t: nat, act: Action, before: State)
      requires Inv(before) && View() == Next(before, Event(t, act))
      requires Path(Next, past, trail) && past[|trail|] == before
      modifies `trail, `past
      ensures Valid()
      ensures trail == old(trail) + [Event(t, act)] && past == old(past) + [View()]
      ensures forall u :: u != t ==> Joined(View(), u) == Joined(before, u)
      ensures Joined(View(), t)
              == Joined(before, t) + (if Arrives(before, Event(t, act)) then {|before.rounds|} else {})
    {
      NextInv(before, Event(t, act));
      PathSnoc(Next, past, trail, Event(t, act));
      trail, past := trail + [Event(t, act)], past + [View()];
      forall u: nat | u != t ensures Joined(View(), u) == Joined(before, u) {
        NextJoined(before, Event(t, act), u);
      }
      NextJoined(before, Event(t, act), t);
    }

    /** pthread_mutex_lock, or the re-locking inside pthread_cond_wait, tried once. */
    method Lock(t: nat) returns (ok: bool)
      requires Valid() && t < |threads| && (threads[t].Entering? || threads[t].Woken?)
      modifies this
      ensures Did(t, Go) && (ok <==> old(mutex) == None)
    {
      ghost var before := View();
      ok := mutex == None;
      if ok {
        mutex := Some(t);
        threads := threads[t := if threads[t].Entering? then Arriving
                                else Checking(threads[t].round, threads[t].ticket)];
      }
      Record(t, Go, before);
    }

    /** The critical section of an arrival, up to the condition wait or the broadcast. */
    method Arrival(t: nat) returns (serial: bool)
      requires Valid() && t < |threads| && threads[t].Arriving?
      modifies this
      ensures Did(t, Go) && (serial <==> old(left) == 1)
      ensures !serial ==> mutex == None
    {
      ghost var before := View();
      assert (left + MODULUS - 1) % MODULUS == left - 1;
      left := (left + MODULUS - 1) % MODULUS;
      if left != 0 {
        serial := false;
        threads := threads[t := Sleeping(round, |rounds|)];
        mutex := None;
        current := current + [t];
      } else {
        serial := true;
        round := (round + 1) % MODULUS;
        left := count;
        threads := WakeAll(threads)[t := Leaving(SERIAL_THREAD, |rounds|)];
        rounds, current := rounds + [current + [t]], [];
      }
      Record(t, Go, before);
    }

    /** The test of the do-while loop; `again` goes back into pthread_cond_wait. */
    method Recheck(t: nat) returns (again: bool)
      requires Valid() && t < |threads| && threads[t].Checking?
      modifies this
      ensures Did(t, Go) && (again <==> old(threads)[t].round == old(round))
    {
      ghost var before := View();
      again := threads[t].round == round;
      if again {
        mutex := None;
        threads := threads[t := Sleeping(threads[t].round, threads[t].ticket)];
      } else {
        threads := threads[t := Leaving(0, threads[t].ticket)];
      }
      Record(t, Go, before);
    }

    /** pthread_mutex_unlock */
    method Unlock(t: nat)
      requires Valid() && t < |threads| && threads[t].Leaving?
      modifies this
      ensures Did(t, Go)
    {
      ghost var before := View();
      mutex := None;
      threads := threads[t := Returned(threads[t].rc, threads[t].ticket)];
      Record(t, Go, before);
    }

    /** A call, a spurious wakeup, or an event that finds its thread unable to move. */
    method Control(t: nat, act: Action)
      requires Valid()
      requires act.Go? ==> t >= |threads| || Ready(threads[t]) || threads[t].Sleeping?
      modifies this
      ensures Did(t, act)
    {
      ghost var before := View();
      if t < |threads| {
        match act {
          case Enter => if Ready(threads[t]) { threads := threads[t := Entering]; }
          case Spurious => threads := threads[t := Wake(threads[t])];
          case Go =>
        }
      }
      Record(t, act, before);
    }

    method Execute(e: Event)
      requires Valid()
      modifies this
      ensures Did(e.t, e.act)
    {
      var t := e.t;
      if t >= |threads| || !e.act.Go? || Ready(threads[t]) || threads[t].Sleeping? {
        Control(t, e.act);
      } else {
        if threads[t].Arriving? {
          var _ := Arrival(t);
        } else if threads[t].Checking? {
          var _ := Recheck(t);
        } else if threads[t].Leaving? {
          Unlock(t);
        } else {
          var _ := Lock(t);
        }
      }
    }

    /** Others may run, and may wake t. */
    predicate Company(t: nat, es: seq<Event>) {
      forall e :: e in es && e.t == t ==> e.act.Spurious?
    }

    twostate predicate Untouched(t: nat)
      reads this
    {
      && Valid() && old(past) <= past
      && |threads| == |old(threads)| && |rounds| >= |old(rounds)| && t < |threads|
      && (threads[t] == old(threads)[t] || threads[t] == Wake(old(threads)[t]))
      && Joined(View(), t) == old(Joined(View(), t))
    }

    method Others(t: nat, es: seq<Event>)
      requires Valid() && t < |threads| && Company(t, es)
      modifies this
      ensures Untouched(t) && trail == old(trail) + es
    {
      for i := 0 to |es|
        invariant Untouched(t) && trail == old(trail) + es[..i]
      {
        assert es[i] in es;
        ghost var before := View();
        Execute(es[i]);
        if es[i].t == t {
          assert !Arrives(before, es[i]);
        } else {
          OtherStep(before, es[i], t);
        }
        assert es[..i + 1] == es[..i] + [es[i]];
      }
      assert es[..|es|] == es;
    }

    lemma OtherStep(s: State, e: Event, t: nat)
      requires t < |s.threads|
      requires e.t != t
      ensures var r := Next(s, e);
              && |r.threads| == |s.threads| && |r.rounds| >= |s.rounds|
              && (r.threads[t] == s.threads[t] || r.threads[t] == Wake(s.threads[t]))
    {
    }

    /** What t has joined meanwhile. */
    twostate predicate Stands(t: nat, joined: set<nat>)
      reads this
    {
      && Valid() && old(past) <= past
      && |threads| == |old(threads)| && |rounds| >= |old(rounds)| && t < |threads|
      && Joined(View(), t) == old(Joined(View(), t)) + joined
    }

    /** The first k turns of `env` have been taken since the trail was `base`. */
    ghost predicate At(t: nat, base: seq<Event>, env: seq<seq<Event>>, k: nat)
      reads this
    {
      k <= |env| && trail == base + Woven(t, env[..k])
    }

    /** Thread t is inside a call. */
    predicate StillIn(t: nat)
      reads `threads
    {
      t < |threads| && !Ready(threads[t])
    }

    predicate AllCompany(t: nat, env: seq<seq<Event>>) {
      forall i :: 0 <= i < |env| ==> Company(t, env[i])
    }

    /** One turn of a thread that wants the mutex, or waits to be woken. */
    method TryLock(t: nat, env: seq<seq<Event>>, ghost base: seq<Event>, k: nat) returns (ok: bool)
      requires Valid() && t < |threads| && AllCompany(t, env) && At(t, base, env, k) && k < |env|
      requires threads[t].Entering? || threads[t].Woken? || threads[t].Sleeping?
      modifies this
      ensures At(t, base, env, k + 1) && Stands(t, {})
      ensures if ok then threads[t] == Locked(old(threads[t]))
              else threads[t] == old(threads)[t] || threads[t] == Wake(old(threads)[t])
    {
      Others(t, env[k]);
      ok := false;
      if threads[t].Sleeping? {
        Control(t, Go);
      } else {
        ok := Lock(t);
      }
      WeavePrefix(base, [], Turned(t), env, k);
    }

    /** Acquires the mutex however often it is found taken (or the wait goes on). */
    method Acquire(t: nat, env: seq<seq<Event>>, ghost base: seq<Event>, k0: nat) returns (ok: bool, k: nat)
      requires Valid() && t < |threads| && AllCompany(t, env) && At(t, base, env, k0)
      requires threads[t].Entering? || threads[t].Woken? || threads[t].Sleeping?
      modifies this
      ensures k0 <= k && At(t, base, env, k) && Stands(t, {})
      ensures if ok then threads[t] == Locked(old(threads[t])) else k == |env| && StillIn(t)
    {
      k, ok := k0, false;
      while !ok && k < |env|
        invariant k0 <= k && At(t, base, env, k) && Stands(t, {})
        invariant !ok ==> threads[t] == old(threads)[t] || threads[t] == Wake(old(threads)[t])
        invariant ok ==> threads[t] == Locked(old(threads[t]))
      {
        ok := TryLock(t, env, base, k);
        k := k + 1;
      }
    }

    /** The test of the do-while loop, in company. */
    method RecheckIn(t: nat, env: seq<seq<Event>>, ghost base: seq<Event>, k: nat) returns (again: bool)
      requires Valid() && t < |threads| && AllCompany(t, env) && At(t, base, env, k) && k < |env|
      requires threads[t].Checking?
      modifies this
      ensures At(t, base, env, k + 1) && Stands(t, {})
      ensures if again then threads[t].Sleeping? && threads[t].ticket == old(threads[t].ticket)
              else threads[t] == Leaving(0, old(threads[t].ticket))
    {
      Others(t, env[k]);
      again := Recheck(t);
      WeavePrefix(base, [], Turned(t), env, k);
    }

    /** The do-while loop of a thread that is not the last of its round. */
    method SleepLoop(t: nat, env: seq<seq<Event>>, ghost base: seq<Event>, k0: nat) returns (ok: bool, k: nat)
      requires Valid() && t < |threads| && AllCompany(t, env) && At(t, base, env, k0)
      requires threads[t].Sleeping? || threads[t].Woken?
      modifies this
      ensures k0 <= k && At(t, base, env, k) && Stands(t, {})
      ensures if ok then threads[t] == Leaving(0, old(threads[t]).ticket) else k == |env| && StillIn(t)
    {
      k := k0;
      var again := true;
      while again
        invariant k0 <= k && At(t, base, env, k) && Stands(t, {})
        invariant again ==> (threads[t].Sleeping? || threads[t].Woken?)
                            && threads[t].ticket == old(threads[t]).ticket
        invariant !again ==> threads[t] == Leaving(0, old(threads[t]).ticket)
        decreases |env| - k, again
      {
        ok, k := Acquire(t, env, base, k);
        if !ok || k == |env| { return false, k; }
        again := RecheckIn(t, env, base, k);
        k := k + 1;
      }
      ok := true;
    }

    /** Arrival, in company; `ticket` is the round joined. */
    method Join(t: nat, env: seq<seq<Event>>, ghost base: seq<Event>, k: nat)
      returns (serial: bool, ghost ticket: nat)
      requires Valid() && t < |threads| && AllCompany(t, env) && At(t, base, env, k) && k < |env|
      requires threads[t].Arriving?
      modifies this
      ensures At(t, base, env, k + 1) && Stands(t, {ticket}) && |old(rounds)| <= ticket
      ensures if serial then threads[t] == Leaving(SERIAL_THREAD, ticket)
              else threads[t].Sleeping? && threads[t].ticket == ticket
    {
      Others(t, env[k]);
      ticket := |rounds|;
      ghost var before := View();
      serial := Arrival(t);
      assert Arrives(before, Event(t, Go));
      WeavePrefix(base, [], Turned(t), env, k);
    }

    /** The unlock before returning, in company: the round is complete and has this thread among its arrivals. */
    method Return(t: nat, env: seq<seq<Event>>, ghost base: seq<Event>, k: nat) returns (rc: int)
      requires Valid() && t < |threads| && AllCompany(t, env) && At(t, base, env, k) && k < |env|
      requires threads[t].Leaving?
      modifies this
      ensures At(t, base, env, k + 1) && Stands(t, {}) && threads[t] == Returned(rc, old(threads[t].ticket))
      ensures Last(t, threads[t].ticket, rc)
    {
      Others(t, env[k]);
      assert PcOk(View(), t);
      rc := threads[t].rc;
      Unlock(t);
      WeavePrefix(base, [], Turned(t), env, k);
    }

    /** pthread_barrier_wait up to and including the decrement of `left`. */
    method EnterAndJoin(t: nat, env: seq<seq<Event>>) returns (ok: bool, serial: bool, ghost ticket: nat, k: nat)
      requires Valid() && t < |threads| && Ready(threads[t])
      requires AllCompany(t, env)
      modifies this
      ensures Valid() && old(past) <= past && At(t, old(trail) + [Event(t, Enter)], env, k)
      ensures if ok then
                && Stands(t, {ticket}) && |old(rounds)| <= ticket
                && if serial then threads[t] == Leaving(SERIAL_THREAD, ticket)
                   else threads[t].Sleeping? && threads[t].ticket == ticket
              else k == |env| && StillIn(t)
    {
      ticket, serial := 0, false;
      Control(t, Enter);
      ghost var base := trail;
      assert env[..0] == [];
      ok, k := Acquire(t, env, base, 0);
      if !ok || k == |env| { return false, false, 0, k; }
      serial, ticket := Join(t, env, base, k);
      k := k + 1;
    }

    /** pthread_barrier_wait after that. */
    method SleepAndLeave(t: nat, serial: bool, env: seq<seq<Event>>, ghost base: seq<Event>, k0: nat)
      returns (rc: Option<int>, k: nat)
      requires Valid() && t < |threads| && AllCompany(t, env) && At(t, base, env, k0)
      requires if serial then threads[t].Leaving? else threads[t].Sleeping?
      modifies this
      ensures At(t, base, env, k) && Stands(t, {})
      ensures rc == None ==> k == |env| && StillIn(t)
      ensures rc.Some? ==>
        threads[t] == Returned(rc.value, old(threads[t].ticket)) && Last(t, threads[t].ticket, rc.value)
    {
      var ok := true;
      k, rc := k0, None;
      if !serial {
        ok, k := SleepLoop(t, env, base, k);
      }
      if !ok || k == |env| { return; }
      var v := Return(t, env, base, k);
      k, rc := k + 1, Some(v);
    }

    /** Thread t was one of `count` distinct arrivals of completed round k, and got the serial value exactly if it
        was the last of them. */
    predicate Last(t: nat, k: nat, rc: int)
      reads this
    {
      && k < |rounds| && |rounds[k]| == count > 0 && Distinct(rounds[k]) && t in rounds[k]
      && rc == if t == rounds[k][count - 1] then SERIAL_THREAD else 0
    }

    /** pthread_barrier_wait.  A call that returns joined exactly one round, of which it was one of `count`
        distinct arrivals; it returns after that round is complete, with the serial value exactly if it was the
        last to arrive.  A call that has not returned has taken all its turns. */
    method Wait(t: nat, env: seq<seq<Event>>) returns (rc: Option<int>, ghost ticket: nat, ghost used: nat)
      requires Valid() && t < |threads| && Ready(threads[t])
      requires AllCompany(t, env)
      modifies this
      ensures Valid() && old(past) <= past && At(t, old(trail) + [Event(t, Enter)], env, used)
      ensures rc == None ==> used == |env| && StillIn(t)
      ensures rc.Some? ==>
        && |old(rounds)| <= ticket && Stands(t, {ticket})
        && threads[t] == Returned(rc.value, ticket) && Last(t, ticket, rc.value)
    {
      var ok, serial, k;
      ok, serial, ticket, k := EnterAndJoin(t, env);
      rc, used := None, k;
      if ok {
        rc, k := SleepAndLeave(t, serial, env, old(trail) + [Event(t, Enter)], k);
        used := k;
      }
    }
  }

  /** Where a thread that got the mutex stands. */
  function Locked(pc: Pc): Pc {
    match pc
    case Woken(r, ticket) => Checking(r, ticket)
    case Sleeping(r, ticket) => Checking(r, ticket)
    case _ => Arriving
  }
}
