/** The lusem functions in their own form: fields updated in place, the C loops as loops.

    Each shared access of the calling thread t is preceded by a turn of the environment, in which the other
    threads take any number of accesses of their own; `env` is the whole schedule around this one call.  A
    call whose schedule ends before the call does returns None, and has then used up all of it.  Every access
    is proved to be the step LusemModel takes and recorded on a ghost trail, so the invariant and the theorems
    over runs apply to this code. */
module LusemCode {
  import opened Options
  import opened Trails
  import opened LusemModel

  /** The accesses of other threads before the next own one, and whether that one fails spuriously. */
  datatype Turn = Turn(others: seq<Event>, fails: bool)

  predicate Env(env: seq<Turn>, t: nat) {
    forall i, e :: 0 <= i < |env| && e in env[i].others ==> e.t != t
  }

  /** How the next access of a thread at `pc` turns out. */
  function ActAt(pc: Pc, fails: bool): Action {
    if fails && (pc.TryCas? || pc.Asleep?) then Action.Fail else Action.Go
  }

  predicate CanLoad(pc: Pc) { pc.TryLoad? || pc.FixLoad? || (pc.SpinTop? && pc.spin - 1 >= 0) }

  /** Where a thread that loaded the counter goes on. */
  function Loaded(pc: Pc, seen: int, maxSpins: int): Pc {
    match pc
    case TryLoad(kind) => Reload(seen, kind, maxSpins)
    case SpinTop(timeout, spin) =>
      if seen > 0 then SpinCas(timeout, spin - 1, seen) else SpinTop(timeout, spin - 1)
    case _ => if seen >= 0 then FixTry else FixCas(seen)
  }

  /** Everything that happens in the given turns of thread t, whose own accesses turn out as in `acts`. */
  function Woven(t: nat, env: seq<Turn>, acts: seq<Action>): seq<Event>
    requires |acts| == |env|
    decreases |env|
  {
    if env == [] then [] else
    var n := |env| - 1;
    Woven(t, env[..n], acts[..n]) + (env[n].others + [Event(t, acts[n])])
  }

  /** An access fails spuriously only in a turn that says so. */
  predicate Honest(env: seq<Turn>, acts: seq<Action>) {
    |acts| <= |env| && forall i :: 0 <= i < |acts| ==> acts[i] == Action.Go || (acts[i] == Action.Fail && env[i].fails)
  }

  lemma WovenSnoc(base: seq<Event>, t: nat, env: seq<Turn>, acts: seq<Action>, act: Action)
    requires |acts| < |env|
    ensures var k := |acts|;
            base + Woven(t, env[..k + 1], acts + [act])
            == base + Woven(t, env[..k], acts) + (env[k].others + [Event(t, act)])
  {
    var k := |acts|;
    assert env[..k + 1][..k] == env[..k] && (acts + [act])[..k] == acts;
    Regroup(base, Woven(t, env[..k], acts), env[k].others + [Event(t, act)]);
  }

  /** One more turn, taken by t from `pc`. */
  lemma Onward(base: seq<Event>, t: nat, env: seq<Turn>, acts: seq<Action>, pc: Pc, was: seq<Event>, now: seq<Event>)
    returns (more: seq<Action>)
    requires Honest(env, acts) && |acts| < |env| && was == base + Woven(t, env[..|acts|], acts)
    requires now == was + (env[|acts|].others + [Event(t, ActAt(pc, env[|acts|].fails))])
    ensures Honest(env, more) && more == acts + [ActAt(pc, env[|acts|].fails)]
    ensures now == base + Woven(t, env[..|more|], more)
  {
    more := acts + [ActAt(pc, env[|acts|].fails)];
    WovenSnoc(base, t, env, acts, ActAt(pc, env[|acts|].fails));
  }

  /** What a thread itself took out of the semaphore and put into it. */
  datatype Ledger = Ledger(taken: nat, given: nat)

  /** Bookkeeping by value alone: a drop at an own access is taken, a rise is given. */
  function Booked(l: Ledger, before: nat, after: nat): Ledger {
    if after < before then l.(taken := l.taken + (before - after)) else l.(given := l.given + (after - before))
  }

  /** The ledger entry of one access: a wait call of t returning 0 takes one permit, the fetch-add of its signal
      gives `count`, nothing else moves. */
  function Entry(l: Ledger, before: State, e: Event): Ledger {
    match LabelOf(before, e)
    case Take => l.(taken := l.taken + 1)
    case Add(count) => l.(given := l.given + count)
    case Tau => l
  }

  function Kept(s0: nat): State -> bool {
    (s: State) => Inv(s, s0)
  }

  class Lusem {
    var mCount: int
    var sem: nat                  // the kernel semaphore's value
    const maxSpins: int
    const semMax: nat             // SEM_VALUE_MAX
    var threads: seq<Pc>          // where every thread stands
    ghost var s0: nat             // the kernel value lusem_init left
    ghost var book: seq<Ledger>
    ghost var trail: seq<Event>   // everything that has happened since
    ghost var past: seq<State>    // and the states it happened in, up to the present one

    ghost function View(): State
      reads this
    {
      State(mCount, sem, maxSpins, semMax, threads)
    }

    ghost predicate Valid()
      reads this
    {
      |book| == |threads| && Traced(View())
    }

    /** `s` is where the trail has led, and the counting identity has held all along. */
    ghost predicate Traced(s: State)
      reads this
    {
      Path(Next, past, trail) && past[|trail|] == s && All(Kept(s0), past)
    }

    constructor (maxSpins: int, semMax: nat, n: nat)
      ensures this.maxSpins == maxSpins && this.semMax == semMax
    {
      this.maxSpins, this.semMax := maxSpins, semMax;
      mCount, sem, threads := 0, 0, seq(n, i => Idle);
    }

    /** lusem_init: sem_init refuses a value above SEM_VALUE_MAX. */
    method Initialise(initial: nat, n: nat) returns (rc: int)
      modifies this
      ensures rc == if initial <= semMax then 0 else -1
      ensures mCount == initial
      ensures rc == 0 ==> Valid() && View() == Init(initial, maxSpins, semMax, n) && trail == [] && s0 == initial
    {
      mCount := initial;
      if initial > semMax {
        return -1;
      }
      sem, threads := initial, seq(n, i => Idle);
      s0, trail, past, book := initial, [], [] + [View()], seq(n, i => Ledger(0, 0));
      InitInv(initial, maxSpins, semMax, n);
      AllSnoc(Kept(s0), [], View());
      rc := 0;
    }

    /** What every access below promises: it is the machine's step, recorded, with its ledger entry, which is
        also what the semaphore's value lost or gained by it. */
    twostate predicate Did(t: nat, act: Action)
      reads this
    {
      && Valid() && s0 == old(s0)
      && trail == old(trail) + [Event(t, act)] && past == old(past) + [View()]
      && View() == Next(old(View()), Event(t, act))
      && |book| == |old(book)|
      && (forall u :: 0 <= u < |book| && u != t ==> book[u] == old(book)[u])
      && (t < |book| ==>
            && book[t] == Entry(old(book)[t], old(View()), Event(t, act))
            && book[t] == Booked(old(book)[t], old(Value(View())), Value(View())))
    }

    /** Proof step shared by all accesses. */
    ghost method Record(t: nat, act: Action, before: State)
      requires |book| == |before.threads| && Traced(before)
      requires View() == Next(before, Event(t, act))
      modifies `trail, `past, `book
      ensures Valid() && trail == old(trail) + [Event(t, act)] && past == old(past) + [View()]
      ensures |book| == |old(book)|
      ensures forall u :: 0 <= u < |book| && u != t ==> book[u] == old(book)[u]
      ensures t < |book| ==>
        && book[t] == Entry(old(book)[t], before, Event(t, act))
        && book[t] == Booked(old(book)[t], Value(before), Value(View()))
    {
      var e := Event(t, act);
      AllAt(Kept(s0), past, |trail|);
      NextInv(before, s0, e);
      NextRefines(before, s0, e);
      PathSnoc(Next, past, trail, e);
      AllSnoc(Kept(s0), past, View());
      trail, past := trail + [e], past + [View()];
      if t < |book| {
        book := book[t := Booked(book[t], Value(before), Value(View()))];
      }
    }

    // -------------------------------------------------------------- the atomic accesses

    /** __atomic_fetch_add(&m_count, 0) */
    method Load(t: nat) returns (seen: int)
      requires Valid() && t < |threads|
      requires CanLoad(threads[t])
      modifies this
      ensures Did(t, Action.Go) && seen == old(mCount)
    {
      ghost var before := View();
      seen := mCount;
      threads := threads[t := Loaded(threads[t], seen, maxSpins)];
      Record(t, Action.Go, before);
    }

    /** __atomic_compare_exchange_n; `spurious` is the weak form's licence to fail.  On failure the caller's
        variable receives the current value. */
    method CompareExchange(t: nat, expected: int, desired: int, spurious: bool) returns (ok: bool, seen: int)
      requires Valid() && t < |threads|
      requires match threads[t]
               case TryCas(_, v) => v == expected && desired == expected - 1
               case SpinCas(_, _, v) => v == expected && desired == expected - 1 && !spurious
               case FixCas(v) => v == expected && desired == expected + 1 && !spurious
               case _ => false
      modifies this
      ensures Did(t, if spurious then Action.Fail else Action.Go)
      ensures ok <==> (old(mCount) == expected && !spurious)
      ensures seen == old(mCount)
    {
      ghost var before := View();
      seen := mCount;
      ok := mCount == expected && !spurious;
      if ok {
        mCount := desired;
      }
      threads := threads[t := match threads[t]
                              case TryCas(kind, _) => if ok then Done(0) else Reload(seen, kind, maxSpins)
                              case SpinCas(timeout, spin, _) => if ok then Done(0) else SpinTop(timeout, spin)
                              case _ => if ok then Done(-1) else FixLoad];
      Record(t, if spurious then Action.Fail else Action.Go, before);
    }

    /** __atomic_fetch_sub(&m_count, 1) after the spinning */
    method FetchSub(t: nat) returns (seen: int)
      requires Valid() && t < |threads| && threads[t].SpinTop? && threads[t].spin - 1 < 0
      modifies this
      ensures Did(t, Action.Go) && seen == old(mCount)
    {
      ghost var before := View();
      seen := mCount;
      mCount := mCount - 1;
      threads := threads[t := if seen > 0 then Done(0) else Asleep(threads[t].timeout)];
      Record(t, Action.Go, before);
    }

    /** __atomic_fetch_add(&m_count, count) of a signal */
    method FetchAdd(t: nat, count: int) returns (seen: int)
      requires Valid() && t < |threads| && threads[t] == SigAdd(count)
      modifies this
      ensures Did(t, Action.Go) && seen == old(mCount)
    {
      ghost var before := View();
      seen := mCount;
      mCount := mCount + count;
      var rel := ToRelease(seen, count);
      threads := threads[t := if rel > 0 then Post(rel) else Idle];
      Record(t, Action.Go, before);
    }

    /** One look at the kernel semaphore by a sleeper (sem_wait / sem_timedwait): Some(0) with a permit,
        Some(-1) when a deadline passed, None while still blocked or interrupted. */
    method KernelWait(t: nat, fails: bool) returns (rc: Option<int>)
      requires Valid() && t < |threads| && threads[t].Asleep?
      modifies this
      ensures Did(t, if fails then Action.Fail else Action.Go)
      ensures rc == if fails then (if old(threads[t]).timeout != 0 then Some(-1) else None)
                    else if old(sem) > 0 then Some(0) else None
    {
      ghost var before := View();
      rc := None;
      if fails {
        if threads[t].timeout != 0 {
          rc := Some(-1);
          threads := threads[t := FixLoad];
        }
      } else if sem > 0 {
        rc := Some(0);
        sem, threads := sem - 1, threads[t := Done(0)];
      }
      Record(t, if fails then Action.Fail else Action.Go, before);
    }

    /** usem_try_wait */
    method KernelTryWait(t: nat) returns (rc: int)
      requires Valid() && t < |threads| && threads[t].FixTry?
      modifies this
      ensures Did(t, Action.Go) && rc == if old(sem) > 0 then 0 else -1
    {
      ghost var before := View();
      if sem > 0 {
        rc := 0;
        sem, threads := sem - 1, threads[t := Done(0)];
      } else {
        rc := -1;
        threads := threads[t := FixLoad];
      }
      Record(t, Action.Go, before);
    }

    /** sem_post: fails at SEM_VALUE_MAX */
    method KernelPost(t: nat) returns (rc: int)
      requires Valid() && t < |threads| && threads[t].Post?
      modifies this
      ensures Did(t, Action.Go) && rc == if old(sem) >= semMax then -1 else 0
    {
      ghost var before := View();
      rc := -1;
      if sem < semMax {
        rc := 0;
        var left := threads[t].left - 1;
        sem, threads := sem + 1, threads[t := if left > 0 then Post(left) else Idle];
      }
      Record(t, Action.Go, before);
    }

    /** Entering or leaving a function, or an access that changes nothing. */
    method Control(t: nat, act: Action)
      requires Valid()
      requires (!act.Go? && !act.Fail?) || t >= |threads| || Ready(threads[t])
               || (act.Fail? && !threads[t].TryCas? && !threads[t].Asleep?)
      modifies this
      ensures Did(t, act)
    {
      ghost var before := View();
      if t < |threads| && !act.Go? && !act.Fail? {
        threads := threads[t := Call(threads[t], act)];
      } else if t < |threads| {
        assert threads[t := threads[t]] == threads;
      }
      Record(t, act, before);
    }

    // -------------------------------------------------------------- the other threads

    /** One access of whichever thread the event names, at the point where that thread stands. */
    method Execute(e: Event)
      requires Valid()
      modifies this
      ensures Did(e.t, e.act)
    {
      var t := e.t;
      if t >= |threads| || (!e.act.Go? && !e.act.Fail?) {
        Control(t, e.act);
      } else if e.act.Fail? {
        match threads[t] {
          case TryCas(_, v) => var _, _ := CompareExchange(t, v, v - 1, true);
          case Asleep(_) => var _ := KernelWait(t, true);
          case _ => Control(t, e.act);
        }
      } else {
        match threads[t] {
          case Idle => Control(t, e.act);
          case Done(_) => Control(t, e.act);
          case TryLoad(_) => var _ := Load(t);
          case TryCas(_, v) => var _, _ := CompareExchange(t, v, v - 1, false);
          case SpinTop(_, spin) =>
            if spin - 1 >= 0 { var _ := Load(t); } else { var _ := FetchSub(t); }
          case SpinCas(_, _, v) => var _, _ := CompareExchange(t, v, v - 1, false);
          case Asleep(_) => var _ := KernelWait(t, false);
          case FixLoad => var _ := Load(t);
          case FixTry => var _ := KernelTryWait(t);
          case FixCas(v) => var _, _ := CompareExchange(t, v, v + 1, false);
          case SigAdd(count) => var _ := FetchAdd(t, count);
          case Post(_) => var _ := KernelPost(t);
        }
      }
    }

    /** The state is unchanged as far as thread t can tell without looking at the shared variables. */
    twostate predicate Untouched(t: nat)
      reads this
    {
      && Valid() && s0 == old(s0) && old(past) <= past
      && |threads| == |old(threads)| == |old(book)|
      && (t < |threads| ==> threads[t] == old(threads)[t] && book[t] == old(book)[t])
    }

    method Others(t: nat, es: seq<Event>)
      requires Valid()
      requires forall e :: e in es ==> e.t != t
      modifies this
      ensures Untouched(t) && trail == old(trail) + es
    {
      for i := 0 to |es|
        invariant Untouched(t) && trail == old(trail) + es[..i]
      {
        Execute(es[i]);
        assert es[..i + 1] == es[..i] + [es[i]];
      }
      assert es[..|es|] == es;
    }

    // -------------------------------------------------------------- own accesses, in company

    /** Thread t stands at `pc` and has itself taken `n` permits and given `g` since. */
    twostate predicate Reached(t: nat, pc: Pc, n: nat, g: nat := 0)
      reads this
    {
      && Valid() && s0 == old(s0) && old(past) <= past
      && |threads| == |old(threads)| == |old(book)| && t < |threads| && threads[t] == pc
      && book[t] == Ledger(old(book)[t].taken + n, old(book)[t].given + g)
    }

    /** Thread t is inside a call. */
    predicate StillIn(t: nat)
      reads `threads
    {
      t < |threads| && !Ready(threads[t])
    }

    /** The first |acts| turns of `env` have been taken since the trail was `base`. */
    ghost predicate At(t: nat, base: seq<Event>, env: seq<Turn>, acts: seq<Action>)
      reads this
    {
      Honest(env, acts) && trail == base + Woven(t, env[..|acts|], acts)
    }

    /** The load as its thread sees it. */
    method LoadHere(t: nat) returns (seen: int)
      requires Valid() && t < |threads| && CanLoad(threads[t])
      modifies this
      ensures Reached(t, Loaded(old(threads)[t], seen, maxSpins), 0)
      ensures trail == old(trail) + [Event(t, Action.Go)]
      ensures |past| == |old(past)| + 1 && past[|past| - 2].m == seen
    {
      seen := Load(t);
    }

    method LoadIn(t: nat, env: seq<Turn>, k: nat, ghost base: seq<Event>, ghost acts0: seq<Action>)
      returns (seen: int, ghost acts: seq<Action>)
      requires Valid() && t < |threads| && Env(env, t) && At(t, base, env, acts0) && k == |acts0| < |env|
      requires CanLoad(threads[t])
      modifies this
      ensures At(t, base, env, acts) && |acts| == |acts0| + 1 && acts0 <= acts
      ensures Reached(t, Loaded(old(threads)[t], seen, maxSpins), 0)
      ensures |past| > |old(past)| && past[|past| - 2].m == seen
    {
      Others(t, env[k].others);
      seen := LoadHere(t);
      acts := Onward(base, t, env, acts0, old(threads)[t], old(trail), trail);
    }

    method TryCasIn(t: nat, kind: Kind, v: int,
                    env: seq<Turn>, k: nat, ghost base: seq<Event>, ghost acts0: seq<Action>)
      returns (ok: bool, seen: int, ghost acts: seq<Action>)
      requires Valid() && t < |threads| && Env(env, t) && At(t, base, env, acts0) && k == |acts0| < |env|
      requires threads[t] == TryCas(kind, v)
      modifies this
      ensures At(t, base, env, acts) && |acts| == |acts0| + 1 && acts0 <= acts
      ensures Reached(t, if ok then Done(0) else Reload(seen, kind, maxSpins), if ok then 1 else 0)
      ensures |past| > |old(past)| && past[|past| - 2].m == seen
    {
      Others(t, env[k].others);
      ok, seen := CompareExchange(t, v, v - 1, env[k].fails);
      acts := Onward(base, t, env, acts0, old(threads)[t], old(trail), trail);
    }

    method SpinCasIn(t: nat, timeout: nat, spin: int, v: int,
                     env: seq<Turn>, k: nat, ghost base: seq<Event>, ghost acts0: seq<Action>)
      returns (ok: bool, ghost acts: seq<Action>)
      requires Valid() && t < |threads| && Env(env, t) && At(t, base, env, acts0) && k == |acts0| < |env|
      requires threads[t] == SpinCas(timeout, spin, v)
      modifies this
      ensures At(t, base, env, acts) && |acts| == |acts0| + 1 && acts0 <= acts
      ensures Reached(t, if ok then Done(0) else SpinTop(timeout, spin), if ok then 1 else 0)
    {
      Others(t, env[k].others);
      var now;
      ok, now := CompareExchange(t, v, v - 1, false);
      acts := Onward(base, t, env, acts0, old(threads)[t], old(trail), trail);
    }

    method FixCasIn(t: nat, v: int, env: seq<Turn>, k: nat, ghost base: seq<Event>, ghost acts0: seq<Action>)
      returns (ok: bool, ghost acts: seq<Action>)
      requires Valid() && t < |threads| && Env(env, t) && At(t, base, env, acts0) && k == |acts0| < |env|
      requires threads[t] == FixCas(v)
      modifies this
      ensures At(t, base, env, acts) && |acts| == |acts0| + 1 && acts0 <= acts
      ensures Reached(t, if ok then Done(-1) else FixLoad, 0)
    {
      Others(t, env[k].others);
      var now;
      ok, now := CompareExchange(t, v, v + 1, false);
      acts := Onward(base, t, env, acts0, old(threads)[t], old(trail), trail);
    }

    method FetchSubIn(t: nat, timeout: nat, spin: int,
                      env: seq<Turn>, k: nat, ghost base: seq<Event>, ghost acts0: seq<Action>)
      returns (seen: int, ghost acts: seq<Action>)
      requires Valid() && t < |threads| && Env(env, t) && At(t, base, env, acts0) && k == |acts0| < |env|
      requires threads[t] == SpinTop(timeout, spin) && spin - 1 < 0
      modifies this
      ensures At(t, base, env, acts) && |acts| == |acts0| + 1 && acts0 <= acts
      ensures Reached(t, if seen > 0 then Done(0) else Asleep(timeout), if seen > 0 then 1 else 0)
    {
      Others(t, env[k].others);
      seen := FetchSub(t);
      acts := Onward(base, t, env, acts0, old(threads)[t], old(trail), trail);
    }

    method KernelWaitIn(t: nat, timeout: nat, env: seq<Turn>, k: nat, ghost base: seq<Event>, ghost acts0: seq<Action>)
      returns (rc: Option<int>, ghost acts: seq<Action>)
      requires Valid() && t < |threads| && Env(env, t) && At(t, base, env, acts0) && k == |acts0| < |env|
      requires threads[t] == Asleep(timeout)
      modifies this
      ensures At(t, base, env, acts) && |acts| == |acts0| + 1 && acts0 <= acts
      ensures rc == None || rc == Some(0) || (rc == Some(-1) && timeout != 0 && acts[|acts| - 1] == Action.Fail)
      ensures Reached(t, if rc == None then Asleep(timeout) else if rc == Some(0) then Done(0) else FixLoad,
                      if rc == Some(0) then 1 else 0)
    {
      Others(t, env[k].others);
      rc := KernelWait(t, env[k].fails);
      acts := Onward(base, t, env, acts0, old(threads)[t], old(trail), trail);
    }

    method KernelTryWaitIn(t: nat, env: seq<Turn>, k: nat, ghost base: seq<Event>, ghost acts0: seq<Action>)
      returns (rc: int, ghost acts: seq<Action>)
      requires Valid() && t < |threads| && Env(env, t) && At(t, base, env, acts0) && k == |acts0| < |env|
      requires threads[t] == FixTry
      modifies this
      ensures At(t, base, env, acts) && |acts| == |acts0| + 1 && acts0 <= acts
      ensures rc == 0 || rc == -1
      ensures Reached(t, if rc == 0 then Done(0) else FixLoad, if rc == 0 then 1 else 0)
    {
      Others(t, env[k].others);
      rc := KernelTryWait(t);
      acts := Onward(base, t, env, acts0, old(threads)[t], old(trail), trail);
    }

    method FetchAddIn(t: nat, count: int, env: seq<Turn>, k: nat, ghost base: seq<Event>, ghost acts0: seq<Action>)
      returns (seen: int, ghost acts: seq<Action>)
      requires Valid() && t < |threads| && Env(env, t) && At(t, base, env, acts0) && k == |acts0| < |env|
      requires threads[t] == SigAdd(count)
      modifies this
      ensures At(t, base, env, acts) && |acts| == |acts0| + 1 && acts0 <= acts
      ensures Reached(t, if ToRelease(seen, count) > 0 then Post(ToRelease(seen, count)) else Idle, 0, Positive(count))
    {
      Others(t, env[k].others);
      seen := FetchAdd(t, count);
      acts := Onward(base, t, env, acts0, old(threads)[t], old(trail), trail);
    }

    method KernelPostIn(t: nat, left: int, env: seq<Turn>, k: nat, ghost base: seq<Event>, ghost acts0: seq<Action>)
      returns (rc: int, ghost acts: seq<Action>)
      requires Valid() && t < |threads| && Env(env, t) && At(t, base, env, acts0) && k == |acts0| < |env|
      requires threads[t] == Post(left)
      modifies this
      ensures At(t, base, env, acts) && |acts| == |acts0| + 1 && acts0 <= acts
      ensures rc == 0 || rc == -1
      ensures Reached(t, if rc == 0 then (if left - 1 > 0 then Post(left - 1) else Idle) else Post(left), 0)
    {
      Others(t, env[k].others);
      rc := KernelPost(t);
      acts := Onward(base, t, env, acts0, old(threads)[t], old(trail), trail);
    }

    // -------------------------------------------------------------- the functions of the library

    /** lusem_try_wait, up to its return or to where lusem_wait continues.  It gives up only if one of its own
        looks at the counter, at past state `when`, found no permit there. */
    method TryWaitLoop(t: nat, kind: Kind, env: seq<Turn>, ghost base: seq<Event>, ghost acts0: seq<Action>, k0: nat)
      returns (rc: Option<int>, k: nat, ghost acts: seq<Action>, ghost when: nat)
      requires Valid() && t < |threads| && threads[t] == TryLoad(kind)
      requires Env(env, t) && At(t, base, env, acts0) && k0 == |acts0|
      modifies this
      ensures Valid() && old(past) <= past && At(t, base, env, acts) && k0 <= k == |acts|
      ensures rc == None || rc == Some(0) || rc == Some(-1)
      ensures rc == None ==> k == |env| && StillIn(t) && !threads[t].Asleep?
      ensures rc == Some(0) ==> Reached(t, Done(0), 1)
      ensures rc == Some(-1) ==> Reached(t, TryFailed(kind, maxSpins), 0)
      ensures rc == Some(-1) ==> |old(past)| - 1 <= when < |past| && past[when].m <= 0
    {
      k, acts, when := k0, acts0, 0;
      if k == |env| { return None, k, acts, when; }
      var seen;
      seen, acts := LoadIn(t, env, k, base, acts);
      when := |past| - 2;
      k := k + 1;
      while seen > 0
        invariant |old(past)| - 1 <= when < |past| && past[when].m == seen
        invariant k0 <= k == |acts| && At(t, base, env, acts)
        invariant Reached(t, if seen > 0 then TryCas(kind, seen) else TryFailed(kind, maxSpins), 0)
        decreases |env| - k
      {
        if k == |env| { return None, k, acts, when; }
        var ok;
        ok, seen, acts := TryCasIn(t, kind, seen, env, k, base, acts);
        when := |past| - 2;
        k := k + 1;
        if ok {
          return Some(0), k, acts, when;
        }
      }
      rc := Some(-1);
    }

    /** The rest of one round of the fix-up loop, after the load; None to go round again. */
    method Fix(t: nat, seen: int, env: seq<Turn>, k: nat, ghost base: seq<Event>, ghost acts0: seq<Action>)
      returns (rc: Option<int>, ghost acts: seq<Action>)
      requires Valid() && t < |threads| && threads[t] == if seen >= 0 then FixTry else FixCas(seen)
      requires Env(env, t) && At(t, base, env, acts0) && k == |acts0| < |env|
      modifies this
      ensures At(t, base, env, acts) && |acts| == |acts0| + 1 && acts0 <= acts
      ensures rc == None || rc == Some(0) || rc == Some(-1)
      ensures Reached(t, if rc.Some? then Done(rc.value) else FixLoad, if rc == Some(0) then 1 else 0)
    {
      rc := None;
      if seen >= 0 {
        var got;
        got, acts := KernelTryWaitIn(t, env, k, base, acts0);
        if got == 0 { rc := Some(0); }
      } else {
        var ok;
        ok, acts := FixCasIn(t, seen, env, k, base, acts0);
        if ok { rc := Some(-1); }
      }
    }

    /** The fix-up loop of lusem_wait_with_part_spin. */
    method FixupLoop(t: nat, env: seq<Turn>, ghost base: seq<Event>, ghost acts0: seq<Action>, k0: nat)
      returns (rc: Option<int>, k: nat, ghost acts: seq<Action>)
      requires Valid() && t < |threads| && threads[t] == FixLoad
      requires Env(env, t) && At(t, base, env, acts0) && k0 == |acts0|
      modifies this
      ensures Valid() && old(past) <= past && At(t, base, env, acts) && k0 <= k == |acts|
      ensures rc == None || rc == Some(0) || rc == Some(-1)
      ensures rc == None ==> k == |env| && StillIn(t) && !threads[t].Asleep?
      ensures acts0 <= acts
      ensures rc == Some(0) ==> Reached(t, Done(0), 1)
      ensures rc == Some(-1) ==> Reached(t, Done(-1), 0)
    {
      k, acts := k0, acts0;
      while true
        invariant acts0 <= acts
        invariant k0 <= k == |acts| && At(t, base, env, acts)
        invariant Reached(t, FixLoad, 0)
        decreases |env| - k
      {
        if k == |env| { return None, k, acts; }
        var seen;
        seen, acts := LoadIn(t, env, k, base, acts);
        k := k + 1;
        if k == |env| { return None, k, acts; }
        rc, acts := Fix(t, seen, env, k, base, acts);
        k := k + 1;
        if rc != None {
          return;
        }
      }
    }

    /** One round of the spinning; it ends in front of the compare-exchange if the turns do. */
    method Spin(t: nat, timeout: nat, spin: int, env: seq<Turn>, ghost base: seq<Event>, ghost acts0: seq<Action>,
                k0: nat)
      returns (ok: bool, k: nat, ghost acts: seq<Action>)
      requires Valid() && t < |threads| && threads[t] == SpinTop(timeout, spin + 1) && spin >= 0
      requires Env(env, t) && At(t, base, env, acts0) && k0 == |acts0| < |env|
      modifies this
      ensures At(t, base, env, acts) && k0 < k == |acts|
      ensures ok ==> Reached(t, Done(0), 1)
      ensures !ok && StillIn(t) && threads[t].SpinCas? ==> Reached(t, threads[t], 0) && k == |env|
      ensures !ok && !(StillIn(t) && threads[t].SpinCas?) ==> Reached(t, SpinTop(timeout, spin), 0)
    {
      var seen;
      seen, acts := LoadIn(t, env, k0, base, acts0);
      k, ok := k0 + 1, false;
      if seen > 0 && k < |env| {
        ok, acts := SpinCasIn(t, timeout, spin, seen, env, k, base, acts);
        k := k + 1;
      }
    }

    /** The spinning of lusem_wait_with_part_spin, up to and including the fetch-sub; None if a permit is still
        to be waited for. */
    method SpinLoop(t: nat, timeout: nat, env: seq<Turn>, ghost base: seq<Event>, ghost acts0: seq<Action>, k0: nat)
      returns (rc: Option<int>, k: nat, ghost acts: seq<Action>)
      requires Valid() && t < |threads| && threads[t] == SpinTop(timeout, maxSpins)
      requires Env(env, t) && At(t, base, env, acts0) && k0 == |acts0|
      modifies this
      ensures Valid() && old(past) <= past && At(t, base, env, acts) && k0 <= k == |acts|
      ensures rc == None || rc == Some(0)
      ensures rc == None ==> Reached(t, Asleep(timeout), 0) || (k == |env| && StillIn(t) && !threads[t].Asleep?)
      ensures rc == Some(0) ==> Reached(t, Done(0), 1)
    {
      k, acts := k0, acts0;
      var spin := maxSpins - 1;
      while spin >= 0
        invariant k0 <= k == |acts| && At(t, base, env, acts)
        invariant Reached(t, SpinTop(timeout, spin + 1), 0)
        decreases |env| - k
      {
        if k == |env| { return None, k, acts; }
        var ok;
        ok, k, acts := Spin(t, timeout, spin, env, base, acts, k);
        if ok { return Some(0), k, acts; }
        if threads[t].SpinCas? { return None, k, acts; }
        spin := spin - 1;
      }
      if k == |env| { return None, k, acts; }
      var seen;
      seen, acts := FetchSubIn(t, timeout, spin + 1, env, k, base, acts);
      k := k + 1;
      rc := if seen > 0 then Some(0) else None;
    }

    /** usem_wait, or with a timeout usem_timed_wait. */
    method SleepLoop(t: nat, timeout: nat, env: seq<Turn>, ghost base: seq<Event>, ghost acts0: seq<Action>, k0: nat)
      returns (rc: Option<int>, k: nat, ghost acts: seq<Action>)
      requires Valid() && t < |threads| && threads[t] == Asleep(timeout)
      requires Env(env, t) && At(t, base, env, acts0) && k0 == |acts0|
      modifies this
      ensures At(t, base, env, acts) && k0 <= k == |acts|
      ensures rc == None || rc == Some(0) || (rc == Some(-1) && timeout != 0)
      ensures rc == None ==> k == |env|
      ensures rc == Some(-1) ==> Action.Fail in acts
      ensures Reached(t, if rc == None then Asleep(timeout) else if rc == Some(0) then Done(0) else FixLoad,
                      if rc == Some(0) then 1 else 0)
    {
      k, acts, rc := k0, acts0, None;
      while rc == None && k < |env|
        invariant k0 <= k == |acts| && At(t, base, env, acts)
        invariant rc == None || rc == Some(0) || (rc == Some(-1) && timeout != 0 && Action.Fail in acts)
        invariant Reached(t, if rc == None then Asleep(timeout) else if rc == Some(0) then Done(0) else FixLoad,
                          if rc == Some(0) then 1 else 0)
        decreases |env| - k
      {
        rc, acts := KernelWaitIn(t, timeout, env, k, base, acts);
        k := k + 1;
      }
    }

    /** lusem_wait_with_part_spin */
    method WaitWithPartSpin(t: nat, timeout: nat, env: seq<Turn>, ghost base: seq<Event>, ghost acts0: seq<Action>,
                            k0: nat)
      returns (rc: Option<int>, k: nat, ghost acts: seq<Action>)
      requires Valid() && t < |threads| && threads[t] == SpinTop(timeout, maxSpins)
      requires Env(env, t) && At(t, base, env, acts0) && k0 == |acts0|
      modifies this
      ensures Valid() && old(past) <= past && At(t, base, env, acts) && k0 <= k == |acts|
      ensures rc == None || rc == Some(0) || rc == Some(-1)
      ensures rc == None ==> k == |env| && StillIn(t) && (threads[t].Asleep? ==> threads[t].timeout == timeout)
      ensures rc == Some(0) ==> Reached(t, Done(0), 1)
      ensures rc == Some(-1) ==> Reached(t, Done(-1), 0) && timeout != 0 && Action.Fail in acts
    {
      rc, k, acts := SpinLoop(t, timeout, env, base, acts0, k0);
      if rc == Some(0) || k == |env| { return; }
      rc, k, acts := SleepLoop(t, timeout, env, base, acts, k);
      if rc == Some(-1) {
        rc, k, acts := FixupLoop(t, env, base, acts, k);
      }
    }

    /** The call so far: `acts` are the own accesses taken, and `env` is used up unless the call has returned. */
    ghost predicate Called(t: nat, base: seq<Event>, env: seq<Turn>, acts: seq<Action>, rc: Option<int>)
      reads this
    {
      && Valid() && At(t, base, env, acts)
      && t < |threads|
      && if Ready(threads[t]) then threads[t].Done? && rc == Some(threads[t].rc) else rc == None && |acts| == |env|
    }

    /** lusem_wait is Wait with timeout 0, lusem_timed_wait with the caller's timeout.  In any surroundings, a
        call that returns 0 took exactly one permit; a call that returns -1 took none, had a deadline that passed
        while it slept, and had found no permit on the counter at `when`.  While it sleeps it does so with the
        caller's timeout. */
    method Wait(t: nat, timeout: nat, env: seq<Turn>)
      returns (rc: Option<int>, ghost acts: seq<Action>, ghost when: nat)
      requires Valid() && t < |threads| && Ready(threads[t])
      requires Env(env, t)
      modifies this
      ensures old(past) <= past && Called(t, old(trail) + [Event(t, CallWait(timeout))], env, acts, rc)
      ensures rc == None || rc == Some(0) || rc == Some(-1)
      ensures rc == Some(0) ==> Reached(t, Done(0), 1)
      ensures rc == Some(-1) ==> Reached(t, Done(-1), 0) && timeout != 0 && Action.Fail in acts
      ensures rc == Some(-1) ==> |old(past)| <= when < |past| && past[when].m <= 0
      ensures threads[t].Asleep? ==> threads[t].timeout == timeout
    {
      var k;
      Control(t, CallWait(timeout));
      ghost var base := trail;
      assert env[..0] == [];
      rc, k, acts, when := TryWaitLoop(t, Blocking(timeout), env, base, [], 0);
      if rc == Some(-1) {
        rc, k, acts := WaitWithPartSpin(t, timeout, env, base, acts, k);
      }
    }

    /** lusem_try_wait as the user calls it: -1 only if the counter held no permit at `when`, during the call. */
    method TryWait(t: nat, env: seq<Turn>) returns (rc: Option<int>, ghost acts: seq<Action>, ghost when: nat)
      requires Valid() && t < |threads| && Ready(threads[t])
      requires Env(env, t)
      modifies this
      ensures old(past) <= past && Called(t, old(trail) + [Event(t, CallTry)], env, acts, rc)
      ensures rc == None || rc == Some(0) || rc == Some(-1)
      ensures rc == Some(0) ==> Reached(t, Done(0), 1)
      ensures rc == Some(-1) ==> Reached(t, Done(-1), 0)
      ensures rc == Some(-1) ==> |old(past)| <= when < |past| && past[when].m <= 0
    {
      Control(t, CallTry);
      var k;
      assert env[..0] == [];
      rc, k, acts, when := TryWaitLoop(t, TryOnly, env, trail, [], 0);
    }

    /** usem_signal_count: each post is repeated until it succeeds. */
    method PostLoop(t: nat, count: int, env: seq<Turn>, ghost base: seq<Event>, ghost acts0: seq<Action>, k0: nat)
      returns (done: bool, ghost acts: seq<Action>)
      requires Valid() && t < |threads| && threads[t] == if count > 0 then Post(count) else Idle
      requires Env(env, t) && At(t, base, env, acts0) && k0 == |acts0|
      modifies this
      ensures Valid() && old(past) <= past && At(t, base, env, acts)
      ensures if done then Reached(t, Idle, 0) else StillIn(t) && Reached(t, threads[t], 0) && |acts| == |env|
    {
      acts := acts0;
      var k, left := k0, count;
      while left > 0
        invariant k == |acts| && At(t, base, env, acts)
        invariant Reached(t, if left > 0 then Post(left) else Idle, 0)
        decreases |env| - k
      {
        if k == |env| { return false, acts; }
        var rc;
        rc, acts := KernelPostIn(t, left, env, k, base, acts);
        k := k + 1;
        if rc == 0 {
          left := left - 1;
        }
      }
      done := true;
    }

    /** lusem_signal_count with usem_signal_count's posting loop; lusem_signal is the case count == 1.  It gives
        exactly `count` permits, and returns only when every post it announced on the counter has been made. */
    method SignalCount(t: nat, count: int, env: seq<Turn>) returns (done: bool, ghost acts: seq<Action>)
      requires Valid() && t < |threads| && Ready(threads[t])
      requires Env(env, t)
      modifies this
      ensures Valid() && old(past) <= past && At(t, old(trail) + [Event(t, CallSignal(count))], env, acts)
      ensures done ==> Reached(t, Idle, 0, Positive(count))
      ensures !done ==> StillIn(t) && |acts| == |env|
    {
      acts := [];
      Control(t, CallSignal(count));
      ghost var base := trail;
      assert env[..0] == [];
      if count > 0 {
        if |env| == 0 { return false, acts; }
        var seen;
        seen, acts := FetchAddIn(t, count, env, 0, base, acts);
        done, acts := PostLoop(t, ToRelease(seen, count), env, base, acts, 1);
      } else {
        done := true;
      }
    }
  }
}
