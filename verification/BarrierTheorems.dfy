/** What the barrier guarantees: arrivals are conserved, one serial thread per round, and the exact condition
    under which the wrapping round comparison is right. */
module BarrierTheorems {
  import opened Options
  import opened BarrierModel
  import opened Trails

  lemma {:induction false} Run1(s: State, e: Event)
    ensures Run(s, [e]) == Next(s, e)
  {
    assert [e][0] == e && [e][1..] == [];
    assert Run(Next(s, e), []) == Next(s, e);
  }

  // ---------------------------------------------------------------- conservation

  predicate Arrives(s: State, e: Event) {
    e.t < |s.threads| && s.threads[e.t].Arriving? && e.act.Go?
  }

  /** Arrivals in a schedule, and how many of them took the serial branch. */
  function Arrivals(s: State, es: seq<Event>): nat
    decreases |es|
  {
    if es == [] then 0 else (if Arrives(s, es[0]) then 1 else 0) + Arrivals(Next(s, es[0]), es[1..])
  }

  function Serials(s: State, es: seq<Event>): nat
    decreases |es|
  {
    if es == [] then 0 else
    var s' := Next(s, es[0]);
    (if Arrives(s, es[0]) && s'.threads[es[0].t].Leaving? && s'.threads[es[0].t].rc == SERIAL_THREAD then 1 else 0)
    + Serials(s', es[1..])
  }

  lemma {:induction false} Step(s: State, e: Event)
    requires Inv(s)
    ensures var s' := Next(s, e);
            && s'.count == s.count
            && |s'.rounds| == |s.rounds| + (if Arrives(s, e) && s.left == 1 then 1 else 0)
            && s'.left == (if !Arrives(s, e) then s.left else if s.left == 1 then s.count else s.left - 1)
            && (Arrives(s, e) ==>
                  (s'.threads[e.t].Leaving? && s'.threads[e.t].rc == SERIAL_THREAD <==> s.left == 1))
  {
    if Arrives(s, e) {
      assert (s.left + MODULUS - 1) % MODULUS == s.left - 1;
    }
  }

  /** Arrivals == count * completed rounds + (count - left), and every completed round had exactly one
      serial thread, for any number of threads, any wakeups and any re-entry. */
  lemma {:induction false} Conservation(s: State, es: seq<Event>)
    requires Inv(s)
    ensures var r := Run(s, es);
            && Arrivals(s, es) + s.count * |s.rounds| + (s.count - s.left)
               == s.count * |r.rounds| + (s.count - r.left)
            && Serials(s, es) == |r.rounds| - |s.rounds|
    decreases |es|
  {
    if es != [] {
      var s' := Next(s, es[0]);
      Step(s, es[0]);
      NextInv(s, es[0]);
      Conservation(s', es[1..]);
      assert s.count * (|s.rounds| + 1) == s.count * |s.rounds| + s.count;
    }
  }

  /** Nobody returns early: a thread that returned was one of `count` distinct arrivals of a completed round,
      and it got the serial value exactly if it was the last of them. */
  lemma {:induction false} NoEarlyReturn(count: nat, n: nat, es: seq<Event>, t: nat)
    requires 1 <= count < MODULUS && t < n
    ensures var r := Run(Init(count, n), es);
            && Inv(r) && |r.threads| == n && r.count == count
            && (r.threads[t].Returned? ==>
                  var k := r.threads[t].ticket;
                  && k < |r.rounds| && |r.rounds[k]| == count && Distinct(r.rounds[k]) && t in r.rounds[k]
                  && (r.threads[t].rc == SERIAL_THREAD <==> t == Closer(r, k)))
  {
    InitInv(count, n);
    RunInv(Init(count, n), es);
    SameSize(Init(count, n), es);
    assert PcOk(Run(Init(count, n), es), t);
  }

  lemma {:induction false} SameSize(s: State, es: seq<Event>)
    ensures var r := Run(s, es); |r.threads| == |s.threads| && r.count == s.count
    decreases |es|
  {
    if es != [] {
      SameSize(Next(s, es[0]), es[1..]);
    }
  }

  // ---------------------------------------------------------------- the wrapping comparison

  /** The 32-bit comparison tells every thread inside the truth about its round. */
  predicate Agree(s: State) {
    forall t :: 0 <= t < |s.threads| && Inside(s.threads[t]) ==>
      (s.threads[t].round == s.round <==> s.threads[t].ticket == |s.rounds|)
  }

  /** Every thread inside holds the current round or the one just before it. */
  predicate Recent(s: State) {
    forall t :: 0 <= t < |s.threads| && Inside(s.threads[t]) ==> s.threads[t].ticket + 1 >= |s.rounds|
  }

  function Below(n: nat): (r: set<nat>)
    ensures |r| == n && forall x: nat :: x in r <==> x < n
  {
    if n == 0 then {} else Below(n - 1) + {n - 1}
  }

  function Elements(a: seq<nat>): (r: set<nat>)
    ensures forall x: nat :: x in r <==> x in a
    ensures Distinct(a) ==> |r| == |a|
  {
    if a == [] then {} else Elements(a[..|a| - 1]) + {a[|a| - 1]}
  }

  lemma {:induction false} Pigeonhole(a: seq<nat>, n: nat)
    requires Distinct(a) && |a| >= n
    requires forall x :: x in a ==> x < n
    ensures forall x: nat :: x < n ==> x in a
  {
    assert Elements(a) <= Below(n);
    var rest := Below(n) - Elements(a);
    assert Below(n) == Elements(a) + rest;
    forall x: nat | x < n ensures x in a {
      assert x in Below(n) && x !in rest;
    }
  }

  lemma {:induction false} NextRecent(s: State, e: Event)
    requires Inv(s) && Recent(s) && |s.threads| <= s.count
    ensures Recent(Next(s, e))
  {
    var r := Next(s, e);
    if Arrives(s, e) {
      var all := s.current + [e.t];
      assert (s.left + MODULUS - 1) % MODULUS == s.left - 1;
      assert PcOk(s, e.t);
      if s.left == 1 {
        DistinctSnoc(s.current, e.t);
        Pigeonhole(all, |s.threads|);
        forall u | 0 <= u < |r.threads| && Inside(r.threads[u]) ensures r.threads[u].ticket + 1 >= |r.rounds| {
          assert u in all && PcOk(s, u);
        }
      }
    }
  }

  lemma {:induction false} RunRecent(s: State, es: seq<Event>)
    requires Inv(s) && Recent(s) && |s.threads| <= s.count
    ensures Inv(Run(s, es)) && Recent(Run(s, es))
    decreases |es|
  {
    if es != [] {
      NextInv(s, es[0]);
      NextRecent(s, es[0]);
      SameSize(s, [es[0]]);
      Run1(s, es[0]);
      RunRecent(Next(s, es[0]), es[1..]);
    }
  }

  lemma {:induction false} RecentAgrees(s: State)
    requires Inv(s) && Recent(s)
    ensures Agree(s)
  {
    forall t | 0 <= t < |s.threads| && Inside(s.threads[t])
      ensures s.threads[t].round == s.round <==> s.threads[t].ticket == |s.rounds|
    {
      assert PcOk(s, t);
    }
  }

  /** A barrier of one never keeps anybody inside. */
  lemma {:induction false} SingleAgrees(s: State)
    requires Inv(s) && s.count == 1
    ensures Agree(s)
  {
    forall t | 0 <= t < |s.threads| ensures !Inside(s.threads[t]) {
      assert PcOk(s, t);
    }
  }

  /** The holder of the mutex can always move, and so can whoever wants it while it is free. */
  lemma {:induction false} Moves(s: State, t: nat)
    requires Inv(s) && t < |s.threads|
    requires Holds(s.threads[t]) || (s.mutex == None && (s.threads[t].Woken? || s.threads[t].Entering?))
    ensures Next(s, Event(t, Go)).threads[t] != s.threads[t]
  {
  }

  /** With at most `count` threads, a state in which no thread can move is one where everybody is either out
      of the barrier or asleep in a round that is still waiting for arrivals: no wakeup is lost. */
  lemma {:induction false} StuckMeansWaiting(s: State, t: nat)
    requires Inv(s) && Recent(s) && t < |s.threads|
    requires forall u: nat :: u < |s.threads| ==> Next(s, Event(u, Go)) == s
    ensures Ready(s.threads[t]) || (s.threads[t].Sleeping? && s.threads[t].ticket == |s.rounds|)
  {
    if s.mutex.Some? {
      Moves(s, s.mutex.value);
      assert false;
    }
    if s.threads[t].Woken? || s.threads[t].Entering? {
      Moves(s, t);
      assert false;
    }
    assert PcOk(s, t);
    RecentAgrees(s);
  }

  // ---------------------------------------------------------------- one thread too many

  function ArriveBy(t: nat): seq<Event> { [Event(t, Enter)] + ([Event(t, Go)] + [Event(t, Go)]) }

  function LeaveBy(t: nat): seq<Event> { [Event(t, Go)] + ([Event(t, Go)] + [Event(t, Go)]) }

  lemma {:induction false} Run3(s: State, a: Event, b: Event, c: Event)
    ensures Run(s, [a] + ([b] + [c])) == Next(Next(Next(s, a), b), c)
  {
    FoldAppend(Next, s, [a], [b] + [c]);
    FoldAppend(Next, Next(s, a), [b], [c]);
    Run1(s, a);
    Run1(Next(s, a), b);
    Run1(Next(Next(s, a), b), c);
  }

  /** Threads a..b-1 arrive one after the other and go to sleep; nobody else moves. */
  lemma {:induction false} SleepMany(s: State, a: nat, b: nat) returns (es: seq<Event>)
    requires Counts(s) && s.mutex == None && a <= b <= |s.threads| && b - a < s.left
    requires forall u :: a <= u < b ==> Ready(s.threads[u])
    ensures var r := Run(s, es);
            && r.count == s.count && r.round == s.round && r.rounds == s.rounds && r.mutex == None && Counts(r)
            && r.left == s.left - (b - a) && |r.threads| == |s.threads|
            && (forall u :: a <= u < b ==> r.threads[u] == Sleeping(s.round, |s.rounds|))
            && (forall u :: 0 <= u < a || b <= u < |s.threads| ==> r.threads[u] == s.threads[u])
    decreases b - a
  {
    if a == b {
      es := [];
    } else {
      var s1 := Next(Next(Next(s, Event(a, Enter)), Event(a, Go)), Event(a, Go));
      Run3(s, Event(a, Enter), Event(a, Go), Event(a, Go));
      assert (s.left + MODULUS - 1) % MODULUS == s.left - 1;
      var rest := SleepMany(s1, a + 1, b);
      es := ArriveBy(a) + rest;
      FoldAppend(Next, s, ArriveBy(a), rest);
    }
  }

  /** The last arrival: opens the barrier, wakes the sleepers, unlocks. */
  lemma {:induction false} Close(s: State, t: nat) returns (es: seq<Event>)
    requires Counts(s) && s.mutex == None && s.left == 1 && t < |s.threads| && Ready(s.threads[t])
    ensures var r := Run(s, es);
            && r.count == s.count && r.round == (s.round + 1) % MODULUS && |r.rounds| == |s.rounds| + 1
            && r.mutex == None && r.left == s.count && |r.threads| == |s.threads|
            && r.threads[t] == Returned(SERIAL_THREAD, |s.rounds|)
            && (forall u :: 0 <= u < |s.threads| && u != t ==> r.threads[u] == Wake(s.threads[u]))
  {
    Run3(s, Event(t, Enter), Event(t, Go), Event(t, Go));
    var s1 := Run(s, ArriveBy(t));
    assert (s.left + MODULUS - 1) % MODULUS == 0;
    es := ArriveBy(t) + [Event(t, Go)];
    FoldAppend(Next, s, ArriveBy(t), [Event(t, Go)]);
    Run1(s1, Event(t, Go));
  }

  /** Woken threads a..b-1 of an earlier round leave one after the other. */
  lemma {:induction false} LeaveMany(s: State, a: nat, b: nat) returns (es: seq<Event>)
    requires s.mutex == None && a <= b <= |s.threads|
    requires forall u :: a <= u < b ==> s.threads[u].Woken? && s.threads[u].round != s.round
    ensures var r := Run(s, es);
            && r == s.(threads := r.threads) && |r.threads| == |s.threads|
            && (forall u :: a <= u < b ==> r.threads[u] == Returned(0, s.threads[u].ticket))
            && (forall u :: 0 <= u < a || b <= u < |s.threads| ==> r.threads[u] == s.threads[u])
    decreases b - a
  {
    if a == b {
      es := [];
    } else {
      var s1 := Next(Next(Next(s, Event(a, Go)), Event(a, Go)), Event(a, Go));
      Run3(s, Event(a, Go), Event(a, Go), Event(a, Go));
      var rest := LeaveMany(s1, a + 1, b);
      es := LeaveBy(a) + rest;
      FoldAppend(Next, s, LeaveBy(a), rest);
    }
  }

  /** A sleeper woken by chance in a round still in progress looks, and sleeps again. */
  lemma {:induction false} WokenByChance(s: State, t: nat)
    requires t < |s.threads| && s.threads[t] == Sleeping(s.round, |s.rounds|) && s.mutex == None
    ensures Next(s, Event(t, Spurious)).threads[t] == Woken(s.round, |s.rounds|)
    ensures Run(s, [Event(t, Spurious)] + ([Event(t, Go)] + [Event(t, Go)])) == s
  {
    Run3(s, Event(t, Spurious), Event(t, Go), Event(t, Go));
    assert s.threads[t := s.threads[t]] == s.threads;
  }

  /** In every barrier `count` threads that arrive one after the other all return: the last with the serial value,
      the others with 0. */
  lemma {:induction false} RoundCompletes(count: nat, n: nat) returns (es: seq<Event>)
    requires 1 <= count < MODULUS && n >= count
    ensures var r := Run(Init(count, n), es);
            && |r.rounds| == 1 && r.left == count && r.mutex == None && |r.threads| == n
            && forall u :: 0 <= u < n ==>
                 r.threads[u] == if u == count - 1 then Returned(SERIAL_THREAD, 0)
                                 else if u < count then Returned(0, 0) else Outside
  {
    var s := Init(count, n);
    var a := SleepMany(s, 0, count - 1);
    var s1 := Run(s, a);
    var b := Close(s1, count - 1);
    var s2 := Run(s1, b);
    var c := LeaveMany(s2, 0, count - 1);
    es := a + (b + c);
    FoldAppend(Next, s1, b, c);
    FoldAppend(Next, s, a, b + c);
  }

  /** Thread 0 was woken in round 0 and has not run since; threads 1..count are outside. */
  predicate Lagging(s: State) {
    && Inv(s) && s.count >= 2 && |s.threads| > s.count
    && s.mutex == None && s.left == s.count
    && s.threads[0] == Woken(0, 0)
    && forall u :: 1 <= u <= s.count ==> Ready(s.threads[u])
  }

  /** Threads 1..count play a whole round behind thread 0's back. */
  lemma {:induction false} RoundWithout0(s: State) returns (es: seq<Event>)
    requires Lagging(s)
    ensures Lagging(Run(s, es)) && |Run(s, es).rounds| == |s.rounds| + 1
  {
    var a := SleepMany(s, 1, s.count);
    var s1 := Run(s, a);
    var b := Close(s1, s.count);
    var s2 := Run(s1, b);
    assert s2.round == (s.round + 1) % MODULUS && s.round < MODULUS;
    var c := LeaveMany(s2, 1, s.count);
    var s3 := Run(s2, c);
    es := a + b + c;
    FoldAppend(Next, s, a + b, c);
    FoldAppend(Next, s, a, b);
    RunInv(s, es);
    SameSize(s, es);
  }

  lemma {:induction false} RoundsWithout0(s: State, n: nat) returns (es: seq<Event>)
    requires Lagging(s)
    ensures Lagging(Run(s, es)) && |Run(s, es).rounds| == |s.rounds| + n
    decreases n
  {
    if n == 0 {
      es := [];
    } else {
      var a := RoundWithout0(s);
      var b := RoundsWithout0(Run(s, a), n - 1);
      es := a + b;
      FoldAppend(Next, s, a, b);
    }
  }

  lemma {:induction false} FirstRound(count: nat, n: nat) returns (es: seq<Event>)
    requires 2 <= count < MODULUS && n > count
    ensures Lagging(Run(Init(count, n), es)) && |Run(Init(count, n), es).rounds| == 1
  {
    var s := Init(count, n);
    InitInv(count, n);
    var a := SleepMany(s, 0, count - 1);
    var s1 := Run(s, a);
    var b := Close(s1, count - 1);
    var s2 := Run(s1, b);
    assert s2.threads[0] == Woken(0, 0);
    var c := LeaveMany(s2, 1, count - 1);
    var s3 := Run(s2, c);
    es := a + b + c;
    FoldAppend(Next, s, a + b, c);
    FoldAppend(Next, s, a, b);
    RunInv(s, es);
    SameSize(s, es);
  }

  /** In every such barrier: 2^32 rounds after thread 0 was woken it looks, and goes back to sleep. */
  lemma {:induction false} SleepsThroughWrap(count: nat, n: nat) returns (es: seq<Event>)
    requires 2 <= count < MODULUS && n > count
    ensures var r := Run(Init(count, n), es);
            |r.rounds| == MODULUS && |r.threads| == n && r.threads[0] == Sleeping(0, 0)
  {
    var s := Init(count, n);
    var a := FirstRound(count, n);
    var b := RoundsWithout0(Run(s, a), MODULUS - 1);
    FoldAppend(Next, s, a, b);
    var r := Run(s, a + b);
    var go := [Event(0, Go)] + [Event(0, Go)];
    var r1 := Next(r, Event(0, Go));
    assert r.round == 0 && r1.threads[0] == Checking(0, 0);
    FoldCons(Next, r, Event(0, Go), [Event(0, Go)]);
    Run1(r1, Event(0, Go));
    es := (a + b) + go;
    FoldAppend(Next, s, a + b, go);
    SameSize(s, es);
  }

  /** The comparison of wrapped round numbers agrees with that of true ones on every run exactly when there
      are no more threads than `count`, or `count` is 1.  With one thread more, 2^32 rounds can pass while a
      woken thread waits for the mutex, and it goes back to sleep in a round long over. */
  lemma {:induction false} WrapSafeIff(count: nat, n: nat)
    requires 1 <= count < MODULUS
    ensures (forall es :: Agree(Run(Init(count, n), es))) <==> (n <= count || count == 1)
  {
    var s := Init(count, n);
    InitInv(count, n);
    if n <= count || count == 1 {
      forall es ensures Agree(Run(s, es)) {
        RunInv(s, es);
        SameSize(s, es);
        if count == 1 {
          SingleAgrees(Run(s, es));
        } else {
          RunRecent(s, es);
          RecentAgrees(Run(s, es));
        }
      }
    } else {
      var a := FirstRound(count, n);
      var b := RoundsWithout0(Run(s, a), MODULUS - 1);
      FoldAppend(Next, s, a, b);
      var r := Run(s, a + b);
      assert |r.rounds| == MODULUS && r.round == 0;
      assert Inside(r.threads[0]);
      assert !Agree(r);
    }
  }
}
