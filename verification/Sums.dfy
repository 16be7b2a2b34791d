/** Sums of a weight over a sequence of threads.  Every counting argument in the project (threads at a
    program point, kernel posts owed by signallers, ranks of a termination measure) is such a sum. */
module Sums {

  function Sum<T>(f: T -> nat, ts: seq<T>): nat {
    if ts == [] then 0 else f(ts[0]) + Sum(f, ts[1..])
  }

  /** Moving one thread changes the sum by the difference of its two weights. */
  lemma {:induction false} SumUpdate<T>(f: T -> nat, ts: seq<T>, i: nat, x: T)
    requires i < |ts|
    ensures Sum(f, ts[i := x]) == Sum(f, ts) - f(ts[i]) + f(x)
    ensures Sum(f, ts) >= f(ts[i])
  {
    if i == 0 {
      assert ts[i := x][1..] == ts[1..];
    } else {
      assert ts[i := x][1..] == ts[1..][i - 1 := x];
      SumUpdate(f, ts[1..], i - 1, x);
    }
  }

  lemma {:induction false} SumMember<T>(f: T -> nat, ts: seq<T>, i: nat)
    requires i < |ts|
    ensures Sum(f, ts) >= f(ts[i])
  {
    SumUpdate(f, ts, i, ts[i]);
  }

  lemma {:induction false} SumWitness<T>(f: T -> nat, ts: seq<T>) returns (i: nat)
    requires Sum(f, ts) > 0
    ensures i < |ts| && f(ts[i]) > 0
  {
    if f(ts[0]) > 0 {
      i := 0;
    } else {
      i := SumWitness(f, ts[1..]);
      i := i + 1;
    }
  }

  lemma {:induction false} SumZero<T>(f: T -> nat, ts: seq<T>)
    requires forall i :: 0 <= i < |ts| ==> f(ts[i]) == 0
    ensures Sum(f, ts) == 0
  {
    if ts != [] {
      SumZero(f, ts[1..]);
    }
  }

  /** Two thread vectors that agree in weight at every index have the same sum. */
  lemma {:induction false} SumSame<T>(f: T -> nat, ts: seq<T>, us: seq<T>)
    requires |ts| == |us|
    requires forall i :: 0 <= i < |ts| ==> f(ts[i]) == f(us[i])
    ensures Sum(f, ts) == Sum(f, us)
  {
    if ts != [] {
      SumSame(f, ts[1..], us[1..]);
    }
  }

  lemma {:induction false} SumAtMost<T>(f: T -> nat, ts: seq<T>)
    requires forall i :: 0 <= i < |ts| ==> f(ts[i]) <= 1
    ensures Sum(f, ts) <= |ts|
  {
    if ts != [] {
      SumAtMost(f, ts[1..]);
    }
  }

  /** If only thread h can have any weight, the sum is that weight. */
  lemma {:induction false} SumAlone<T>(f: T -> nat, ts: seq<T>, h: nat)
    requires h < |ts|
    requires forall i :: 0 <= i < |ts| && i != h ==> f(ts[i]) == 0
    ensures Sum(f, ts) == f(ts[h])
  {
    if h == 0 {
      SumZero(f, ts[1..]);
    } else {
      SumAlone(f, ts[1..], h - 1);
    }
  }

  /** Raising weights raises the sum. */
  lemma {:induction false} SumMonotone<T>(f: T -> nat, ts: seq<T>, us: seq<T>)
    requires |ts| == |us|
    requires forall i :: 0 <= i < |ts| ==> f(ts[i]) <= f(us[i])
    ensures Sum(f, ts) <= Sum(f, us)
  {
    if ts != [] {
      SumMonotone(f, ts[1..], us[1..]);
    }
  }
}
