/** What a class has been through: a ghost trail of events, and the states it led through. */
module Trails {

  /** The state that the events `es` lead to from `s`. */
  function Fold<S, E>(next: (S, E) -> S, s: S, es: seq<E>): S
    decreases |es|
  {
    if es == [] then s else Fold(next, next(s, es[0]), es[1..])
  }

  lemma {:induction false} FoldAppend<S, E>(next: (S, E) -> S, s: S, a: seq<E>, b: seq<E>)
    ensures Fold(next, s, a + b) == Fold(next, Fold(next, s, a), b)
    decreases |a|
  {
    if a == [] {
      assert a + b == b;
    } else {
      assert (a + b)[0] == a[0] && (a + b)[1..] == a[1..] + b;
      FoldAppend(next, next(s, a[0]), a[1..], b);
    }
  }

  lemma {:induction false} FoldCons<S, E>(next: (S, E) -> S, s: S, e: E, es: seq<E>)
    ensures Fold(next, s, [e] + es) == Fold(next, next(s, e), es)
  {
    assert ([e] + es)[0] == e && ([e] + es)[1..] == es;
  }

  /** `past` are the states that `es` passes through under `next`. */
  ghost predicate Path<S, E>(next: (S, E) -> S, past: seq<S>, es: seq<E>) {
    |past| == |es| + 1 && forall i {:trigger Link(next, past, es, i)} :: 0 <= i < |es| ==> Link(next, past, es, i)
  }

  ghost predicate Link<S, E>(next: (S, E) -> S, past: seq<S>, es: seq<E>, i: int)
    requires 0 <= i < |es| && |past| == |es| + 1
  {
    past[i + 1] == next(past[i], es[i])
  }

  lemma {:induction false} PathSnoc<S, E>(next: (S, E) -> S, past: seq<S>, es: seq<E>, e: E)
    requires Path(next, past, es)
    ensures Path(next, past + [next(past[|es|], e)], es + [e])
  {
    var p, q := past + [next(past[|es|], e)], es + [e];
    forall i | 0 <= i < |q| ensures Link(next, p, q, i) {
      if i < |es| { assert Link(next, past, es, i); }
    }
  }

  /** The present is what the machine makes of any earlier state and what has happened since. */
  lemma {:induction false} PathRuns<S, E>(next: (S, E) -> S, past: seq<S>, es: seq<E>, n: nat)
    requires Path(next, past, es) && n <= |es|
    ensures Fold(next, past[n], es[n..]) == past[|es|]
    decreases |es| - n
  {
    if n < |es| {
      assert Link(next, past, es, n);
      assert es[n..][0] == es[n] && es[n..][1..] == es[n + 1..];
      PathRuns(next, past, es, n + 1);
    }
  }

  /** Every one of these states has the property. */
  ghost predicate All<S>(p: S -> bool, past: seq<S>) {
    forall i {:trigger Holding(p, past, i)} :: 0 <= i < |past| ==> Holding(p, past, i)
  }

  ghost predicate Holding<S>(p: S -> bool, past: seq<S>, i: int)
    requires 0 <= i < |past|
  {
    p(past[i])
  }

  lemma {:induction false} AllAt<S>(p: S -> bool, past: seq<S>, i: nat)
    requires All(p, past) && i < |past|
    ensures p(past[i])
  {
    assert Holding(p, past, i);
  }

  lemma {:induction false} AllSnoc<S>(p: S -> bool, past: seq<S>, s: S)
    requires All(p, past) && p(s)
    ensures All(p, past + [s])
  {
    forall i | 0 <= i < |past + [s]| ensures Holding(p, past + [s], i) {
      if i < |past| { assert Holding(p, past, i); }
    }
  }

  /** Different moments `ks`, from past state `from` on and before the last step, at which p held. */
  ghost predicate Moments<S>(p: S -> bool, past: seq<S>, from: nat, ks: seq<nat>) {
    && (forall j :: 0 <= j < |ks| ==> from <= ks[j] && ks[j] + 1 < |past| && p(past[ks[j]]))
    && (forall i, j :: 0 <= i < j < |ks| ==> ks[i] < ks[j])
  }

  /** They remain such, and the state before the last step may be one more. */
  lemma {:induction false} MomentsGrow<S>(p: S -> bool, was: seq<S>, now: seq<S>, from: nat, ks: seq<nat>, more: bool)
    returns (r: seq<nat>)
    requires Moments(p, was, from, ks) && was <= now && from < |was| < |now| && (more ==> p(now[|now| - 2]))
    ensures Moments(p, now, from, r) && |r| == |ks| + (if more then 1 else 0)
  {
    r := if more then ks + [|now| - 2] else ks;
    forall j | 0 <= j < |ks| ensures from <= ks[j] && ks[j] + 2 < |now| && p(now[ks[j]]) {
      assert ks[j] + 1 < |was| && p(was[ks[j]]);
    }
  }

  /** What happens turn by turn, after `start`. */
  function Weave<T, E>(start: seq<E>, turn: T -> seq<E>, env: seq<T>): seq<E>
    decreases |env|
  {
    if env == [] then start else Weave(start, turn, env[..|env| - 1]) + turn(env[|env| - 1])
  }

  lemma WeavePrefix<T, E>(base: seq<E>, start: seq<E>, turn: T -> seq<E>, env: seq<T>, k: nat)
    requires k < |env|
    ensures base + Weave(start, turn, env[..k + 1]) == base + Weave(start, turn, env[..k]) + turn(env[k])
  {
    assert env[..k + 1][..k] == env[..k];
    Regroup(base, Weave(start, turn, env[..k]), turn(env[k]));
  }

  lemma Regroup<T>(a: seq<T>, b: seq<T>, c: seq<T>)
    ensures (a + b) + c == a + (b + c)
  {
  }
}
