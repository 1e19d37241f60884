/** State machines, their runs, and sums over sequences. */
module Machines {

  datatype Option<+T> = None | Some(value: T)

  /** A machine starts in `init`; action `a` may be taken in `s` when `guard(s, a)`, and leads to `next(s, a)`. */
  datatype Machine<!S, !A> = Machine(init: S, guard: (S, A) -> bool, next: (S, A) -> S)

  /** The state that `acts` lead to from `s`. */
  function After<S, A>(m: Machine<S, A>, s: S, acts: seq<A>): S {
    if acts == [] then s
    else m.next(After(m, s, acts[..|acts| - 1]), acts[|acts| - 1])
  }

  /** From `s`, each of `acts` may be taken when its turn comes, and all are `among` the actions considered. */
  predicate Schedule<S, A>(m: Machine<S, A>, among: A -> bool, s: S, acts: seq<A>) {
    acts == [] ||
    (var rest, a := acts[..|acts| - 1], acts[|acts| - 1];
     Schedule(m, among, s, rest) && among(a) && m.guard(After(m, s, rest), a))
  }

  /** How many of `acts` are among the actions considered. */
  function Count<A>(among: A -> bool, acts: seq<A>): nat {
    if acts == [] then 0 else Count(among, acts[..|acts| - 1]) + (if among(acts[|acts| - 1]) then 1 else 0)
  }

  /** None of the actions considered may be taken. */
  ghost predicate Stalled<S(!new), A(!new)>(m: Machine<S, A>, among: A -> bool, s: S) {
    forall a :: among(a) ==> !m.guard(s, a)
  }

  predicate Any<A>(a: A) {
    true
  }

  /** What the actions considered keep, every schedule of them keeps. */
  lemma {:induction false} ScheduleKeeps<S(!new), A(!new)>(m: Machine<S, A>, among: A -> bool, inv: S -> bool,
                                                          s: S, acts: seq<A>)
    requires Schedule(m, among, s, acts) && inv(s)
    requires forall z, a :: inv(z) && among(a) && m.guard(z, a) ==> inv(m.next(z, a))
    ensures inv(After(m, s, acts))
  {
    if acts == [] {
    } else {
      ScheduleKeeps(m, among, inv, s, acts[..|acts| - 1]);
    }
  }

  /** If each of them also lowers `rank`, no schedule of them is longer than `rank` is high. */
  lemma {:induction false} ScheduleIsBounded<S(!new), A(!new)>(m: Machine<S, A>, among: A -> bool, inv: S -> bool,
                                                               rank: S -> nat, s: S, acts: seq<A>)
    requires Schedule(m, among, s, acts) && inv(s)
    requires forall z, a :: inv(z) && among(a) && m.guard(z, a) ==> inv(m.next(z, a)) && rank(m.next(z, a)) < rank(z)
    ensures inv(After(m, s, acts)) && |acts| + rank(After(m, s, acts)) <= rank(s)
  {
    if acts == [] {
    } else {
      ScheduleIsBounded(m, among, inv, rank, s, acts[..|acts| - 1]);
    }
  }

  /** Holds at the start and is kept by every allowed action. */
  ghost predicate Inductive<S(!new), A(!new)>(m: Machine<S, A>, inv: S -> bool) {
    inv(m.init) && forall s, a :: inv(s) && m.guard(s, a) ==> inv(m.next(s, a))
  }

  /** The states that no inductive property excludes; `ReachableByRun` shows that these are the ends of runs. */
  ghost predicate Reachable<S(!new), A(!new)>(m: Machine<S, A>, s: S) {
    forall inv: S -> bool :: Inductive(m, inv) ==> inv(s)
  }

  lemma InitReachable<S(!new), A(!new)>(m: Machine<S, A>)
    ensures Reachable(m, m.init)
  {
  }

  lemma StepReachable<S(!new), A(!new)>(m: Machine<S, A>, s: S, a: A)
    requires Reachable(m, s) && m.guard(s, a)
    ensures Reachable(m, m.next(s, a))
  {
  }

  /** What holds at the start and is kept by every allowed action holds in every reachable state. */
  lemma Invariance<S(!new), A(!new)>(m: Machine<S, A>, inv: S -> bool)
    requires inv(m.init)
    requires forall s, a :: inv(s) && m.guard(s, a) ==> inv(m.next(s, a))
    ensures forall s :: Reachable(m, s) ==> inv(s)
  {
    assert Inductive(m, inv);
  }

  ghost predicate EndsRun<S(!new), A(!new)>(m: Machine<S, A>, s: S) {
    exists acts: seq<A> :: Schedule(m, Any, m.init, acts) && After(m, m.init, acts) == s
  }

  lemma EndsRunStep<S(!new), A(!new)>(m: Machine<S, A>, z: S, a: A)
    requires EndsRun(m, z) && m.guard(z, a)
    ensures EndsRun(m, m.next(z, a))
  {
    var acts: seq<A> :| Schedule(m, Any, m.init, acts) && After(m, m.init, acts) == z;
    var more := acts + [a];
    assert more[..|more| - 1] == acts;
    assert Schedule(m, Any, m.init, more) && After(m, m.init, more) == m.next(z, a);
  }

  lemma ReachableEndsRun<S(!new), A(!new)>(m: Machine<S, A>, s: S)
    requires Reachable(m, s)
    ensures EndsRun(m, s)
  {
    assert Schedule(m, Any, m.init, []) && After(m, m.init, []) == m.init;
    forall z, a | EndsRun(m, z) && m.guard(z, a) ensures EndsRun(m, m.next(z, a)) {
      EndsRunStep(m, z, a);
    }
    Invariance(m, z => EndsRun(m, z));
  }

  lemma ScheduleReaches<S(!new), A(!new)>(m: Machine<S, A>, acts: seq<A>)
    requires Schedule(m, Any, m.init, acts)
    ensures Reachable(m, After(m, m.init, acts))
  {
    InitReachable(m);
    forall z, a | Reachable(m, z) && m.guard(z, a) ensures Reachable(m, m.next(z, a)) {
      StepReachable(m, z, a);
    }
    ScheduleKeeps(m, Any, z => Reachable(m, z), m.init, acts);
  }

  /** A state is reachable exactly when some run ends in it. */
  lemma ReachableByRun<S(!new), A(!new)>(m: Machine<S, A>, s: S)
    ensures Reachable(m, s) <==> EndsRun(m, s)
  {
    if Reachable(m, s) {
      ReachableEndsRun(m, s);
    }
    if EndsRun(m, s) {
      var acts: seq<A> :| Schedule(m, Any, m.init, acts) && After(m, m.init, acts) == s;
      ScheduleReaches(m, acts);
    }
  }

  function Sum<T>(f: T -> nat, xs: seq<T>): nat {
    if xs == [] then 0 else f(xs[0]) + Sum(f, xs[1..])
  }

  lemma {:induction false} SumUpdate<T>(f: T -> nat, xs: seq<T>, i: nat, x: T)
    requires i < |xs|
    ensures Sum(f, xs[i := x]) + f(xs[i]) == Sum(f, xs) + f(x)
  {
    if i == 0 {
      assert xs[0 := x][1..] == xs[1..];
    } else {
      assert xs[i := x][1..] == xs[1..][i - 1 := x];
      SumUpdate(f, xs[1..], i - 1, x);
    }
  }

  lemma {:induction false} SumZero<T>(f: T -> nat, xs: seq<T>)
    requires forall i | 0 <= i < |xs| :: f(xs[i]) == 0
    ensures Sum(f, xs) == 0
  {
    if xs == [] {
    } else {
      SumZero(f, xs[1..]);
    }
  }

  /** If every term but one is zero, the sum is that term. */
  lemma SumSingle<T>(f: T -> nat, xs: seq<T>, k: nat)
    requires k < |xs|
    requires forall i | 0 <= i < |xs| && i != k :: f(xs[i]) == 0
    ensures Sum(f, xs) == f(xs[k])
  {
    if k == 0 {
      SumZero(f, xs[1..]);
    } else {
      SumSingle(f, xs[1..], k - 1);
    }
  }

  lemma {:induction false} SumSnoc<T>(f: T -> nat, xs: seq<T>, x: T)
    ensures Sum(f, xs + [x]) == Sum(f, xs) + f(x)
  {
    if xs == [] {
      assert [] + [x] == [x];
    } else {
      assert (xs + [x])[1..] == xs[1..] + [x];
      SumSnoc(f, xs[1..], x);
    }
  }
}
