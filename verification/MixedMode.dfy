/** Sends from the loop thread and from other threads on one server: exactly when the hand-over survives. */
module MixedMode {
  import opened Machines
  import opened Handshake
  import opened HandshakeRuns

  predicate Uses(off: set<nat>, loop: set<nat>, a: Action) {
    && (a.Call? ==> a.c in off)
    && (a.LoopSend? ==> a.c in loop)
  }

  /** Other threads send only on connections in `off`, the loop thread only on those in `loop`; nothing else is asked
      of them. */
  function Mixed(n: nat, m: nat, off: set<nat>, loop: set<nat>): Machine<State, Action> {
    Machine(Start(n, m), (s, a) => Enabled(s, a) && Uses(off, loop, a), Next)
  }

  predicate Balanced(s: State) {
    Tokens(s) == if SomeoneWaits(s) then 1 else 0
  }

  // ------------------------------------------------------------------ separate connections are safe

  predicate Apart(off: set<nat>, loop: set<nat>, s: State) {
    && (forall c | 0 <= c < |s.conns| && LoopWriteQueued(s.conns[c]) :: c in loop)
    && (forall t | 0 <= t < |s.senders| && s.senders[t].pc != Idle :: s.senders[t].conn in off)
  }

  lemma ApartIsDisciplined(off: set<nat>, loop: set<nat>, s: State, a: Action)
    requires off !! loop && Apart(off, loop, s) && Enabled(s, a) && Uses(off, loop, a)
    ensures Disciplined(s, a)
  {
  }

  lemma ApartKeptByLoop(off: set<nat>, loop: set<nat>, s: State, a: Action)
    requires Inv(s) && Apart(off, loop, s) && Disciplined(s, a) && Uses(off, loop, a) && LoopAction(a)
    ensures Apart(off, loop, Next(s, a))
  {
    var s' := Next(s, a);
    var c := if a.AsyncCb? then s.target.value else a.c;
    PushPop(s.conns[c], s.conns[c].data2);
    assert s'.senders == s.senders;
    assert forall i | 0 <= i < |s.conns| && i != c :: s'.conns[i] == s.conns[i];
  }

  lemma ApartKept(off: set<nat>, loop: set<nat>, s: State, a: Action)
    requires Inv(s) && Apart(off, loop, s) && Disciplined(s, a) && Uses(off, loop, a)
    ensures Apart(off, loop, Next(s, a))
  {
    if LoopAction(a) {
      ApartKeptByLoop(off, loop, s, a);
    } else {
      assert forall i | 0 <= i < |s.conns| :: Next(s, a).conns[i].queue == s.conns[i].queue;
    }
  }

  lemma SeparateIsSafe(n: nat, m: nat, off: set<nat>, loop: set<nat>)
    requires off !! loop
    ensures forall s :: Reachable(Mixed(n, m, off, loop), s) ==> Inv(s)
  {
    var machine := Mixed(n, m, off, loop);
    StartFits(n, m);
    var both := s => Inv(s) && Apart(off, loop, s);
    forall s, a | both(s) && machine.guard(s, a) ensures both(machine.next(s, a)) {
      ApartIsDisciplined(off, loop, s, a);
      ApartKept(off, loop, s, a);
      StepKeepsInv(s, a);
    }
    Invariance(machine, both);
  }

  // ------------------------------------------------------------------ a shared connection is not

  /** The mutex holder sleeps and nothing that could post the semaphore is left. */
  predicate Lost(s: State, t: nat) {
    && s.holder == Some(t) && t < |s.senders| && s.senders[t].pc == Waiting
    && (forall u | 0 <= u < |s.senders| && u != t :: s.senders[u].pc == Idle || s.senders[u].pc == Entered)
    && !s.pending && s.sem == 0
    && (forall c | 0 <= c < |s.conns| && s.conns[c].flag :: s.conns[c].queue == [])
  }

  /** Once lost, the wakeup never comes, whatever anybody does. */
  lemma LostIsForever(s: State, t: nat, a: Action)
    requires Lost(s, t) && Enabled(s, a)
    ensures Lost(Next(s, a), t)
  {
  }

  lemma LostIsUnbalanced(s: State, t: nat)
    requires Lost(s, t)
    ensures !Balanced(s)
  {
    SumZero(Owed, s.conns);
    assert SomeoneWaits(s);
  }

  lemma Take(n: nat, m: nat, off: set<nat>, loop: set<nat>, s: State, a: Action) returns (z: State)
    requires Reachable(Mixed(n, m, off, loop), s) && Enabled(s, a) && Uses(off, loop, a)
    ensures Reachable(Mixed(n, m, off, loop), z) && z == Next(s, a)
  {
    StepReachable(Mixed(n, m, off, loop), s, a);
    z := Next(s, a);
  }

  /** Thread 0 sends `p` on `c` up to raising the send event. */
  lemma CallerHalf(n: nat, m: nat, off: set<nat>, loop: set<nat>, s: State, c: nat, p: nat)
    requires c < |s.conns| && 0 < |s.senders| && c in off
    requires Reachable(Mixed(n, m, off, loop), s)
    requires s.senders[0].pc == Idle && s.holder == None
    ensures Reachable(Mixed(n, m, off, loop), Midway(s, 0, c, p, Waiting))
  {
    HalfBegins(s, 0, c, p);
    var z := Take(n, m, off, loop, s, Call(0, c, p));
    CallerClimbs(n, m, off, loop, s, c, p, Entered);
  }

  lemma {:induction false} CallerClimbs(n: nat, m: nat, off: set<nat>, loop: set<nat>, s: State, c: nat, p: nat, pc: Pc)
    requires c < |s.conns| && 0 < |s.senders| && s.senders[0].pc == Idle && s.holder == None
    requires pc != Idle && pc != Woken
    requires Reachable(Mixed(n, m, off, loop), Midway(s, 0, c, p, pc))
    ensures Reachable(Mixed(n, m, off, loop), Midway(s, 0, c, p, Waiting))
    decreases StepsLeft(Sender(pc, c, p))
  {
    if pc == Waiting {
    } else {
      HalfStep(s, 0, c, p, pc);
      var z := Take(n, m, off, loop, Midway(s, 0, c, p, pc), HalfAction(0, pc));
      CallerClimbs(n, m, off, loop, s, c, p, HalfNext(pc));
    }
  }

  lemma LoopSends(s: State, c: nat, p: nat)
    requires c < |s.conns|
    ensures var b := Buf(Loop, p);
            Next(s, LoopSend(c, p, true)) ==
            s.(conns := s.conns[c := Conn(false, b, s.conns[c].queue + [b])], log := s.log + [Wrote(c, b)])
  {
    var quiet := SetConn(s, c, s.conns[c].(flag := false, data2 := Buf(Loop, p)));
    assert Next(s, LoopSend(c, p, true)) == SendData(quiet, c, true);
  }

  lemma Completes(s: State, c: nat, b: Buf, rest: seq<Buf>)
    requires c < |s.conns| && s.conns[c].queue == [b] + rest
    ensures var k := s.conns[c];
            Next(s, WriteDone(c)) ==
            Post(s.(conns := s.conns[c := k.(queue := rest)], log := s.log + [Completed(c, b)]), k.flag)
  {
    assert s.conns[c].queue[1..] == rest;
  }

  /** A loop-thread send on the caller's connection, made while the caller waits, clears the flag its own
      completion would have looked at: the caller sleeps for ever, holding the mutex. */
  lemma WakeupCanBeLost(n: nat, m: nat, off: set<nat>, loop: set<nat>, c: nat)
    requires n > 0 && c < m && c in off && c in loop
    ensures exists s :: Reachable(Mixed(n, m, off, loop), s) && Lost(s, 0)
  {
    InitReachable(Mixed(n, m, off, loop));
    var s := Start(n, m);
    CallerHalf(n, m, off, loop, s, c, 1);
    var z := Midway(s, 0, c, 1, Waiting);
    var own, other := Buf(Thread(0), 1), Buf(Loop, 2);
    var z1 := Take(n, m, off, loop, z, AsyncCb(true));
    assert z1.conns[c].queue == [own];
    LoopSends(z1, c, 2);
    var z2 := Take(n, m, off, loop, z1, LoopSend(c, 2, true));
    assert z2.conns[c].queue == [own] + [other];
    Completes(z2, c, own, [other]);
    var z3 := Take(n, m, off, loop, z2, WriteDone(c));
    assert z3.conns[c].queue == [other] + [];
    Completes(z3, c, other, []);
    var z4 := Take(n, m, off, loop, z3, WriteDone(c));
    assert Lost(z4, 0);
  }

  /** The caller has returned, its buffer is gone, and the send event that will read it is still pending. */
  predicate TooEarly(s: State) {
    && s.pending && s.target.Some? && s.target.value < |s.conns| && AllIdle(s)
    && s.conns[s.target.value].data2.Buf? && s.conns[s.target.value].data2.owner.Thread?
    && PhaseOf(s.log) == Rejected
  }

  lemma ReturnsEarly(n: nat, m: nat, off: set<nat>, loop: set<nat>, s: State, c: nat)
    requires Reachable(Mixed(n, m, off, loop), s) && At(s, 0, Waiting) && s.sem > 0
    requires s.pending && s.target == Some(c) && c < |s.conns| && s.conns[c].data2 == Buf(Thread(0), 1)
    requires PhaseOf(s.log) == Held(0, c, 1)
    requires forall t | 0 < t < |s.senders| :: s.senders[t].pc == Idle
    ensures exists z :: Reachable(Mixed(n, m, off, loop), z) && TooEarly(z)
  {
    var awake := Take(n, m, off, loop, s, Wake(0));
    PhaseSnoc(awake.log, Returned(0, awake.senders[0].conn, awake.senders[0].payload));
    var z := Take(n, m, off, loop, awake, Unlock(0));
    assert TooEarly(z);
  }

  /** The caller has come to sleep behind a loop-thread write that is still queued. */
  lemma SleepsBehindLoopWrite(n: nat, m: nat, off: set<nat>, loop: set<nat>, c: nat) returns (s: State)
    requires n > 0 && c < m && c in off && c in loop
    ensures Reachable(Mixed(n, m, off, loop), s) && PhaseOf(s.log) == Held(0, c, 1) && s.pending && s.target == Some(c)
    ensures |s.senders| == n && forall t | 0 < t < n :: s.senders[t].pc == Idle
    ensures At(s, 0, Waiting) && c < |s.conns| && s.conns[c] == Conn(true, Buf(Thread(0), 1), [Buf(Loop, 2)] + [])
  {
    InitReachable(Mixed(n, m, off, loop));
    LoopSends(Start(n, m), c, 2);
    var z := Take(n, m, off, loop, Start(n, m), LoopSend(c, 2, true));
    PhaseSnoc(Start(n, m).log, Wrote(c, Buf(Loop, 2)));
    CallerHalf(n, m, off, loop, z, c, 1);
    PhaseSnoc(z.log, Locked(0, c, 1));
    s := Midway(z, 0, c, 1, Waiting);
  }

  /** A loop-thread write still queued when the caller sets the flag posts the semaphore in the caller's stead:
      the caller returns before its buffer has been read. */
  lemma WakeupCanBeEarly(n: nat, m: nat, off: set<nat>, loop: set<nat>, c: nat)
    requires n > 0 && c < m && c in off && c in loop
    ensures exists s :: Reachable(Mixed(n, m, off, loop), s) && TooEarly(s)
  {
    var s := SleepsBehindLoopWrite(n, m, off, loop, c);
    Completes(s, c, Buf(Loop, 2), []);
    PhaseSnoc(s.log, Completed(c, Buf(Loop, 2)));
    var z := Take(n, m, off, loop, s, WriteDone(c));
    ReturnsEarly(n, m, off, loop, z, c);
  }

  /** The token is conserved in every run exactly when no connection is used both by the loop thread and by others. */
  lemma BalancedExactlyWhenSeparate(n: nat, m: nat, off: set<nat>, loop: set<nat>)
    requires n > 0
    requires forall c | c in off || c in loop :: c < m
    ensures (forall s :: Reachable(Mixed(n, m, off, loop), s) ==> Balanced(s)) <==> off !! loop
  {
    if off !! loop {
      SeparateIsSafe(n, m, off, loop);
      forall s | Reachable(Mixed(n, m, off, loop), s) ensures Balanced(s) {
        InvBalances(s);
      }
    } else {
      var c :| c in off && c in loop;
      WakeupCanBeLost(n, m, off, loop, c);
      var s :| Reachable(Mixed(n, m, off, loop), s) && Lost(s, 0);
      LostIsUnbalanced(s, 0);
    }
  }
}
