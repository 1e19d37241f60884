/**
 Closing while other threads send. The loop thread's close destroys the mutex and the semaphore and closes the send
 event, which will not be served any more; a UDP socket is freed in the same call. What was written is still completed.
 */
module ClosingSends {
  import opened Machines
  import opened Handshake
  import opened HandshakeRuns
  import M = MixedMode

  datatype Kind = Tcp | Udp

  /** After the close; `stale` is set once something that it destroyed, closed or freed has been used. */
  datatype Shut = Shut(hs: State, stale: bool)

  /** What a step needs that is gone: mutex, event and semaphore, or the UDP socket itself. */
  predicate UsesDestroyed(kind: Kind, s: State, a: Action) {
    match a
    case Lock(_) | Signal(_) | Wake(_) | Unlock(_) => true
    case WriteDone(c) => kind.Udp? || (c < |s.conns| && s.conns[c].flag)
    case _ => kind.Udp?
  }

  /** Nobody calls any more, and no send event is served. */
  predicate CanFollow(s: Shut, a: Action) {
    Enabled(s.hs, a) && !a.Call? && !a.LoopSend? && !a.AsyncCb?
  }

  function Follow(kind: Kind, s: Shut, a: Action): Shut {
    Shut(Next(s.hs, a), s.stale || UsesDestroyed(kind, s.hs, a))
  }

  /** All that can come after a close made in state `s`. */
  function Closed(kind: Kind, s: State): Machine<Shut, Action> {
    Machine(Shut(s.(pending := false), false), CanFollow, (z, a) => Follow(kind, z, a))
  }

  /** Nothing destroyed has been used, and no caller sleeps with nothing left to wake it. */
  predicate Sound(s: Shut) {
    !s.stale && forall t | 0 <= t < |s.hs.senders| :: !M.Lost(s.hs, t)
  }

  predicate NothingQueued(s: State) {
    forall c | 0 <= c < |s.conns| :: s.conns[c].queue == []
  }

  /** No other thread is between its call and its return; for a UDP socket, no send request is outstanding either. */
  predicate Unused(kind: Kind, s: State) {
    AllIdle(s) && (kind.Udp? ==> NothingQueued(s))
  }

  // ------------------------------------------------------------------ closing an unused one

  predicate Quiet(kind: Kind, s: Shut) {
    && !s.stale && Unused(kind, s.hs)
    && (forall c | 0 <= c < |s.hs.conns| && s.hs.conns[c].flag :: s.hs.conns[c].queue == [])
  }

  lemma QuietKept(kind: Kind, s: Shut, a: Action)
    requires Quiet(kind, s) && CanFollow(s, a)
    ensures Quiet(kind, Follow(kind, s, a))
  {
    assert a.WriteDone?;
  }

  lemma UnusedIsSafe(kind: Kind, s: State)
    requires Inv(s) && Unused(kind, s)
    ensures forall z :: Reachable(Closed(kind, s), z) ==> Sound(z)
  {
    var machine := Closed(kind, s);
    assert PhaseOf(s.log).Free?;
    forall z, a | Quiet(kind, z) && machine.guard(z, a) ensures Quiet(kind, machine.next(z, a)) {
      QuietKept(kind, z, a);
    }
    Invariance(machine, z => Quiet(kind, z));
  }

  // ------------------------------------------------------------------ closing one in use

  lemma {:induction false} SetupGoesStale(kind: Kind, s: State, z: Shut, t: nat)
    requires Reachable(Closed(kind, s), z) && t < |z.hs.senders| && At(z.hs, t, z.hs.senders[t].pc)
    requires z.hs.senders[t].pc in {Holding, Flagged, Published, Aimed}
    ensures exists w :: Reachable(Closed(kind, s), w) && w.stale
    decreases StepsLeft(z.hs.senders[t])
  {
    var a := HalfAction(t, z.hs.senders[t].pc);
    var w := Follow(kind, z, a);
    StepReachable(Closed(kind, s), z, a);
    if a.Signal? {
      assert w.stale;
    } else {
      SetupGoesStale(kind, s, w, t);
    }
  }

  /** The step that is the holder's next, or the loop thread's next on its behalf. */
  lemma HolderGoesBad(kind: Kind, s: State)
    requires Inv(s) && s.holder.Some?
    ensures exists z :: Reachable(Closed(kind, s), z) && !Sound(z)
  {
    var machine, ph := Closed(kind, s), PhaseOf(s.log);
    InitReachable(machine);
    var t := ph.t;
    if s.senders[t].pc == Woken {
      StepReachable(machine, machine.init, Unlock(t));
    } else if s.senders[t].pc != Waiting {
      SetupGoesStale(kind, s, machine.init, t);
    } else if ph.Held? {
      assert M.Lost(machine.init.hs, t);
    } else if ph.Written? {
      StepReachable(machine, machine.init, WriteDone(ph.c));
    } else {
      StepReachable(machine, machine.init, Wake(t));
    }
  }

  lemma UsedIsUnsafe(kind: Kind, s: State)
    requires Inv(s) && !Unused(kind, s)
    ensures exists z :: Reachable(Closed(kind, s), z) && !Sound(z)
  {
    var machine := Closed(kind, s);
    InitReachable(machine);
    if s.holder.Some? {
      HolderGoesBad(kind, s);
    } else if !AllIdle(s) {
      var t :| 0 <= t < |s.senders| && s.senders[t].pc != Idle;
      StepReachable(machine, machine.init, Lock(t));
    } else {
      var c :| 0 <= c < |s.conns| && s.conns[c].queue != [];
      StepReachable(machine, machine.init, WriteDone(c));
    }
  }

  /** Closing on the loop thread is safe for the threads that send, in every run that follows, exactly when none of them
      is between its call and its return, and for a UDP socket no send request is outstanding. */
  lemma CloseIsSafeExactlyWhenUnused(kind: Kind, n: nat, m: nat, s: State)
    requires Reachable(Sending(n, m), s)
    ensures (forall z :: Reachable(Closed(kind, s), z) ==> Sound(z)) <==> Unused(kind, s)
  {
    EveryRunKeepsInv(n, m);
    if Unused(kind, s) {
      UnusedIsSafe(kind, s);
    } else {
      UsedIsUnsafe(kind, s);
    }
  }
}
