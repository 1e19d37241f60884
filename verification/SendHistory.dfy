/** What the history says of one thread, and of one connection. */
module SendHistory {
  import opened Machines
  import opened Handshake
  import opened HandshakeRuns
  import M = MixedMode

  // ------------------------------------------------------------------ one thread's own sends

  /** The events of thread `t`: it takes and releases the mutex, and buffers of its own are written. */
  predicate Concerns(t: nat, e: Event) {
    match e
    case Locked(u, _, _) => u == t
    case Returned(u, _, _) => u == t
    case Wrote(_, b) => b.Buf? && b.owner == Thread(t)
    case Completed(_, b) => b.Buf? && b.owner == Thread(t)
    case Failed(_, b) => b.Buf? && b.owner == Thread(t)
    case WildRead => false
  }

  function Mine(t: nat, log: seq<Event>): seq<Event> {
    if log == [] then []
    else Mine(t, log[..|log| - 1]) + (if Concerns(t, log[|log| - 1]) then [log[|log| - 1]] else [])
  }

  lemma MineSnoc(t: nat, log: seq<Event>, e: Event)
    ensures Mine(t, log + [e]) == Mine(t, log) + (if Concerns(t, e) then [e] else [])
  {
    assert (log + [e])[..|log|] == log;
  }

  function Under(t: nat, ph: Phase, ok: bool): seq<Event> {
    if ph.Free? || ph.Rejected? || ph.t != t then [] else Partial(ph, ok)
  }

  /** Since its history was `base`, thread `t` has done nothing but what its send under way has come to. */
  predicate Since(t: nat, base: seq<Event>, ok: bool, log: seq<Event>) {
    Mine(t, log) == base + Under(t, PhaseOf(log), ok)
  }

  /** From `before` to `log`, thread `t` has returned from nothing: only the send it has under way has gone on. */
  ghost predicate Onward(t: nat, before: seq<Event>, log: seq<Event>) {
    forall base, ok :: Since(t, base, ok, before) ==> exists ok' :: Since(t, base, ok', log)
  }

  lemma OnwardSelf(t: nat, log: seq<Event>)
    ensures Onward(t, log, log)
  {
  }

  lemma OnwardThen(t: nat, before: seq<Event>, between: seq<Event>, log: seq<Event>)
    requires Onward(t, before, between) && Onward(t, between, log)
    ensures Onward(t, before, log)
  {
  }

  lemma UnderGrows(t: nat, ph: Phase, e: Event, ok: bool)
    requires Advance(ph, e) != Rejected && !(e.Returned? && e.t == t)
    ensures exists ok' ::
              Under(t, Advance(ph, e), ok') == Under(t, ph, ok) + (if Concerns(t, e) then [e] else [])
  {
    if Concerns(t, e) {
      PartialGrows(ph, e, ok);
      assert Under(t, Advance(ph, e), e.Completed?) == Under(t, ph, ok) + [e];
    } else {
      assert Under(t, Advance(ph, e), ok) == Under(t, ph, ok);
    }
  }

  lemma SinceGrows(t: nat, base: seq<Event>, ok: bool, log: seq<Event>, e: Event)
    requires PhaseOf(log + [e]) != Rejected && !(e.Returned? && e.t == t) && Since(t, base, ok, log)
    ensures exists ok' :: Since(t, base, ok', log + [e])
  {
    PhaseSnoc(log, e);
    MineSnoc(t, log, e);
    UnderGrows(t, PhaseOf(log), e, ok);
    var own := if Concerns(t, e) then [e] else [];
    var ok' :| Under(t, PhaseOf(log + [e]), ok') == Under(t, PhaseOf(log), ok) + own;
    assert Since(t, base, ok', log + [e]);
  }

  lemma OnwardEvent(t: nat, log: seq<Event>, e: Event)
    requires PhaseOf(log + [e]) != Rejected && !(e.Returned? && e.t == t)
    ensures Onward(t, log, log + [e])
  {
    forall base, ok | Since(t, base, ok, log) ensures exists ok' :: Since(t, base, ok', log + [e]) {
      SinceGrows(t, base, ok, log, e);
    }
  }

  lemma OnlyUnlockReturns(t: nat, s: State, a: Action)
    requires Enabled(s, a) && a != Unlock(t) && Next(s, a).log != s.log
    ensures |Next(s, a).log| > |s.log|
    ensures var e := Next(s, a).log[|s.log|];
            Next(s, a).log == s.log + [e] && !(e.Returned? && e.t == t)
  {
  }

  lemma InvAccepts(s: State)
    requires Inv(s)
    ensures PhaseOf(s.log) != Rejected
  {
  }

  /** Every step but the thread's own return. */
  lemma OnwardStep(t: nat, s: State, a: Action)
    requires Inv(s) && Disciplined(s, a) && a != Unlock(t)
    ensures Onward(t, s.log, Next(s, a).log)
  {
    StepKeepsInv(s, a);
    InvAccepts(Next(s, a));
    LogGrows(s, a);
    if Next(s, a).log == s.log {
      OnwardSelf(t, s.log);
    } else {
      OnlyUnlockReturns(t, s, a);
      OnwardEvent(t, s.log, Next(s, a).log[|s.log|]);
    }
  }

  /** A thread that is not in the section has nothing under way. */
  lemma OutsideHasNothing(t: nat, s: State)
    requires Inv(s) && t < |s.senders| && !InSection(s.senders[t].pc)
    ensures Since(t, Mine(t, s.log), true, s.log)
    ensures forall base, ok | Since(t, base, ok, s.log) :: Mine(t, s.log) == base
  {
  }

  /** One asleep on the semaphore has part of one send under way. */
  lemma AsleepHasPart(t: nat, s: State, base: seq<Event>, ok: bool)
    requires Inv(s) && t < |s.senders| && s.senders[t].pc == Waiting && Since(t, base, ok, s.log)
    ensures BegunOnce(t, base, s.senders[t].conn, s.senders[t].payload, s.log)
  {
    var x := Section(t, s.senders[t].conn, s.senders[t].payload, ok);
    var ph := PhaseOf(s.log);
    if ph.Held? {
      assert Mine(t, s.log) == base + Render(x)[..1];
    } else if ph.Written? {
      assert Mine(t, s.log) == base + Render(x.(ok := true))[..2];
    } else if ph.Over? {
      assert Mine(t, s.log) == base + Render(x)[..if ok then 3 else 2];
    }
  }

  /** Thread `t` has added one whole send of `p` on `c` to its history, and nothing else. */
  ghost predicate SentOnce(t: nat, base: seq<Event>, c: nat, p: nat, ok: bool, log: seq<Event>) {
    Mine(t, log) == base + Render(Section(t, c, p, ok))
  }

  /** It has added part of one, and nothing else. */
  ghost predicate BegunOnce(t: nat, base: seq<Event>, c: nat, p: nat, log: seq<Event>) {
    exists ok, k :: 0 <= k < |Render(Section(t, c, p, ok))| &&
                    Mine(t, log) == base + Render(Section(t, c, p, ok))[..k]
  }

  lemma UnlockEnds(t: nat, s: State)
    requires Inv(s) && Enabled(s, Unlock(t))
    ensures PhaseOf(s.log) == Over(t, s.senders[t].conn, s.senders[t].payload)
    ensures Next(s, Unlock(t)).log == s.log + [Returned(t, s.senders[t].conn, s.senders[t].payload)]
  {
  }

  /** Returning makes the send under way a whole one. */
  lemma ReturnCompletes(t: nat, s: State, base: seq<Event>, ok: bool)
    requires Inv(s) && Enabled(s, Unlock(t)) && Since(t, base, ok, s.log)
    ensures SentOnce(t, base, s.senders[t].conn, s.senders[t].payload, ok, Next(s, Unlock(t)).log)
  {
    var e := Returned(t, s.senders[t].conn, s.senders[t].payload);
    UnlockEnds(t, s);
    MineSnoc(t, s.log, e);
    PartialGrows(PhaseOf(s.log), e, ok);
  }

  // ------------------------------------------------------------------ one connection's writes

  /** The buffers handed to the stream of `c`, in order. */
  function WrittenOn(c: nat, log: seq<Event>): seq<Buf> {
    if log == [] then []
    else
      var e := log[|log| - 1];
      WrittenOn(c, log[..|log| - 1]) + (if e.Wrote? && e.c == c then [e.b] else [])
  }

  /** Those whose completion has been reported, in the order of the reports. */
  function CompletedOn(c: nat, log: seq<Event>): seq<Buf> {
    if log == [] then []
    else
      var e := log[|log| - 1];
      CompletedOn(c, log[..|log| - 1]) + (if e.Completed? && e.c == c then [e.b] else [])
  }

  predicate InOrderOn(c: nat, s: State) {
    c < |s.conns| ==> WrittenOn(c, s.log) == CompletedOn(c, s.log) + s.conns[c].queue
  }

  lemma CompletionKeepsOrder(c: nat, s: State, d: nat)
    requires InOrderOn(c, s) && Enabled(s, WriteDone(d))
    ensures InOrderOn(c, Next(s, WriteDone(d)))
  {
    LogGrows(s, WriteDone(d));
    if c == d {
      assert s.conns[c].queue == [s.conns[c].queue[0]] + s.conns[c].queue[1..];
    }
  }

  lemma CallerKeepsOrder(c: nat, s: State, a: Action)
    requires InOrderOn(c, s) && Enabled(s, a) && !LoopAction(a)
    ensures InOrderOn(c, Next(s, a))
  {
    LogGrows(s, a);
  }

  lemma WrittenSnoc(c: nat, log: seq<Event>, e: Event)
    ensures WrittenOn(c, log + [e]) == WrittenOn(c, log) + (if e.Wrote? && e.c == c then [e.b] else [])
    ensures CompletedOn(c, log + [e]) == CompletedOn(c, log) + (if e.Completed? && e.c == c then [e.b] else [])
  {
    assert (log + [e])[..|log|] == log;
  }

  /** What the loop thread's `send_data` adds to the history it adds to the queue. */
  lemma SendDataKeepsOrder(c: nat, s: State, d: nat, ok: bool)
    requires InOrderOn(c, s) && d < |s.conns|
    ensures InOrderOn(c, SendData(s, d, ok))
  {
    WrittenSnoc(c, s.log, if ok then Wrote(d, s.conns[d].data2) else Failed(d, s.conns[d].data2));
  }

  lemma SendKeepsOrder(c: nat, s: State, a: Action)
    requires InOrderOn(c, s) && Enabled(s, a) && (a.AsyncCb? || a.LoopSend?)
    ensures InOrderOn(c, Next(s, a))
  {
    if a.LoopSend? {
      SendDataKeepsOrder(c, SetConn(s, a.c, s.conns[a.c].(flag := false, data2 := Buf(Loop, a.p))), a.c, a.ok);
    } else if s.target.Some? && s.target.value < |s.conns| {
      SendDataKeepsOrder(c, s.(pending := false), s.target.value, a.ok);
    } else {
      WrittenSnoc(c, s.log, WildRead);
    }
  }

  /** On each connection writes complete in the order in which they were made, whoever made them and whether or not
      the discipline is kept; what has not completed is still queued. */
  lemma WritesCompleteInOrder(n: nat, m: nat, off: set<nat>, loop: set<nat>, s: State, c: nat)
    requires Reachable(M.Mixed(n, m, off, loop), s) && c < |s.conns|
    ensures WrittenOn(c, s.log) == CompletedOn(c, s.log) + s.conns[c].queue
  {
    forall z, a | InOrderOn(c, z) && Enabled(z, a) ensures InOrderOn(c, Next(z, a)) {
      if a.WriteDone? {
        CompletionKeepsOrder(c, z, a.c);
      } else if LoopAction(a) {
        SendKeepsOrder(c, z, a);
      } else {
        CallerKeepsOrder(c, z, a);
      }
    }
    Invariance(M.Mixed(n, m, off, loop), z => InOrderOn(c, z));
  }
}
