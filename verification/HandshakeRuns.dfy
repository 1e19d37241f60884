/** What every run of the buffer hand-over keeps: one token, an atomic order of the sends, and progress. */
module HandshakeRuns {
  import opened Machines
  import opened Handshake

  lemma StartFits(n: nat, m: nat)
    ensures Inv(Start(n, m))
  {
    assert CleanBut(Start(n, m), -1);
  }

  lemma EveryRunKeepsInv(n: nat, m: nat)
    ensures forall s :: Reachable(Sending(n, m), s) ==> Inv(s)
  {
    StartFits(n, m);
    forall s, a | Inv(s) && Sending(n, m).guard(s, a) ensures Inv(Sending(n, m).next(s, a)) {
      StepKeepsInv(s, a);
    }
    Invariance(Sending(n, m), Inv);
  }

  // ------------------------------------------------------------------ one token

  /** The queued writes of a connection whose completion will post the semaphore. */
  function Owed(k: Conn): nat {
    if k.flag then |k.queue| else 0
  }

  /** Pending send event, writes that will post, and posts not yet consumed. */
  function Tokens(s: State): nat {
    (if s.pending then 1 else 0) + Sum(Owed, s.conns) + s.sem
  }

  predicate SomeoneWaits(s: State) {
    exists t :: 0 <= t < |s.senders| && s.senders[t].pc == Waiting
  }

  lemma InvBalances(s: State)
    requires Inv(s)
    ensures Tokens(s) == if SomeoneWaits(s) then 1 else 0
    ensures s.sem <= 1
  {
    var ph := PhaseOf(s.log);
    if ph.Written? {
      SumSingle(Owed, s.conns, ph.c);
    } else {
      SumZero(Owed, s.conns);
    }
    if !ph.Free? {
      assert s.senders[ph.t].pc == Waiting ==> SomeoneWaits(s);
    }
  }

  /** Token conservation, over every run of any number of threads and connections. */
  lemma TokenConservation(n: nat, m: nat, s: State)
    requires Reachable(Sending(n, m), s)
    ensures Tokens(s) == if SomeoneWaits(s) then 1 else 0
    ensures s.sem <= 1
  {
    EveryRunKeepsInv(n, m);
    InvBalances(s);
  }

  /** Raising the send event never merges with an earlier one, and the mutex admits one sender at a time. */
  lemma SignalNeverCoalesces(n: nat, m: nat, s: State, t: nat, u: nat)
    requires Reachable(Sending(n, m), s) && At(s, t, Aimed)
    ensures !s.pending && Tokens(s) == 0
    ensures u < |s.senders| && InSection(s.senders[u].pc) ==> u == t
  {
    EveryRunKeepsInv(n, m);
    InvBalances(s);
  }

  /** The loop thread reads only the buffer of a caller that is still asleep inside its own call. */
  lemma LoopReadsLiveBuffer(n: nat, m: nat, s: State)
    requires Reachable(Sending(n, m), s) && s.pending
    ensures s.target.Some? && s.target.value < |s.conns|
    ensures var b := s.conns[s.target.value].data2;
            && b.Buf? && b.owner.Thread? && At(s, b.owner.tid, Waiting)
            && s.senders[b.owner.tid] == Sender(Waiting, s.target.value, b.payload)
  {
    EveryRunKeepsInv(n, m);
  }

  // ------------------------------------------------------------------ sends take effect one after another

  /** One send of `p` on `c` by thread `t`; `ok` when its write request was allocated. */
  datatype Section = Section(t: nat, c: nat, p: nat, ok: bool)

  function Render(x: Section): seq<Event> {
    var b := Buf(Thread(x.t), x.p);
    if x.ok then [Locked(x.t, x.c, x.p), Wrote(x.c, b), Completed(x.c, b), Returned(x.t, x.c, x.p)]
    else [Locked(x.t, x.c, x.p), Failed(x.c, b), Returned(x.t, x.c, x.p)]
  }

  function RenderAll(xs: seq<Section>): seq<Event> {
    if xs == [] then [] else RenderAll(xs[..|xs| - 1]) + Render(xs[|xs| - 1])
  }

  predicate OfLoop(e: Event) {
    (e.Wrote? || e.Completed? || e.Failed?) && FromLoop(e.b)
  }

  /** The history without the loop thread's own sends. */
  function OffLoop(log: seq<Event>): seq<Event> {
    if log == [] then []
    else
      var rest := OffLoop(log[..|log| - 1]);
      if OfLoop(log[|log| - 1]) then rest else rest + [log[|log| - 1]]
  }

  /** How a section that has reached phase `ph` appears in the history; `ok` matters only once it is over. */
  function Partial(ph: Phase, ok: bool): seq<Event> {
    match ph
    case Free => []
    case Held(t, c, p) => [Locked(t, c, p)]
    case Written(t, c, p) => [Locked(t, c, p), Wrote(c, Buf(Thread(t), p))]
    case Over(t, c, p) => Render(Section(t, c, p, ok))[..if ok then 3 else 2]
    case Rejected => []
  }

  ghost predicate Serial(log: seq<Event>, xs: seq<Section>, ok: bool) {
    OffLoop(log) == RenderAll(xs) + Partial(PhaseOf(log), ok)
  }

  lemma PartialGrows(ph: Phase, e: Event, ok: bool)
    requires Advance(ph, e) != Rejected && !OfLoop(e)
    ensures if e.Returned? then Partial(ph, ok) + [e] == Render(Section(ph.t, ph.c, ph.p, ok))
            else Partial(ph, ok) + [e] == Partial(Advance(ph, e), e.Completed?)
  {
  }

  lemma OffLoopSnoc(log: seq<Event>, e: Event)
    ensures OffLoop(log + [e]) == if OfLoop(e) then OffLoop(log) else OffLoop(log) + [e]
  {
    assert (log + [e])[..|log|] == log;
  }

  lemma SectionCloses(xs: seq<Section>, ph: Phase, ok: bool, e: Event)
    requires Advance(ph, e) != Rejected && e.Returned?
    ensures RenderAll(xs) + Partial(ph, ok) + [e] == RenderAll(xs + [Section(ph.t, ph.c, ph.p, ok)])
  {
    PartialGrows(ph, e, ok);
    var x := Section(ph.t, ph.c, ph.p, ok);
    assert (xs + [x])[..|xs|] == xs;
    assert RenderAll(xs) + (Partial(ph, ok) + [e]) == RenderAll(xs) + Partial(ph, ok) + [e];
  }

  lemma SectionGoesOn(xs: seq<Section>, ph: Phase, ok: bool, e: Event)
    requires Advance(ph, e) != Rejected && !e.Returned? && !OfLoop(e)
    ensures RenderAll(xs) + Partial(ph, ok) + [e] == RenderAll(xs) + Partial(Advance(ph, e), e.Completed?)
  {
    PartialGrows(ph, e, ok);
    assert RenderAll(xs) + (Partial(ph, ok) + [e]) == RenderAll(xs) + Partial(ph, ok) + [e];
  }

  lemma SerialGrows(log: seq<Event>, e: Event, xs: seq<Section>, ok: bool)
    requires Serial(log, xs, ok) && PhaseOf(log + [e]) != Rejected
    ensures exists xs', ok' :: Serial(log + [e], xs', ok')
  {
    PhaseSnoc(log, e);
    OffLoopSnoc(log, e);
    var ph := PhaseOf(log);
    if OfLoop(e) {
      assert Serial(log + [e], xs, ok);
    } else if e.Returned? {
      SectionCloses(xs, ph, ok, e);
      var ys := xs + [Section(ph.t, ph.c, ph.p, ok)];
      assert RenderAll(ys) + [] == RenderAll(ys);
      assert Serial(log + [e], ys, ok);
    } else {
      SectionGoesOn(xs, ph, ok, e);
      assert Serial(log + [e], xs, e.Completed?);
    }
  }

  lemma {:induction false} AcceptedIsSerial(log: seq<Event>)
    requires PhaseOf(log) != Rejected
    ensures exists xs, ok :: Serial(log, xs, ok)
  {
    if log == [] {
      assert Serial(log, [], true);
    } else {
      var before := log[..|log| - 1];
      AcceptedIsSerial(before);
      var xs, ok :| Serial(before, xs, ok);
      assert before + [log[|log| - 1]] == log;
      SerialGrows(before, log[|log| - 1], xs, ok);
    }
  }

  /** Blocking sends linearize: whenever the mutex is free, what all threads did is a sequence of whole sends,
      each writing its own payload on its own connection, waiting for that write, and only then returning. */
  lemma SendsLinearize(n: nat, m: nat, s: State)
    requires Reachable(Sending(n, m), s)
    ensures exists xs, ok :: Serial(s.log, xs, ok)
    ensures s.holder == None ==> exists xs :: OffLoop(s.log) == RenderAll(xs)
  {
    EveryRunKeepsInv(n, m);
    AcceptedIsSerial(s.log);
    if s.holder == None {
      var xs, ok :| Serial(s.log, xs, ok);
      assert RenderAll(xs) + [] == RenderAll(xs);
    }
  }

  /** When a thread has just returned from its send, the last send of that sequence is its own. */
  lemma ReturnedLast(n: nat, m: nat, s: State, t: nat, c: nat, p: nat)
    requires Reachable(Sending(n, m), s) && s.holder == None
    requires s.log != [] && s.log[|s.log| - 1] == Returned(t, c, p)
    ensures exists xs, ok :: OffLoop(s.log) == RenderAll(xs + [Section(t, c, p, ok)])
  {
    SendsLinearize(n, m, s);
    var xs :| OffLoop(s.log) == RenderAll(xs);
    var all := RenderAll(xs);
    assert all[|all| - 1] == Returned(t, c, p);
    var last := xs[|xs| - 1];
    assert all[|all| - 1] == Render(last)[|Render(last)| - 1] == Returned(last.t, last.c, last.p);
    assert last == Section(t, c, p, last.ok);
    assert xs[..|xs| - 1] + [Section(t, c, p, last.ok)] == xs;
  }

  predicate OfThread(t: nat, a: Action) {
    !LoopAction(a) && a.t == t
  }

  /** Nobody else moves a thread. */
  lemma OthersLeave(s: State, a: Action, t: nat)
    requires Enabled(s, a) && !OfThread(t, a) && t < |s.senders|
    ensures |Next(s, a).senders| == |s.senders| && Next(s, a).senders[t] == s.senders[t]
  {
  }

  /** Where a statement between taking the mutex and sleeping leaves its thread. */
  function Reached(a: Action): Pc {
    match a
    case SetFlag(_) => Flagged
    case Publish(_) => Published
    case Aim(_) => Aimed
    case _ => Waiting
  }

  // ------------------------------------------------------------------ progress

  function StepsLeft(x: Sender): nat {
    match x.pc
    case Idle => 0
    case Woken => 1
    case Waiting => 2
    case Aimed => 5
    case Published => 6
    case Flagged => 7
    case Holding => 8
    case Entered => 9
  }

  function Queued(k: Conn): nat {
    |k.queue|
  }

  function Rank(s: State): nat {
    Sum(StepsLeft, s.senders) + (if s.pending then 2 else 0) + Sum(Queued, s.conns)
  }

  /** Every action that carries sends already begun; only new calls are not among them. */
  predicate Serves(a: Action) {
    !a.Call? && !a.LoopSend?
  }

  lemma LoopDescends(s: State, a: Action)
    requires Enabled(s, a) && (a.AsyncCb? || a.WriteDone?)
    ensures Rank(Next(s, a)) < Rank(s)
  {
    var s' := Next(s, a);
    if a.WriteDone? {
      SumUpdate(Queued, s.conns, a.c, s'.conns[a.c]);
    } else if s.target.Some? && s.target.value < |s.conns| {
      SumUpdate(Queued, s.conns, s.target.value, s'.conns[s.target.value]);
    }
  }

  lemma CallerDescends(s: State, a: Action)
    requires Enabled(s, a) && Serves(a) && !a.AsyncCb? && !a.WriteDone?
    ensures Rank(Next(s, a)) < Rank(s)
  {
    var s' := Next(s, a);
    SumUpdate(StepsLeft, s.senders, a.t, s'.senders[a.t]);
    if a.SetFlag? || a.Publish? {
      var c := s.senders[a.t].conn;
      SumUpdate(Queued, s.conns, c, s'.conns[c]);
    }
  }

  lemma ServingDescends(s: State, a: Action)
    requires Enabled(s, a) && Serves(a)
    ensures Rank(Next(s, a)) < Rank(s)
  {
    if a.AsyncCb? || a.WriteDone? {
      LoopDescends(s, a);
    } else {
      CallerDescends(s, a);
    }
  }

  predicate AllIdle(s: State) {
    forall t | 0 <= t < |s.senders| :: s.senders[t].pc == Idle
  }

  /** The step that the thread holding the mutex is waiting for. */
  function ServiceOf(s: State, t: nat, c: nat): Action
    requires t < |s.senders|
  {
    match s.senders[t].pc
    case Holding => SetFlag(t)
    case Flagged => Publish(t)
    case Published => Aim(t)
    case Aimed => Signal(t)
    case Woken => Unlock(t)
    case _ => if s.pending then AsyncCb(true) else if s.sem > 0 then Wake(t) else WriteDone(c)
  }

  lemma HolderIsServed(s: State)
    requires Inv(s) && s.holder.Some?
    ensures s.holder.value < |s.senders|
    ensures var t := s.holder.value;
            var a := ServiceOf(s, t, s.senders[t].conn);
            Disciplined(s, a) && Serves(a) && ForHolder(s, a)
  {
  }

  lemma WorkLeftIsServed(s: State)
    requires Inv(s) && !AllIdle(s)
    ensures exists a :: Serves(a) && Disciplined(s, a)
  {
    if s.holder.Some? {
      HolderIsServed(s);
    } else {
      var t :| 0 <= t < |s.senders| && s.senders[t].pc != Idle;
      assert Disciplined(s, Lock(t));
    }
  }

  /** From every reachable state, however the threads and the loop are scheduled, the calls already made all
      return after at most `Rank(s)` steps: such a schedule can stop only when every caller is idle. */
  lemma EveryCallReturns(n: nat, m: nat, s: State, acts: seq<Action>)
    requires Reachable(Sending(n, m), s) && Schedule(Sending(n, m), Serves, s, acts)
    ensures |acts| <= Rank(s)
    ensures var z := After(Sending(n, m), s, acts);
            Stalled(Sending(n, m), Serves, z) ==> AllIdle(z) && z.holder == None
  {
    EveryRunKeepsInv(n, m);
    forall z, a | Inv(z) && Serves(a) && Disciplined(z, a) ensures Inv(Next(z, a)) && Rank(Next(z, a)) < Rank(z) {
      StepKeepsInv(z, a);
      ServingDescends(z, a);
    }
    ScheduleIsBounded(Sending(n, m), Serves, Inv, Rank, s, acts);
    var z := After(Sending(n, m), s, acts);
    if !AllIdle(z) {
      WorkLeftIsServed(z);
    }
  }

  /** What is left of the section of the thread that holds the mutex. */
  function HolderRank(s: State): nat {
    if s.holder == None || s.holder.value >= |s.senders| then 0
    else
      var x := s.senders[s.holder.value];
      StepsLeft(x) + (if s.pending then 2 else 0) + (if x.conn < |s.conns| then Owed(s.conns[x.conn]) else 0)
  }

  /** The steps that advance the mutex holder: its own, and the loop's on its behalf. */
  predicate ForHolder(s: State, a: Action) {
    match a
    case SetFlag(_) | Publish(_) | Aim(_) | Signal(_) | Wake(_) | Unlock(_) | AsyncCb(_) => true
    case WriteDone(c) => c < |s.conns| && s.conns[c].flag
    case _ => false
  }

  lemma CallIsHarmless(s: State, a: Action)
    requires Inv(s) && s.holder.Some? && Disciplined(s, a) && (a.Call? || a.Lock?)
    ensures HolderRank(Next(s, a)) == HolderRank(s)
  {
    assert s.holder == Some(s.holder.value);
  }

  lemma CallerRankFalls(s: State, a: Action)
    requires Inv(s) && s.holder.Some? && Disciplined(s, a) && !LoopAction(a)
    ensures HolderRank(Next(s, a)) <= HolderRank(s)
    ensures ForHolder(s, a) <==> HolderRank(Next(s, a)) < HolderRank(s)
  {
    if a.Call? || a.Lock? {
      CallIsHarmless(s, a);
    } else if a.SetFlag? {
      PushPop(s.conns[s.senders[a.t].conn], Null);
    }
  }

  lemma LoopRankFalls(s: State, a: Action)
    requires Inv(s) && s.holder.Some? && Disciplined(s, a) && LoopAction(a)
    ensures HolderRank(Next(s, a)) <= HolderRank(s)
    ensures ForHolder(s, a) <==> HolderRank(Next(s, a)) < HolderRank(s)
  {
    assert s.senders[s.holder.value].pc != Idle;
  }

  /** New calls and other connections' traffic cannot set the lock holder back, and some step always serves it. */
  lemma HolderAdvances(n: nat, m: nat, s: State, a: Action)
    requires Reachable(Sending(n, m), s) && s.holder.Some? && Disciplined(s, a)
    ensures HolderRank(Next(s, a)) <= HolderRank(s)
    ensures ForHolder(s, a) <==> HolderRank(Next(s, a)) < HolderRank(s)
    ensures exists b :: ForHolder(s, b) && Disciplined(s, b)
  {
    EveryRunKeepsInv(n, m);
    if LoopAction(a) {
      LoopRankFalls(s, a);
    } else {
      CallerRankFalls(s, a);
    }
    HolderIsServed(s);
  }

  // ------------------------------------------------------------------ the caller's half of one send

  /** State `s` once thread `t` has come as far as `pc` in sending `p` on `c`, everybody else standing still. */
  function Midway(s: State, t: nat, c: nat, p: nat, pc: Pc): State
    requires t < |s.senders| && c < |s.conns|
  {
    var k := s.conns[c];
    var begun := pc == Entered;
    var early := begun || pc == Holding || pc == Flagged;
    s.(senders := s.senders[t := Sender(pc, c, p)],
       conns := s.conns[c := Conn(k.flag || (!begun && pc != Holding),
                                  if early then k.data2 else Buf(Thread(t), p), k.queue)],
       holder := if begun then s.holder else Some(t),
       target := if pc == Aimed || pc == Waiting then Some(c) else s.target,
       pending := s.pending || pc == Waiting,
       log := if begun then s.log else s.log + [Locked(t, c, p)])
  }

  function HalfAction(t: nat, pc: Pc): Action {
    match pc
    case Entered => Lock(t)
    case Holding => SetFlag(t)
    case Flagged => Publish(t)
    case Published => Aim(t)
    case _ => Signal(t)
  }

  function HalfNext(pc: Pc): Pc {
    match pc
    case Entered => Holding
    case Holding => Flagged
    case Flagged => Published
    case Published => Aimed
    case _ => Waiting
  }

  lemma HalfBegins(s: State, t: nat, c: nat, p: nat)
    requires t < |s.senders| && c < |s.conns| && s.senders[t].pc == Idle
    ensures Enabled(s, Call(t, c, p)) && Next(s, Call(t, c, p)) == Midway(s, t, c, p, Entered)
  {
    assert s.conns[c := s.conns[c]] == s.conns;
  }

  lemma HalfStep(s: State, t: nat, c: nat, p: nat, pc: Pc)
    requires t < |s.senders| && c < |s.conns| && s.holder == None
    requires pc == Entered || pc == Holding || pc == Flagged || pc == Published || pc == Aimed
    ensures Enabled(Midway(s, t, c, p, pc), HalfAction(t, pc))
    ensures Next(Midway(s, t, c, p, pc), HalfAction(t, pc)) == Midway(s, t, c, p, HalfNext(pc))
  {
  }
}
