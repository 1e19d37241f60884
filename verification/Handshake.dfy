/**
 The hand-over of a caller's buffer to the loop thread, as TCP servers, TCP clients and UDP sockets do it.

 Any number of threads call the send function of any number of connections. A caller on another thread takes
 the mutex, marks the connection, publishes a buffer that lives on its own stack, raises the loop's send event
 and sleeps on the semaphore; the loop thread writes the buffer and posts the semaphore when the write has
 completed. A caller on the loop thread writes at once and never posts.
 */
module Handshake {
  import opened Machines

  /** Who owns the stack frame that a published buffer lives in. */
  datatype Owner = Loop | Thread(tid: nat)

  datatype Buf = Null | Buf(owner: Owner, payload: nat)

  /** Where a thread stands in the send function; each name says what it has just done. */
  datatype Pc = Idle | Entered | Holding | Flagged | Published | Aimed | Waiting | Woken

  datatype Sender = Sender(pc: Pc, conn: nat, payload: nat)

  /** `queue` holds the writes handed to the stream and not yet completed, oldest first. */
  datatype Conn = Conn(flag: bool, data2: Buf, queue: seq<Buf>)

  datatype Event =
    | Locked(t: nat, c: nat, p: nat)
    | Wrote(c: nat, b: Buf)
    | Completed(c: nat, b: Buf)
    | Failed(c: nat, b: Buf)
    | Returned(t: nat, c: nat, p: nat)
    | WildRead

  /** `target` is the `data` field of the send event, which at first points at no connection. */
  datatype State = State(
    senders: seq<Sender>,
    conns: seq<Conn>,
    holder: Option<nat>,
    target: Option<nat>,
    pending: bool,
    sem: nat,
    log: seq<Event>)

  datatype Action =
    | Call(t: nat, c: nat, p: nat)
    | Lock(t: nat)
    | SetFlag(t: nat)
    | Publish(t: nat)
    | Aim(t: nat)
    | Signal(t: nat)
    | Wake(t: nat)
    | Unlock(t: nat)
    | AsyncCb(ok: bool)
    | WriteDone(c: nat)
    | LoopSend(c: nat, p: nat, ok: bool)

  predicate At(s: State, t: nat, pc: Pc) {
    t < |s.senders| && s.senders[t].pc == pc && s.senders[t].conn < |s.conns|
  }

  predicate Enabled(s: State, a: Action) {
    match a
    case Call(t, c, p) => t < |s.senders| && c < |s.conns| && s.senders[t].pc == Idle
    case Lock(t) => At(s, t, Entered) && s.holder == None
    case SetFlag(t) => At(s, t, Holding)
    case Publish(t) => At(s, t, Flagged)
    case Aim(t) => At(s, t, Published)
    case Signal(t) => At(s, t, Aimed)
    case Wake(t) => At(s, t, Waiting) && s.sem > 0
    case Unlock(t) => At(s, t, Woken)
    case AsyncCb(ok) => s.pending
    case WriteDone(c) => c < |s.conns| && s.conns[c].queue != []
    case LoopSend(c, p, ok) => c < |s.conns|
  }

  function SetConn(s: State, c: nat, k: Conn): State
    requires c < |s.conns|
  {
    s.(conns := s.conns[c := k])
  }

  function MoveTo(s: State, t: nat, pc: Pc): State
    requires t < |s.senders|
  {
    s.(senders := s.senders[t := s.senders[t].(pc := pc)])
  }

  function Note(s: State, e: Event): State {
    s.(log := s.log + [e])
  }

  function Post(s: State, flag: bool): State {
    if flag then s.(sem := s.sem + 1) else s
  }

  /** The loop thread's `send_data`; `ok` says whether the write request could be allocated. */
  function SendData(s: State, c: nat, ok: bool): State
    requires c < |s.conns|
  {
    var k := s.conns[c];
    if ok then Note(SetConn(s, c, k.(queue := k.queue + [k.data2])), Wrote(c, k.data2))
    else Post(Note(s, Failed(c, k.data2)), k.flag)
  }

  function Next(s: State, a: Action): State {
    if !Enabled(s, a) then s else
      match a
      case Call(t, c, p) => s.(senders := s.senders[t := Sender(Entered, c, p)])
      case Lock(t) =>
        var me := s.senders[t];
        Note(MoveTo(s, t, Holding).(holder := Some(t)), Locked(t, me.conn, me.payload))
      case SetFlag(t) =>
        var c := s.senders[t].conn;
        SetConn(MoveTo(s, t, Flagged), c, s.conns[c].(flag := true))
      case Publish(t) =>
        var me := s.senders[t];
        SetConn(MoveTo(s, t, Published), me.conn, s.conns[me.conn].(data2 := Buf(Thread(t), me.payload)))
      case Aim(t) => MoveTo(s, t, Aimed).(target := Some(s.senders[t].conn))
      case Signal(t) => MoveTo(s, t, Waiting).(pending := true)
      case Wake(t) => MoveTo(s, t, Woken).(sem := s.sem - 1)
      case Unlock(t) =>
        var me := s.senders[t];
        Note(MoveTo(s, t, Idle).(holder := None), Returned(t, me.conn, me.payload))
      case AsyncCb(ok) =>
        var s' := s.(pending := false);
        if s.target.Some? && s.target.value < |s.conns| then SendData(s', s.target.value, ok)
        else Note(s', WildRead)
      case WriteDone(c) =>
        var k := s.conns[c];
        Post(Note(SetConn(s, c, k.(queue := k.queue[1..])), Completed(c, k.queue[0])), k.flag)
      case LoopSend(c, p, ok) =>
        SendData(SetConn(s, c, s.conns[c].(flag := false, data2 := Buf(Loop, p))), c, ok)
  }

  /** `n` threads and `m` connections, nothing under way. */
  function Start(n: nat, m: nat): State {
    State(seq(n, i => Sender(Idle, 0, 0)), seq(m, i => Conn(false, Null, [])), None, None, false, 0, [])
  }

  // ------------------------------------------------------------------ the discipline

  predicate FromLoop(b: Buf) {
    b.Buf? && b.owner == Loop
  }

  predicate LoopWriteQueued(k: Conn) {
    exists i :: 0 <= i < |k.queue| && FromLoop(k.queue[i])
  }

  predicate CalledOn(s: State, c: nat) {
    exists t :: 0 <= t < |s.senders| && s.senders[t].pc != Idle && s.senders[t].conn == c
  }

  /** The loop thread and other threads do not use one connection at overlapping times, queued writes included. */
  predicate Disciplined(s: State, a: Action) {
    && Enabled(s, a)
    && (a.Call? ==> !LoopWriteQueued(s.conns[a.c]))
    && (a.LoopSend? ==> !CalledOn(s, a.c))
  }

  function Sending(n: nat, m: nat): Machine<State, Action> {
    Machine(Start(n, m), Disciplined, Next)
  }

  // ------------------------------------------------------------------ the sequential specification

  /** One caller at a time: it holds the mutex, its buffer is written, the write is over, it returns. */
  datatype Phase =
    | Free
    | Held(t: nat, c: nat, p: nat)
    | Written(t: nat, c: nat, p: nat)
    | Over(t: nat, c: nat, p: nat)
    | Rejected

  function Advance(ph: Phase, e: Event): Phase {
    match e
    case Locked(t, c, p) => if ph.Free? then Held(t, c, p) else Rejected
    case Wrote(c, b) =>
      if FromLoop(b) then ph
      else if ph.Held? && c == ph.c && b == Buf(Thread(ph.t), ph.p) then Written(ph.t, ph.c, ph.p)
      else Rejected
    case Completed(c, b) =>
      if FromLoop(b) then ph
      else if ph.Written? && c == ph.c && b == Buf(Thread(ph.t), ph.p) then Over(ph.t, ph.c, ph.p)
      else Rejected
    case Failed(c, b) =>
      if FromLoop(b) then ph
      else if ph.Held? && c == ph.c && b == Buf(Thread(ph.t), ph.p) then Over(ph.t, ph.c, ph.p)
      else Rejected
    case Returned(t, c, p) => if ph == Over(t, c, p) then Free else Rejected
    case WildRead => Rejected
  }

  function PhaseOf(log: seq<Event>): Phase {
    if log == [] then Free else Advance(PhaseOf(log[..|log| - 1]), log[|log| - 1])
  }

  lemma PhaseSnoc(log: seq<Event>, e: Event)
    ensures PhaseOf(log + [e]) == Advance(PhaseOf(log), e)
  {
    assert (log + [e])[..|log|] == log;
  }

  // ------------------------------------------------------------------ the invariant

  predicate InSection(pc: Pc) {
    pc != Idle && pc != Entered
  }

  /** Only loop-thread writes are queued, and none that a caller would mistake for its own. */
  predicate Clean(k: Conn) {
    && (forall i | 0 <= i < |k.queue| :: FromLoop(k.queue[i]))
    && (k.flag ==> k.queue == [])
  }

  predicate CleanBut(s: State, c: int) {
    forall i | 0 <= i < |s.conns| && i != c :: Clean(s.conns[i])
  }

  /** What thread `t`, holding the mutex for a send of `p` on `c`, has set up so far. */
  predicate HolderSetup(s: State, t: nat, c: nat, p: nat) {
    && s.holder == Some(t) && t < |s.senders| && c < |s.conns|
    && s.senders[t].conn == c && s.senders[t].payload == p
    && var pc := s.senders[t].pc;
    && InSection(pc)
    && (pc != Holding ==> s.conns[c].flag)
    && (pc != Holding && pc != Flagged ==> s.conns[c].data2 == Buf(Thread(t), p))
    && (pc != Holding && pc != Flagged && pc != Published ==> s.target == Some(c))
  }

  predicate PhaseFits(s: State, ph: Phase) {
    match ph
    case Free =>
      s.holder == None && !s.pending && s.sem == 0 && CleanBut(s, -1)
    case Held(t, c, p) =>
      && HolderSetup(s, t, c, p) && s.senders[t].pc != Woken
      && (s.pending <==> s.senders[t].pc == Waiting) && s.sem == 0 && CleanBut(s, -1)
    case Written(t, c, p) =>
      && HolderSetup(s, t, c, p) && s.senders[t].pc == Waiting
      && !s.pending && s.sem == 0 && CleanBut(s, c)
      && s.conns[c].queue == [Buf(Thread(t), p)]
    case Over(t, c, p) =>
      && HolderSetup(s, t, c, p) && !s.pending && CleanBut(s, -1)
      && ((s.senders[t].pc == Waiting && s.sem == 1) || (s.senders[t].pc == Woken && s.sem == 0))
    case Rejected => false
  }

  predicate SendersFit(s: State) {
    forall t | 0 <= t < |s.senders| ::
      && (InSection(s.senders[t].pc) ==> s.holder == Some(t))
      && (s.senders[t].pc != Idle ==> s.senders[t].conn < |s.conns| && !LoopWriteQueued(s.conns[s.senders[t].conn]))
  }

  predicate Inv(s: State) {
    SendersFit(s) && PhaseFits(s, PhaseOf(s.log))
  }

  lemma LogGrows(s: State, a: Action)
    ensures Next(s, a).log == s.log || (|Next(s, a).log| == |s.log| + 1 && Next(s, a).log[..|s.log|] == s.log)
    ensures PhaseOf(Next(s, a).log) ==
            if Next(s, a).log == s.log then PhaseOf(s.log) else Advance(PhaseOf(s.log), Next(s, a).log[|s.log|])
  {
  }

  lemma PushPop(k: Conn, b: Buf)
    ensures LoopWriteQueued(k.(queue := k.queue + [b])) <==> LoopWriteQueued(k) || FromLoop(b)
    ensures k.queue != [] && LoopWriteQueued(k.(queue := k.queue[1..])) ==> LoopWriteQueued(k)
    ensures k.queue != [] && Clean(k) ==> Clean(k.(queue := k.queue[1..]))
    ensures Clean(k) ==> k.queue == [] || LoopWriteQueued(k)
  {
    var more := k.(queue := k.queue + [b]);
    assert more.queue[|k.queue|] == b;
    assert forall i | 0 <= i < |k.queue| :: more.queue[i] == k.queue[i];
    if k.queue != [] && Clean(k) {
      assert FromLoop(k.queue[0]);
    }
  }

  predicate LoopAction(a: Action) {
    a.AsyncCb? || a.WriteDone? || a.LoopSend?
  }

  lemma CallerStepFits(s: State, a: Action)
    requires Inv(s) && Disciplined(s, a) && !LoopAction(a)
    ensures SendersFit(Next(s, a))
  {
  }

  lemma LoopStepFits(s: State, a: Action)
    requires Inv(s) && Disciplined(s, a) && LoopAction(a)
    ensures SendersFit(Next(s, a))
  {
    var c := if a.AsyncCb? then s.target.value else a.c;
    PushPop(s.conns[c], s.conns[c].data2);
    assert forall i | 0 <= i < |s.conns| && i != c :: Next(s, a).conns[i] == s.conns[i];
  }

  lemma CallerStepKeepsInv(s: State, a: Action)
    requires Inv(s) && Disciplined(s, a) && (a.Call? || a.Lock? || a.Wake? || a.Unlock?)
    ensures PhaseFits(Next(s, a), PhaseOf(Next(s, a).log))
  {
    LogGrows(s, a);
  }

  lemma SetupStepKeepsInv(s: State, a: Action)
    requires Inv(s) && Disciplined(s, a) && (a.SetFlag? || a.Publish? || a.Aim? || a.Signal?)
    ensures PhaseFits(Next(s, a), PhaseOf(Next(s, a).log))
  {
    if a.SetFlag? {
      PushPop(s.conns[s.senders[a.t].conn], Null);  // the connection the caller marks has no write queued
    }
  }

  lemma AsyncCbKeepsInv(s: State, ok: bool)
    requires Inv(s) && s.pending
    ensures PhaseFits(Next(s, AsyncCb(ok)), PhaseOf(Next(s, AsyncCb(ok)).log))
  {
    LogGrows(s, AsyncCb(ok));
  }

  lemma WriteDoneKeepsInv(s: State, c: nat)
    requires Inv(s) && Disciplined(s, WriteDone(c))
    ensures PhaseFits(Next(s, WriteDone(c)), PhaseOf(Next(s, WriteDone(c)).log))
  {
    LogGrows(s, WriteDone(c));
    PushPop(s.conns[c], Null);
  }

  lemma LoopSendKeepsInv(s: State, c: nat, p: nat, ok: bool)
    requires Inv(s) && Disciplined(s, LoopSend(c, p, ok))
    ensures PhaseFits(Next(s, LoopSend(c, p, ok)), PhaseOf(Next(s, LoopSend(c, p, ok)).log))
  {
    LogGrows(s, LoopSend(c, p, ok));
    assert forall t | 0 <= t < |s.senders| && s.senders[t].pc != Idle :: s.senders[t].conn != c;
  }

  lemma StepKeepsInv(s: State, a: Action)
    requires Inv(s) && Disciplined(s, a)
    ensures Inv(Next(s, a))
  {
    if LoopAction(a) {
      LoopStepFits(s, a);
    } else {
      CallerStepFits(s, a);
    }
    match a
    case Call(_, _, _) | Lock(_) | Wake(_) | Unlock(_) => CallerStepKeepsInv(s, a);
    case SetFlag(_) | Publish(_) | Aim(_) | Signal(_) => SetupStepKeepsInv(s, a);
    case AsyncCb(ok) => AsyncCbKeepsInv(s, ok);
    case WriteDone(c) => WriteDoneKeepsInv(s, c);
    case LoopSend(c, p, ok) => LoopSendKeepsInv(s, c, p, ok);
  }
}
