/**
 The message queue: senders copy their data into a heap block and pass its address through a kernel queue to one
 worker thread, which hands it to a callback and frees it. Destroying the queue clears the running flag, removes
 the kernel queue, which wakes everybody blocked on it, and joins the worker.
 */
module MsgQueue {
  import opened Machines

  /** A heap block: `data` was copied in before the block was passed on, and nobody writes it later. */
  datatype Block = Block(id: nat, data: seq<nat>)

  /** What a queued message holds. Only `Good` ones come from `msg_send`; the others have the wrong size or no block. */
  datatype Body = Good(block: Block) | NoBlock | Short | Long

  datatype Msg = Msg(mtype: int, body: Body)

  datatype Caller = Ready | InSend(msg: Msg)

  /** The worker: about to test the flag, about to receive, blocked, retrying after a message that was too long,
      holding a block, running the callback on it, or gone. */
  datatype Worker = Checking | Receiving | Blocked | Retrying | Got(block: Block) | InCallback(block: Block) | Exited

  /** Who is answerable for a block. */
  datatype Place = WithCaller(t: nat) | InQueue | WithWorker | Freed | Dropped

  /** `places` and `frees` say, of every block ever allocated, where it is and how often it was freed;
      `lost` are the contents of what was queued when the queue was removed. */
  datatype State = State(
    callers: seq<Caller>,
    queue: seq<Msg>,
    cap: Option<nat>,
    worker: Worker,
    running: bool,
    removed: bool,
    places: seq<Place>,
    frees: seq<nat>,
    sent: seq<seq<nat>>,
    delivered: seq<seq<nat>>,
    lost: seq<seq<nat>>)

  datatype Action =
    | Send(t: nat, data: seq<nat>, mtype: int, ok: bool)
    | Msgsnd(t: nat)
    | SendInterrupt(t: nat)
    | Foreign(msg: Msg)
    | Check
    | Receive
    | Sleep
    | Interrupt
    | Gone(eidrm: bool)
    | StartCb
    | EndCb
    | Clear
    | Rmid

  predicate Room(s: State) {
    s.cap.Some? ==> |s.queue| < s.cap.value
  }

  /** A signal ends a `msgsnd` that sleeps, or that has slept and finds room now; the state does not tell the latter
      from one about to be made, so a signal may end that one too. */
  predicate Enabled(s: State, a: Action) {
    match a
    case Send(t, data, mtype, ok) => t < |s.callers| && s.callers[t].Ready?
    case Msgsnd(t) => t < |s.callers| && s.callers[t].InSend? && (s.removed || Room(s))
    case SendInterrupt(t) => t < |s.callers| && s.callers[t].InSend? && !s.removed
    case Foreign(m) => !s.removed && Room(s) && !m.body.Good?
    case Check => s.worker.Checking?
    case Receive => (s.worker.Receiving? || s.worker.Blocked? || s.worker.Retrying?) && !s.removed && s.queue != []
    case Sleep => s.worker.Receiving? && !s.removed && s.queue == []
    case Interrupt => s.worker.Blocked?
    case Gone(eidrm) => (s.worker.Receiving? || (s.worker.Blocked? && eidrm) || s.worker.Retrying?) && s.removed
    case StartCb => s.worker.Got?
    case EndCb => s.worker.InCallback?
    case Clear => s.running
    case Rmid => !s.running && !s.removed
  }

  /** The message types of `msg_send`: the kernel wants a positive one. */
  function TypeFor(mtype: int): (kept: int)
    ensures kept > 0 && (mtype > 0 ==> kept == mtype)
  {
    if mtype <= 0 then 1 else mtype
  }

  /** What `msg_thread` does with a message it has taken: one of the right size that carries a block is handled. */
  function Taken(body: Body): Worker {
    if body.Good? then Got(body.block) else Checking
  }

  function Piece(body: Body): seq<seq<nat>> {
    if body.Good? then [body.block.data] else []
  }

  /** The contents of the blocks in a kernel queue, in queue order. */
  function Contents(ms: seq<Msg>): seq<seq<nat>> {
    if ms == [] then [] else Contents(ms[..|ms| - 1]) + Piece(ms[|ms| - 1].body)
  }

  function MoveBlock(s: State, body: Body, to: Place): State {
    if body.Good? && body.block.id < |s.places| then s.(places := s.places[body.block.id := to]) else s
  }

  function Free(s: State, body: Body): State {
    if body.Good? && body.block.id < |s.places| == |s.frees| then
      s.(places := s.places[body.block.id := Freed], frees := s.frees[body.block.id := s.frees[body.block.id] + 1])
    else s
  }

  function Next(s: State, a: Action): State {
    if !Enabled(s, a) then s else
      match a
      case Send(t, data, mtype, ok) =>
        if ok then
          s.(callers := s.callers[t := InSend(Msg(TypeFor(mtype), Good(Block(|s.places|, data))))],
             places := s.places + [WithCaller(t)], frees := s.frees + [0])
        else s
      case Msgsnd(t) =>
        var m := s.callers[t].msg;
        var s' := s.(callers := s.callers[t := Ready]);
        if s.removed then Free(s', m.body)
        else MoveBlock(s'.(queue := s.queue + [m], sent := s.sent + Piece(m.body)), m.body, InQueue)
      case SendInterrupt(t) => Free(s.(callers := s.callers[t := Ready]), s.callers[t].msg.body)
      case Foreign(m) => s.(queue := s.queue + [m])
      case Check => s.(worker := if s.running then Receiving else Exited)
      case Receive =>
        if s.worker.Retrying? then s.(queue := s.queue[1..], worker := Checking)
        else if s.queue[0].body.Long? then s.(worker := Retrying)
        else MoveBlock(s.(queue := s.queue[1..], worker := Taken(s.queue[0].body)), s.queue[0].body, WithWorker)
      case Sleep => s.(worker := Blocked)
      case Interrupt => s.(worker := Checking)
      case Gone(eidrm) => s.(worker := if eidrm && !s.worker.Retrying? then Exited else Checking)
      case StartCb => s.(worker := InCallback(s.worker.block), delivered := s.delivered + [s.worker.block.data])
      case EndCb => Free(s.(worker := Checking), Good(s.worker.block))
      case Clear => s.(running := false)
      case Rmid =>
        s.(removed := true, queue := [], lost := Contents(s.queue),
           places := seq(|s.places|, i requires 0 <= i < |s.places| =>
             if s.places[i] == InQueue then Dropped else s.places[i]))
  }

  function Start(n: nat, cap: Option<nat>): State {
    State(seq(n, i => Ready), [], cap, Checking, true, false, [], [], [], [], [])
  }

  function Mailbox(n: nat, cap: Option<nat>): Machine<State, Action> {
    Machine(Start(n, cap), Enabled, Next)
  }

  // ------------------------------------------------------------------ who owns which block

  predicate Owns(s: State, body: Body, place: Place) {
    body.Good? ==> body.block.id < |s.places| && s.places[body.block.id] == place
  }

  /** Every block that somebody can still reach is in that one place, hence not freed; none is freed twice. */
  predicate Owned(s: State) {
    && |s.frees| == |s.places|
    && (forall i | 0 <= i < |s.frees| :: s.frees[i] == if s.places[i] == Freed then 1 else 0)
    && (forall t | 0 <= t < |s.callers| && s.callers[t].InSend? ::
          s.callers[t].msg.body.Good? && Owns(s, s.callers[t].msg.body, WithCaller(t)))
    && (forall i | 0 <= i < |s.queue| :: Owns(s, s.queue[i].body, InQueue))
    && (forall i, j | 0 <= i < j < |s.queue| && s.queue[i].body.Good? && s.queue[j].body.Good? ::
          s.queue[i].body.block.id != s.queue[j].body.block.id)
    && (s.worker.Got? || s.worker.InCallback? ==> Owns(s, Good(s.worker.block), WithWorker))
  }

  function OnTheWay(s: State): seq<seq<nat>> {
    (if s.worker.Got? then [s.worker.block.data] else []) + (Contents(s.queue) + s.lost)
  }

  /** What was sent is what was delivered, then what is on its way, then what the removal dropped. */
  predicate InOrder(s: State) {
    s.sent == s.delivered + OnTheWay(s)
  }

  predicate Settled(s: State) {
    && (s.removed ==> s.queue == [] && !s.running)
    && (!s.removed ==> s.lost == [])
    && (s.worker.Retrying? && !s.removed ==> s.queue != [] && s.queue[0].body.Long?)
    && (s.worker.Exited? ==> !s.running)
  }

  predicate Inv(s: State) {
    Owned(s) && InOrder(s) && Settled(s)
  }

  lemma SettledKept(s: State, a: Action)
    requires Settled(s) && Enabled(s, a)
    ensures Settled(Next(s, a))
  {
  }

  lemma SendKeepsOwners(s: State, t: nat, data: seq<nat>, mtype: int)
    requires Owned(s) && Enabled(s, Send(t, data, mtype, true))
    ensures Owned(Next(s, Send(t, data, mtype, true)))
  {
    var s' := Next(s, Send(t, data, mtype, true));
    assert forall i | 0 <= i < |s.places| :: s'.places[i] == s.places[i];
  }

  lemma MsgsndKeepsOwners(s: State, t: nat)
    requires Owned(s) && Enabled(s, Msgsnd(t))
    ensures Owned(Next(s, Msgsnd(t)))
  {
    var s' := Next(s, Msgsnd(t));
    var id := s.callers[t].msg.body.block.id;
    assert forall i | 0 <= i < |s.places| && i != id :: s'.places[i] == s.places[i];
    if !s.removed {
      assert forall i | 0 <= i < |s'.queue| :: s'.queue[i] == if i < |s.queue| then s.queue[i] else s.callers[t].msg;
    }
  }

  lemma SendInterruptKeepsOwners(s: State, t: nat)
    requires Owned(s) && Enabled(s, SendInterrupt(t))
    ensures Owned(Next(s, SendInterrupt(t)))
  {
    var s' := Next(s, SendInterrupt(t));
    var id := s.callers[t].msg.body.block.id;
    assert forall i | 0 <= i < |s.places| && i != id :: s'.places[i] == s.places[i];
  }

  lemma ReceiveKeepsOwners(s: State)
    requires Owned(s) && Enabled(s, Receive)
    ensures Owned(Next(s, Receive))
  {
    var s' := Next(s, Receive);
    if s'.queue != s.queue {
      assert forall i | 0 <= i < |s'.queue| :: s'.queue[i] == s.queue[i + 1];
    }
  }

  lemma FreeKeepsOwners(s: State)
    requires Owned(s) && Enabled(s, EndCb)
    ensures Owned(Next(s, EndCb))
  {
  }

  lemma ForeignKeepsOwners(s: State, m: Msg)
    requires Owned(s) && Enabled(s, Foreign(m))
    ensures Owned(Next(s, Foreign(m)))
  {
  }

  lemma RmidKeepsOwners(s: State)
    requires Owned(s) && Enabled(s, Rmid)
    ensures Owned(Next(s, Rmid))
  {
  }

  lemma OwnedKept(s: State, a: Action)
    requires Owned(s) && Settled(s) && Enabled(s, a)
    ensures Owned(Next(s, a))
  {
    match a
    case Send(t, data, mtype, true) => SendKeepsOwners(s, t, data, mtype);
    case Msgsnd(t) => MsgsndKeepsOwners(s, t);
    case SendInterrupt(t) => SendInterruptKeepsOwners(s, t);
    case Foreign(m) => ForeignKeepsOwners(s, m);
    case Rmid => RmidKeepsOwners(s);
    case Receive => ReceiveKeepsOwners(s);
    case EndCb => FreeKeepsOwners(s);
    case _ =>
  }

  // ------------------------------------------------------------------ order

  lemma Enqueued(ms: seq<Msg>, m: Msg)
    ensures Contents(ms + [m]) == Contents(ms) + Piece(m.body)
  {
    assert (ms + [m])[..|ms|] == ms;
  }

  lemma {:induction false} Dequeued(ms: seq<Msg>)
    requires ms != []
    ensures Contents(ms) == Piece(ms[0].body) + Contents(ms[1..])
  {
    var n := |ms| - 1;
    if n == 0 {
    } else {
      var tail := ms[1..];
      Dequeued(ms[..n]);
      assert ms[..n][1..] == tail[..n - 1];
      assert tail[n - 1] == ms[n];
      assert Contents(tail) == Contents(tail[..n - 1]) + Piece(ms[n].body);
      Regroup(Piece(ms[0].body), Contents(tail[..n - 1]), Piece(ms[n].body));
    }
  }

  lemma Regroup<T>(xs: seq<T>, ys: seq<T>, zs: seq<T>)
    ensures xs + (ys + zs) == xs + ys + zs
  {
  }

  lemma MsgsndShifts(s: State, t: nat)
    requires Settled(s) && Enabled(s, Msgsnd(t)) && !s.removed
    ensures OnTheWay(Next(s, Msgsnd(t))) == OnTheWay(s) + Piece(s.callers[t].msg.body)
  {
    var m := s.callers[t].msg;
    var s' := Next(s, Msgsnd(t));
    var hand := if s.worker.Got? then [s.worker.block.data] else [];
    Enqueued(s.queue, m);
    assert Contents(s.queue) + s.lost == Contents(s.queue) && Contents(s'.queue) + s.lost == Contents(s'.queue);
    Regroup(hand, Contents(s.queue), Piece(m.body));
  }

  lemma ReceiveShifts(s: State)
    requires Settled(s) && Enabled(s, Receive)
    ensures OnTheWay(Next(s, Receive)) == OnTheWay(s)
  {
    var s' := Next(s, Receive);
    var hand := if s'.worker.Got? then [s'.worker.block.data] else [];
    assert OnTheWay(s) == Contents(s.queue) && OnTheWay(s') == hand + Contents(s'.queue);
    if s'.queue != s.queue {
      Dequeued(s.queue);
      assert hand == Piece(s.queue[0].body);
    }
  }

  lemma OtherShifts(s: State, a: Action)
    requires Settled(s) && Enabled(s, a) && !a.Receive? && !a.StartCb? && (a.Msgsnd? ==> s.removed)
    ensures OnTheWay(Next(s, a)) == OnTheWay(s) && Next(s, a).sent == s.sent && Next(s, a).delivered == s.delivered
  {
    if a.Foreign? {
      ForeignShifts(s, a.msg);
    } else if a.Rmid? {
      RmidShifts(s);
    } else {
      assert Next(s, a).queue == s.queue && Next(s, a).lost == s.lost;
    }
  }

  lemma ForeignShifts(s: State, m: Msg)
    requires Enabled(s, Foreign(m))
    ensures OnTheWay(Next(s, Foreign(m))) == OnTheWay(s)
  {
    Enqueued(s.queue, m);
  }

  /** Removing the queue moves what was in it to what is lost. */
  lemma RmidShifts(s: State)
    requires Settled(s) && Enabled(s, Rmid)
    ensures OnTheWay(Next(s, Rmid)) == OnTheWay(s)
  {
    assert s.lost == [] && Next(s, Rmid).queue == [] && Next(s, Rmid).lost == Contents(s.queue);
    assert Contents(s.queue) + [] == [] + Contents(s.queue);
  }

  lemma OrderKept(s: State, a: Action)
    requires InOrder(s) && Settled(s) && Enabled(s, a)
    ensures InOrder(Next(s, a))
  {
    var s' := Next(s, a);
    if a.Msgsnd? && !s.removed {
      MsgsndShifts(s, a.t);
      Regroup(s.delivered, OnTheWay(s), Piece(s.callers[a.t].msg.body));
    } else if a.Receive? {
      ReceiveShifts(s);
    } else if a.StartCb? {
      Regroup(s.delivered, [s.worker.block.data], OnTheWay(s'));
    } else {
      OtherShifts(s, a);
    }
  }

  lemma StepKeepsInv(s: State, a: Action)
    requires Inv(s) && Enabled(s, a)
    ensures Inv(Next(s, a))
  {
    SettledKept(s, a);
    OwnedKept(s, a);
    OrderKept(s, a);
  }

  lemma EveryRunKeepsInv(n: nat, cap: Option<nat>)
    ensures forall s :: Reachable(Mailbox(n, cap), s) ==> Inv(s)
  {
    forall s, a | Inv(s) && Mailbox(n, cap).guard(s, a) ensures Inv(Mailbox(n, cap).next(s, a)) {
      StepKeepsInv(s, a);
    }
    Invariance(Mailbox(n, cap), Inv);
  }
}
