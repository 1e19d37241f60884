/**
 The component: a datagram received on the loop thread goes into the message queue, whose worker thread answers
 it with a blocking send back through the loop thread. The loop thread is the queue's only sender, the worker is
 the socket's only sender on another thread.
 */
module Pipeline {
  import opened Machines
  import Q = MsgQueue
  import H = Handshake
  import R = HandshakeRuns

  /** The thread that runs `component_uninit`. */
  datatype Main = Working | Joined | CloseAsked

  /** `peer` is the latched address of the first datagram's sender, once `init_peer` is set. */
  datatype State = State(mq: Q.State, hs: H.State, peer: Option<nat>, main: Main)

  datatype Action =
    | Datagram(from: nat, data: seq<nat>, ok: bool)
    | Queue(q: Q.Action)
    | Socket(h: H.Action)
    | Join
    | AskClose

  /** The loop thread runs callbacks only while it is not inside `msgsnd`. */
  predicate LoopFree(s: State) {
    |s.mq.callers| == 1 && s.mq.callers[0].Ready?
  }

  predicate WorkerIdle(s: State) {
    |s.hs.senders| == 1 && s.hs.senders[0].pc == H.Idle
  }

  predicate Enabled(s: State, a: Action) {
    match a
    case Datagram(from, data, ok) => LoopFree(s) && s.main == Working
    case Queue(x) =>
      && Q.Enabled(s.mq, x) && !x.Send? && !x.Foreign? && !x.Interrupt? && !x.SendInterrupt?
      && (x.EndCb? ==> WorkerIdle(s))
    case Socket(x) => R.Serves(x) && H.Enabled(s.hs, x) && (H.LoopAction(x) ==> LoopFree(s))
    case Join => s.main == Working && s.mq.removed && s.mq.worker.Exited?
    case AskClose => s.main == Joined
  }

  function Next(s: State, a: Action): State {
    match a
    case Datagram(from, data, ok) =>
      s.(peer := if s.peer == None then Some(from) else s.peer, mq := Q.Next(s.mq, Q.Send(0, data, 0, ok)))
    case Queue(x) =>
      var s' := s.(mq := Q.Next(s.mq, x));
      if x.StartCb? && s.mq.worker.Got? && s.peer.Some?
      then s'.(hs := H.Next(s.hs, H.Call(0, 0, |s.mq.worker.block.data|)))
      else s'
    case Socket(x) => s.(hs := H.Next(s.hs, x))
    case Join => s.(main := Joined)
    case AskClose => s.(main := CloseAsked)
  }

  function Component(cap: Option<nat>): Machine<State, Action> {
    Machine(State(Q.Start(1, cap), H.Start(1, 1), None, Working), Enabled, Next)
  }

  // ------------------------------------------------------------------ the invariant

  /** The lengths the worker has asked to send, in order. */
  function Asked(log: seq<H.Event>): seq<nat> {
    if log == [] then []
    else Asked(log[..|log| - 1]) + (if log[|log| - 1].Locked? then [log[|log| - 1].p] else [])
  }

  function Entering(x: H.Sender): seq<nat> {
    if x.pc == H.Entered then [x.payload] else []
  }

  function Lengths(ds: seq<seq<nat>>): seq<nat> {
    if ds == [] then [] else Lengths(ds[..|ds| - 1]) + [|ds[|ds| - 1]|]
  }

  predicate Linked(s: State) {
    && |s.mq.callers| == 1 && |s.hs.senders| == 1 && |s.hs.conns| == 1
    && (!WorkerIdle(s) ==> s.mq.worker.InCallback?)
    && (s.peer == None ==> s.mq.places == [])
    && (forall i | 0 <= i < |s.mq.queue| :: s.mq.queue[i].body.Good?)
    && !s.mq.worker.Retrying?
    && (s.main != Working ==> s.mq.removed && s.mq.worker.Exited?)
  }

  /** The worker asks for one send of each delivered message, in order, with that message's length. */
  predicate Answers(s: State) {
    |s.hs.senders| == 1 && Asked(s.hs.log) + Entering(s.hs.senders[0]) == Lengths(s.mq.delivered)
  }

  predicate Inv(cap: Option<nat>, s: State) {
    Q.Inv(s.mq) && H.Inv(s.hs) && Linked(s) && Answers(s) && s.mq.cap == cap && NoLoopWrites(s.hs)
  }

  /** The loop thread itself sends nothing on the socket. */
  predicate NoLoopWrites(hs: H.State) {
    forall c | 0 <= c < |hs.conns| :: !H.LoopWriteQueued(hs.conns[c])
  }

  lemma SocketStaysQuiet(hs: H.State, x: H.Action)
    requires H.Inv(hs) && NoLoopWrites(hs) && H.Enabled(hs, x) && !x.LoopSend?
    ensures H.Disciplined(hs, x) && NoLoopWrites(H.Next(hs, x))
  {
    if H.LoopAction(x) {
      var c := if x.AsyncCb? then hs.target.value else x.c;
      H.PushPop(hs.conns[c], hs.conns[c].data2);
    }
  }

  lemma QueueKeepsLinks(s: State, x: Q.Action)
    requires Linked(s) && Q.Owned(s.mq) && Enabled(s, Queue(x)) && !x.StartCb?
    ensures Linked(Next(s, Queue(x))) && (Answers(s) ==> Answers(Next(s, Queue(x))))
  {
  }

  lemma StartKeepsLinks(s: State)
    requires Linked(s) && Q.Owned(s.mq) && Enabled(s, Queue(Q.StartCb))
    ensures Linked(Next(s, Queue(Q.StartCb))) && (Answers(s) ==> Answers(Next(s, Queue(Q.StartCb))))
    ensures s.peer.Some? && H.Enabled(s.hs, H.Call(0, 0, |s.mq.worker.block.data|))
  {
    var s' := Next(s, Queue(Q.StartCb));
    assert s.peer.Some? && s.hs.senders[0].pc == H.Idle;
    assert s'.hs == s.hs.(senders := s.hs.senders[0 := H.Sender(H.Entered, 0, |s.mq.worker.block.data|)]);
    assert s'.mq.delivered[..|s.mq.delivered|] == s.mq.delivered;
  }

  lemma AskedStays(hs: H.State, x: H.Action)
    requires |hs.senders| == 1 && H.Enabled(hs, x) && R.Serves(x) && !x.Lock?
    ensures Asked(H.Next(hs, x).log) == Asked(hs.log)
  {
    H.LogGrows(hs, x);
  }

  lemma EnteringStays(hs: H.State, x: H.Action)
    requires |hs.senders| == 1 && H.Enabled(hs, x) && R.Serves(x) && !x.Lock?
    ensures |H.Next(hs, x).senders| == 1 && Entering(H.Next(hs, x).senders[0]) == Entering(hs.senders[0])
  {
  }

  lemma AskedGrows(hs: H.State, x: H.Action)
    requires |hs.senders| == 1 && H.Enabled(hs, x) && R.Serves(x)
    ensures |H.Next(hs, x).senders| == 1
    ensures Asked(H.Next(hs, x).log) + Entering(H.Next(hs, x).senders[0]) == Asked(hs.log) + Entering(hs.senders[0])
  {
    if x.Lock? {
      assert H.Next(hs, x).log[..|hs.log|] == hs.log;
    } else {
      AskedStays(hs, x);
      EnteringStays(hs, x);
    }
  }

  lemma SocketKeepsLinks(s: State, x: H.Action)
    requires Linked(s) && Enabled(s, Socket(x))
    ensures Linked(Next(s, Socket(x)))
  {
  }

  lemma StartKeepsInv(cap: Option<nat>, s: State)
    requires Inv(cap, s) && Enabled(s, Queue(Q.StartCb))
    ensures Inv(cap, Next(s, Queue(Q.StartCb)))
  {
    var call := H.Call(0, 0, |s.mq.worker.block.data|);
    Q.StepKeepsInv(s.mq, Q.StartCb);
    StartKeepsLinks(s);
    SocketStaysQuiet(s.hs, call);
    H.StepKeepsInv(s.hs, call);
    assert Next(s, Queue(Q.StartCb)).mq == Q.Next(s.mq, Q.StartCb);
    assert Next(s, Queue(Q.StartCb)).hs == H.Next(s.hs, call);
  }

  lemma QueueKeepsInv(cap: Option<nat>, s: State, x: Q.Action)
    requires Inv(cap, s) && Enabled(s, Queue(x)) && !x.StartCb?
    ensures Inv(cap, Next(s, Queue(x)))
  {
    Q.StepKeepsInv(s.mq, x);
    QueueKeepsLinks(s, x);
    assert Next(s, Queue(x)).mq == Q.Next(s.mq, x) && Next(s, Queue(x)).hs == s.hs;
  }

  lemma SocketKeepsInv(cap: Option<nat>, s: State, x: H.Action)
    requires Inv(cap, s) && Enabled(s, Socket(x))
    ensures Inv(cap, Next(s, Socket(x)))
  {
    SocketStaysQuiet(s.hs, x);
    H.StepKeepsInv(s.hs, x);
    SocketKeepsLinks(s, x);
    AskedGrows(s.hs, x);
  }

  lemma StepKeepsInv(cap: Option<nat>, s: State, a: Action)
    requires Inv(cap, s) && Enabled(s, a)
    ensures Inv(cap, Next(s, a))
  {
    match a
    case Datagram(from, data, ok) => Q.StepKeepsInv(s.mq, Q.Send(0, data, 0, ok));
    case Queue(x) =>
      if x.StartCb? {
        StartKeepsInv(cap, s);
      } else {
        QueueKeepsInv(cap, s, x);
      }
    case Socket(x) => SocketKeepsInv(cap, s, x);
    case _ =>
  }
}
