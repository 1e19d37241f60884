/** Liveness of the component: what it answers, when it can jam, and that shutting it down always completes. */
module PipelineRuns {
  import opened Machines
  import opened Pipeline
  import Q = MsgQueue
  import H = Handshake
  import R = HandshakeRuns

  lemma StartFits(cap: Option<nat>)
    ensures Inv(cap, Component(cap).init)
  {
    R.StartFits(1, 1);
  }

  lemma EveryRunKeepsInv(cap: Option<nat>)
    ensures forall s :: Reachable(Component(cap), s) ==> Inv(cap, s)
  {
    StartFits(cap);
    forall s, a | Inv(cap, s) && Component(cap).guard(s, a) ensures Inv(cap, Component(cap).next(s, a)) {
      StepKeepsInv(cap, s, a);
    }
    Invariance(Component(cap), (s: State) => Inv(cap, s));
  }

  // ------------------------------------------------------------------ what is answered

  /** The worker answers each delivered message once, in the order in which they were received, with a datagram
      of the same length; the address is there before the first answer, and never changes. */
  lemma AnswersInOrder(cap: Option<nat>, s: State, a: Action)
    requires Reachable(Component(cap), s) && Enabled(s, a)
    ensures Answers(s) && s.mq.delivered <= s.mq.sent
    ensures s.mq.delivered != [] ==> s.peer.Some?
    ensures s.peer.Some? ==> Next(s, a).peer == s.peer
    ensures s.peer == None && a.Datagram? ==> Next(s, a).peer == Some(a.from)
  {
    EveryRunKeepsInv(cap);
    PeerBeforeDelivery(cap, s);
  }

  lemma PeerBeforeDelivery(cap: Option<nat>, s: State)
    requires Reachable(Component(cap), s)
    ensures s.mq.delivered != [] ==> s.peer.Some?
  {
    var machine := Component(cap);
    var known := (z: State) => Inv(cap, z) && (z.mq.delivered != [] ==> z.peer.Some?);
    StartFits(cap);
    forall z, a | known(z) && machine.guard(z, a) ensures known(machine.next(z, a)) {
      StepKeepsInv(cap, z, a);
      if a == Queue(Q.StartCb) {
        StartKeepsLinks(z);
      }
    }
    Invariance(machine, known);
  }

  // ------------------------------------------------------------------ work left

  /** The steps of the loop thread and of the worker; datagrams, and the thread that shuts down, come from outside. */
  predicate Internal(a: Action) {
    (a.Queue? && !a.q.Clear? && !a.q.Rmid?) || a.Socket?
  }

  /** Neither the loop thread nor the worker has a step. */
  ghost predicate AtRest(s: State) {
    forall a :: Internal(a) ==> !Enabled(s, a)
  }

  /** Nothing to do: no send under way, nothing queued, and the worker waits for a message or has gone. */
  predicate Quiet(s: State) {
    LoopFree(s) && WorkerIdle(s) && (s.mq.worker.Exited? || (s.mq.worker.Blocked? && s.mq.queue == [] && !s.mq.removed))
  }

  function WorkerLeft(running: bool, w: Q.Worker): nat {
    match w
    case Exited => 0
    case Retrying => 0
    case Blocked => if running then 0 else 13
    case Receiving => if running then 1 else 14
    case Checking => if running then 2 else 1
    case InCallback(_) => if running then 3 else 2
    case Got(_) => if running then 13 else 12
  }

  /** Steps left for the worker and for its sends, those for the messages queued, and those of the loop in `msgsnd`. */
  function ServiceLeft(s: State): nat {
    14 * |s.mq.queue| + WorkerLeft(s.mq.running, s.mq.worker) + R.Rank(s.hs)
  }

  function WorkLeft(s: State): nat {
    ServiceLeft(s) + (if LoopFree(s) then 0 else 15)
  }

  lemma CallCosts(hs: H.State, p: nat)
    requires |hs.senders| == 1 && H.Enabled(hs, H.Call(0, 0, p))
    ensures R.Rank(H.Next(hs, H.Call(0, 0, p))) == R.Rank(hs) + 9
  {
    SumUpdate(R.StepsLeft, hs.senders, 0, H.Sender(H.Entered, 0, p));
  }

  lemma StartCosts(s: State)
    requires Linked(s) && Q.Owned(s.mq) && Enabled(s, Queue(Q.StartCb))
    ensures WorkLeft(Next(s, Queue(Q.StartCb))) < WorkLeft(s)
  {
    StartKeepsLinks(s);
    CallCosts(s.hs, |s.mq.worker.block.data|);
  }

  lemma QueueDescends(s: State, x: Q.Action)
    requires Linked(s) && Q.Settled(s.mq) && Internal(Queue(x)) && Enabled(s, Queue(x)) && !x.StartCb?
    ensures WorkLeft(Next(s, Queue(x))) < WorkLeft(s)
  {
  }

  lemma WorkDescends(s: State, a: Action)
    requires Linked(s) && Q.Owned(s.mq) && Q.Settled(s.mq) && Internal(a) && Enabled(s, a)
    ensures WorkLeft(Next(s, a)) < WorkLeft(s)
  {
    if a.Socket? {
      R.ServingDescends(s.hs, a.h);
    } else if a.q.StartCb? {
      StartCosts(s);
    } else {
      QueueDescends(s, a.q);
    }
  }

  /** Datagrams that arrive after the queue has been removed cost the loop one failed send, and delay nothing. */
  lemma LateDatagramsDelayNothing(s: State, a: Action)
    requires Linked(s) && s.mq.removed && Enabled(s, a) && (a.Datagram? || (a.Queue? && a.q.Msgsnd?))
    ensures ServiceLeft(Next(s, a)) == ServiceLeft(s)
    ensures a.Queue? ==> LoopFree(Next(s, a))
  {
  }

  lemma SendIsServed(cap: Option<nat>, s: State)
    requires Inv(cap, s) && LoopFree(s) && !WorkerIdle(s)
    ensures !AtRest(s)
  {
    R.WorkLeftIsServed(s.hs);
    var x :| R.Serves(x) && H.Disciplined(s.hs, x);
    assert Internal(Socket(x)) && Enabled(s, Socket(x));
  }

  /** With room in the queue, or none left to ask for, whoever has work can do it. */
  lemma WorkCanBeDone(cap: Option<nat>, s: State)
    requires Inv(cap, s) && (LoopFree(s) || s.mq.removed || Q.Room(s.mq)) && !Quiet(s)
    ensures !AtRest(s)
  {
    if !LoopFree(s) {
      assert Enabled(s, Queue(Q.Msgsnd(0)));
    } else if !WorkerIdle(s) {
      SendIsServed(cap, s);
    } else {
      var x := match s.mq.worker
               case Checking => Q.Check
               case Got(_) => Q.StartCb
               case InCallback(_) => Q.EndCb
               case _ => if s.mq.removed then Q.Gone(true) else if s.mq.queue != [] then Q.Receive else Q.Sleep;
      assert Enabled(s, Queue(x));
    }
  }

  lemma InternalKeeps(s: State, a: Action)
    requires Internal(a)
    ensures Next(s, a).mq.removed == s.mq.removed && Next(s, a).main == s.main
  {
  }

  /** A schedule of the loop thread and the worker. */
  predicate Runs(cap: Option<nat>, s: State, acts: seq<Action>) {
    Schedule(Component(cap), Internal, s, acts)
  }

  function Then(cap: Option<nat>, s: State, acts: seq<Action>): State {
    After(Component(cap), s, acts)
  }

  lemma RunsAreBounded(cap: Option<nat>, s: State, acts: seq<Action>)
    requires Inv(cap, s) && Runs(cap, s, acts)
    ensures Inv(cap, Then(cap, s, acts)) && |acts| + WorkLeft(Then(cap, s, acts)) <= WorkLeft(s)
    ensures Then(cap, s, acts).mq.removed == s.mq.removed && Then(cap, s, acts).main == s.main
  {
    var kept := (z: State) => Inv(cap, z) && z.mq.removed == s.mq.removed && z.main == s.main;
    forall z, a | kept(z) && Internal(a) && Enabled(z, a)
      ensures kept(Next(z, a)) && WorkLeft(Next(z, a)) < WorkLeft(z)
    {
      StepKeepsInv(cap, z, a);
      InternalKeeps(z, a);
      WorkDescends(z, a);
    }
    ScheduleIsBounded(Component(cap), Internal, kept, WorkLeft, s, acts);
  }

  /** With an unbounded kernel queue every burst is worked off: from any reachable state the loop and the worker
      come to rest after at most `WorkLeft(s)` steps, and only when every message sent has been delivered. */
  lemma UnboundedComesToRest(s: State, acts: seq<Action>)
    requires Reachable(Component(None), s) && Runs(None, s, acts)
    ensures |acts| <= WorkLeft(s)
    ensures var z := Then(None, s, acts); AtRest(z) ==> Quiet(z) && (z.mq.running ==> z.mq.delivered == z.mq.sent)
  {
    EveryRunKeepsInv(None);
    RunsAreBounded(None, s, acts);
    var z := Then(None, s, acts);
    if !Quiet(z) {
      WorkCanBeDone(None, z);
    }
  }

  // ------------------------------------------------------------------ shutting down

  lemma FlagThenRemoval(s: State)
    requires Q.Settled(s.mq) && s.mq.running
    ensures Enabled(s, Queue(Q.Clear))
    ensures var z := Next(s, Queue(Q.Clear)); Enabled(z, Queue(Q.Rmid)) && Next(z, Queue(Q.Rmid)).mq.removed
  {
  }

  /** From every reachable state in which it has not begun, shutting down can begin at once. */
  lemma ShutdownCanBegin(cap: Option<nat>, s: State)
    requires Reachable(Component(cap), s) && s.mq.running
    ensures var z := Next(Next(s, Queue(Q.Clear)), Queue(Q.Rmid));
            Reachable(Component(cap), z) && z.mq.removed
  {
    EveryRunKeepsInv(cap);
    FlagThenRemoval(s);
    var z := Take(cap, s, Queue(Q.Clear));
    z := Take(cap, z, Queue(Q.Rmid));
  }

  /** Everything that can happen after the removal until the join: internal steps, and datagrams that keep coming. */
  predicate Late(a: Action) {
    Internal(a) || a.Datagram?
  }

  /** The steps that bring the worker nearer its end; not the arrival of a datagram, nor the failed send it costs. */
  predicate Serves(a: Action) {
    !a.Datagram? && !(a.Queue? && a.q.Msgsnd?)
  }

  predicate IsDatagram(a: Action) {
    a.Datagram?
  }

  lemma ServiceDescends(s: State, a: Action)
    requires Linked(s) && Q.Owned(s.mq) && Q.Settled(s.mq) && Internal(a) && Serves(a) && Enabled(s, a)
    ensures ServiceLeft(Next(s, a)) < ServiceLeft(s) && LoopFree(Next(s, a)) == LoopFree(s)
  {
    WorkDescends(s, a);
  }

  /** The loop thread may still be inside the `msgsnd` of its last datagram. */
  function SendLeft(s: State): nat {
    if LoopFree(s) then 0 else 1
  }

  predicate ShuttingDown(cap: Option<nat>, s: State) {
    Inv(cap, s) && s.mq.removed && s.main == Working
  }

  lemma LateStep(cap: Option<nat>, s: State, a: Action)
    requires ShuttingDown(cap, s) && Late(a) && Enabled(s, a)
    ensures ShuttingDown(cap, Next(s, a))
    ensures var z := Next(s, a);
            if Serves(a) then ServiceLeft(z) < ServiceLeft(s) && SendLeft(z) == SendLeft(s)
            else ServiceLeft(z) == ServiceLeft(s) && SendLeft(z) + 1 <= SendLeft(s) + (if a.Datagram? then 2 else 0)
  {
    StepKeepsInv(cap, s, a);
    if Serves(a) {
      InternalKeeps(s, a);
      ServiceDescends(s, a);
    } else {
      LateDatagramsDelayNothing(s, a);
    }
  }

  lemma {:induction false} LateRuns(cap: Option<nat>, s: State, acts: seq<Action>)
    requires ShuttingDown(cap, s) && Schedule(Component(cap), Late, s, acts)
    ensures var z := Then(cap, s, acts);
            && ShuttingDown(cap, z)
            && Count(Serves, acts) + ServiceLeft(z) <= ServiceLeft(s)
            && |acts| + ServiceLeft(z) + SendLeft(z) <= ServiceLeft(s) + SendLeft(s) + 2 * Count(IsDatagram, acts)
  {
    if acts == [] {
    } else {
      LateRuns(cap, s, acts[..|acts| - 1]);
      LateStep(cap, Then(cap, s, acts[..|acts| - 1]), acts[|acts| - 1]);
    }
  }

  /** Once the queue is removed, whatever its capacity, whoever was blocked, and however many datagrams keep arriving,
      the worker is at most `ServiceLeft(s)` steps of service from its end, each datagram costs the loop two steps, and
      the loop and the worker come to rest only when the worker has gone, so that the join returns. */
  lemma ShutdownCompletes(cap: Option<nat>, s: State, acts: seq<Action>)
    requires Reachable(Component(cap), s) && s.mq.removed && s.main == Working
    requires Schedule(Component(cap), Late, s, acts)
    ensures Count(Serves, acts) <= ServiceLeft(s)
    ensures |acts| <= ServiceLeft(s) + 1 + 2 * Count(IsDatagram, acts)
    ensures var z := Then(cap, s, acts); AtRest(z) ==> Enabled(z, Join) && LoopFree(z)
  {
    EveryRunKeepsInv(cap);
    LateRuns(cap, s, acts);
    var z := Then(cap, s, acts);
    if !Quiet(z) {
      WorkCanBeDone(cap, z);
    }
  }

  lemma IdleMeansNothingInFlight(hs: H.State)
    requires H.Inv(hs) && NoLoopWrites(hs) && R.AllIdle(hs)
    ensures hs.holder == None && !hs.pending && hs.sem == 0
    ensures forall c | 0 <= c < |hs.conns| :: hs.conns[c].queue == []
  {
    forall c | 0 <= c < |hs.conns| ensures hs.conns[c].queue == [] {
      H.PushPop(hs.conns[c], H.Null);
    }
  }

  lemma GoneMeansIdle(s: State)
    requires Linked(s) && s.main != Working
    ensures s.mq.worker.Exited? && R.AllIdle(s.hs)
  {
  }

  /** From the join on, through the request to close the socket and until the loop thread destroys its mutex and its
      semaphore, the worker has gone and no send is in flight: the mutex is free, the semaphore is zero, no send event
      is pending and no send request is outstanding. */
  lemma NoSendInFlightAtClose(cap: Option<nat>, s: State)
    requires Reachable(Component(cap), s) && s.main != Working
    ensures s.mq.worker.Exited? && R.AllIdle(s.hs) && s.hs.holder == None && !s.hs.pending && s.hs.sem == 0
    ensures forall c | 0 <= c < |s.hs.conns| :: s.hs.conns[c].queue == []
  {
    EveryRunKeepsInv(cap);
    GoneMeansIdle(s);
    IdleMeansNothingInFlight(s.hs);
  }

  // ------------------------------------------------------------------ jamming

  /** The worker sleeps in the send that answers its first message; the loop thread has queued `k` more. */
  predicate Answering(cap: Option<nat>, s: State, k: nat) {
    && |s.mq.callers| == 1 && s.mq.cap == cap && |s.mq.queue| == k && !s.mq.removed && s.mq.worker.InCallback?
    && s.main == Working && s.hs == R.Midway(H.Start(1, 1), 0, 0, 1, H.Waiting)
  }

  /** The loop thread is in `msgsnd` on a full queue, the worker asleep until the loop thread serves its send. */
  predicate CircularWait(s: State) {
    && !LoopFree(s) && !Q.Room(s.mq) && !s.mq.removed && s.mq.worker.InCallback?
    && |s.hs.senders| == 1 && s.hs.senders[0].pc == H.Waiting && s.hs.pending && s.hs.sem == 0
  }

  /** A caller asleep before its send event is served, with nothing queued, leaves only the event to serve. */
  lemma OnlyTheLoopServes(cap: Option<nat>, s: State, x: H.Action)
    requires Inv(cap, s) && CircularWait(s) && R.Serves(x) && H.Enabled(s.hs, x)
    ensures x.AsyncCb?
  {
  }

  lemma CircularWaitIsStalled(cap: Option<nat>, s: State)
    requires Inv(cap, s) && CircularWait(s)
    ensures AtRest(s) && !Quiet(s)
  {
    forall a | Internal(a) ensures !Enabled(s, a) {
      if a.Socket? && Enabled(s, a) {
        OnlyTheLoopServes(cap, s, a.h);
      }
    }
  }

  lemma Take(cap: Option<nat>, s: State, a: Action) returns (z: State)
    requires Reachable(Component(cap), s) && Enabled(s, a)
    ensures Reachable(Component(cap), z) && z == Next(s, a)
  {
    StepReachable(Component(cap), s, a);
    z := Next(s, a);
  }

  const FIRST := Q.Msg(1, Q.Good(Q.Block(0, [1])))

  /** One datagram received and in the queue, nothing else done yet. */
  predicate OneQueued(cap: Option<nat>, s: State) {
    && s.mq == Q.Start(1, cap).(queue := [FIRST], places := [Q.InQueue], frees := [0], sent := [[1]])
    && s.hs == H.Start(1, 1) && s.peer.Some? && s.main == Working
  }

  lemma FirstDatagram(cap: Option<nat>)
    requires cap.Some? ==> cap.value > 0
    ensures exists s :: Reachable(Component(cap), s) && OneQueued(cap, s)
  {
    InitReachable(Component(cap));
    var s := Take(cap, Component(cap).init, Datagram(7, [1], true));
    assert s.mq == Q.Start(1, cap).(callers := [Q.InSend(FIRST)], places := [Q.WithCaller(0)], frees := [0]);
    var z := Take(cap, s, Queue(Q.Msgsnd(0)));
    assert z.mq.callers == [Q.Ready] == Q.Start(1, cap).callers;
    assert OneQueued(cap, z);
  }

  /** The worker has taken the first message and started its callback, which has entered the send. */
  predicate Started(cap: Option<nat>, s: State, pc: H.Pc) {
    && LoopFree(s) && Answering(cap, s.(hs := R.Midway(H.Start(1, 1), 0, 0, 1, H.Waiting)), 0)
    && s.hs == R.Midway(H.Start(1, 1), 0, 0, 1, pc)
  }

  predicate OneTaken(cap: Option<nat>, s: State) {
    && LoopFree(s) && s.mq.cap == cap && s.mq.queue == [] && !s.mq.removed && s.mq.worker == Q.Got(Q.Block(0, [1]))
    && s.hs == H.Start(1, 1) && s.peer.Some? && s.main == Working
  }

  lemma TakesFirst(cap: Option<nat>, s: State)
    requires OneQueued(cap, s)
    ensures Enabled(s, Queue(Q.Check))
    ensures var z := Next(s, Queue(Q.Check)); Enabled(z, Queue(Q.Receive)) && OneTaken(cap, Next(z, Queue(Q.Receive)))
  {
    assert Next(s, Queue(Q.Check)).mq == s.mq.(worker := Q.Receiving);
  }

  lemma StartsFirst(cap: Option<nat>, s: State)
    requires OneTaken(cap, s)
    ensures Enabled(s, Queue(Q.StartCb)) && Started(cap, Next(s, Queue(Q.StartCb)), H.Entered)
  {
    R.HalfBegins(H.Start(1, 1), 0, 0, 1);
  }

  lemma FirstMessage(cap: Option<nat>)
    requires cap.Some? ==> cap.value > 0
    ensures exists s :: Reachable(Component(cap), s) && Started(cap, s, H.Entered)
  {
    FirstDatagram(cap);
    var s :| Reachable(Component(cap), s) && OneQueued(cap, s);
    TakesFirst(cap, s);
    var z := Take(cap, s, Queue(Q.Check));
    z := Take(cap, z, Queue(Q.Receive));
    StartsFirst(cap, z);
    z := Take(cap, z, Queue(Q.StartCb));
  }

  lemma {:induction false} WorkerClimbs(cap: Option<nat>, s: State, pc: H.Pc)
    requires Reachable(Component(cap), s) && Started(cap, s, pc) && pc != H.Idle && pc != H.Woken
    ensures exists z :: Reachable(Component(cap), z) && LoopFree(z) && Answering(cap, z, 0)
    decreases R.StepsLeft(H.Sender(pc, 0, 0))
  {
    if pc == H.Waiting {
    } else {
      R.HalfStep(H.Start(1, 1), 0, 0, 1, pc);
      var z := Take(cap, s, Socket(R.HalfAction(0, pc)));
      WorkerClimbs(cap, z, R.HalfNext(pc));
    }
  }

  lemma {:induction false} Burst(cap: Option<nat>, k: nat)
    requires cap.Some? && 0 < cap.value && k <= cap.value
    ensures exists s :: Reachable(Component(cap), s) && LoopFree(s) && Answering(cap, s, k)
  {
    if k == 0 {
      FirstMessage(cap);
      var s :| Reachable(Component(cap), s) && Started(cap, s, H.Entered);
      WorkerClimbs(cap, s, H.Entered);
    } else {
      Burst(cap, k - 1);
      var s :| Reachable(Component(cap), s) && LoopFree(s) && Answering(cap, s, k - 1);
      var z := Take(cap, s, Datagram(7, [1], true));
      z := Take(cap, z, Queue(Q.Msgsnd(0)));
      assert LoopFree(z) && Answering(cap, z, k);
    }
  }

  /** However large the queue, a burst of datagrams fills it while the worker waits for the loop thread, and the
      next one blocks the loop thread in `msgsnd`: each waits for the other. */
  lemma BurstJams(cap: Option<nat>)
    requires cap.Some? && 0 < cap.value
    ensures exists s :: Reachable(Component(cap), s) && CircularWait(s)
  {
    Burst(cap, cap.value);
    var s :| Reachable(Component(cap), s) && LoopFree(s) && Answering(cap, s, cap.value);
    var z := Take(cap, s, Datagram(7, [1], true));
    assert CircularWait(z);
  }

  /** The loop thread waits for room, the worker for a message, and there is neither. */
  predicate Starved(s: State) {
    && !LoopFree(s) && !Q.Room(s.mq) && !s.mq.removed && s.mq.worker.Blocked? && s.mq.queue == []
    && s.hs == H.Start(1, 1)
  }

  lemma StarvedIsStalled(s: State)
    requires Starved(s)
    ensures AtRest(s) && !Quiet(s)
  {
  }

  lemma StarvesAtOnce(s: State)
    requires s == Next(Component(Some(0)).init, Datagram(7, [1], true))
    ensures Enabled(s, Queue(Q.Check))
    ensures var z := Next(s, Queue(Q.Check)); Enabled(z, Queue(Q.Sleep)) && Starved(Next(z, Queue(Q.Sleep)))
  {
    assert Next(s, Queue(Q.Check)).mq == s.mq.(worker := Q.Receiving);
  }

  /** A queue without any room blocks the loop thread at its first datagram. */
  lemma NoRoomJams()
    ensures exists s :: Reachable(Component(Some(0)), s) && Starved(s)
  {
    InitReachable(Component(Some(0)));
    var s := Take(Some(0), Component(Some(0)).init, Datagram(7, [1], true));
    StarvesAtOnce(s);
    var z := Take(Some(0), s, Queue(Q.Check));
    z := Take(Some(0), z, Queue(Q.Sleep));
  }

  /** The component is free of deadlock exactly when the kernel queue has no limit. */
  lemma LiveExactlyWhenUnbounded(cap: Option<nat>)
    ensures (forall s :: Reachable(Component(cap), s) && AtRest(s) ==> Quiet(s)) <==> cap == None
  {
    EveryRunKeepsInv(cap);
    if cap == None {
      forall s | Reachable(Component(cap), s) && AtRest(s) ensures Quiet(s) {
        if !Quiet(s) {
          WorkCanBeDone(cap, s);
        }
      }
    } else if cap.value == 0 {
      NoRoomJams();
      var s :| Reachable(Component(cap), s) && Starved(s);
      StarvedIsStalled(s);
    } else {
      BurstJams(cap);
      var s :| Reachable(Component(cap), s) && CircularWait(s);
      CircularWaitIsStalled(cap, s);
    }
  }
}
