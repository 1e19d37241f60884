/** What every run of the message queue keeps: order and contents, one owner per block, and the worker's end. */
module MsgQueueRuns {
  import opened Machines
  import opened MsgQueue

  /** Messages reach the callback in the order of the successful sends, with the contents they had when sent;
      what is sent and not delivered is still on its way, or was in the queue when it was removed. */
  lemma DeliveredInOrder(n: nat, cap: Option<nat>, s: State)
    requires Reachable(Mailbox(n, cap), s)
    ensures s.delivered <= s.sent
    ensures s.sent == s.delivered + OnTheWay(s)
    ensures !s.removed && s.queue == [] && !s.worker.Got? ==> s.delivered == s.sent
  {
    EveryRunKeepsInv(n, cap);
  }

  /** No block is freed twice, and the one a caller, the queue or the worker still refers to is not freed. */
  lemma NoDoubleFree(n: nat, cap: Option<nat>, s: State, id: nat)
    requires Reachable(Mailbox(n, cap), s) && id < |s.frees|
    ensures s.frees[id] <= 1
    ensures (s.worker.Got? || s.worker.InCallback?) && s.worker.block.id == id ==> s.frees[id] == 0
    ensures forall t | 0 <= t < |s.callers| && s.callers[t].InSend? && s.callers[t].msg.body.Good? ::
              s.callers[t].msg.body.block.id == id ==> s.frees[id] == 0
    ensures forall i | 0 <= i < |s.queue| && s.queue[i].body.Good? ::
              s.queue[i].body.block.id == id ==> s.frees[id] == 0
  {
    EveryRunKeepsInv(n, cap);
  }

  // ------------------------------------------------------------------ the balance of blocks

  function Busy(c: Caller): nat {
    if c.InSend? then 1 else 0
  }

  function Self(n: nat): nat {
    n
  }

  function Hand(w: Worker): nat {
    if w.Got? || w.InCallback? then 1 else 0
  }

  /** Allocations are frees, sends under way, messages queued, the one the worker holds, and those dropped. */
  predicate Balanced(s: State) {
    |s.places| == Sum(Self, s.frees) + Sum(Busy, s.callers) + |Contents(s.queue)| + Hand(s.worker) + |s.lost|
  }

  lemma SendBalances(s: State, a: Action)
    requires Owned(s) && Balanced(s) && Enabled(s, a) && a.Send?
    ensures Balanced(Next(s, a))
  {
    SumUpdate(Busy, s.callers, a.t, Next(s, a).callers[a.t]);
    SumSnoc(Self, s.frees, 0);
  }

  lemma MsgsndBalances(s: State, t: nat)
    requires Balanced(s) && Enabled(s, Msgsnd(t)) && Allocated(s, s.callers[t].msg.body)
    ensures Balanced(Next(s, Msgsnd(t)))
  {
    var s', m, id := Next(s, Msgsnd(t)), s.callers[t].msg, s.callers[t].msg.body.block.id;
    SumUpdate(Busy, s.callers, t, Ready);
    assert |s'.places| == |s.places| && s'.callers == s.callers[t := Ready];
    assert s'.lost == s.lost && s'.worker == s.worker;
    if s.removed {
      assert s'.frees == s.frees[id := s.frees[id] + 1] && s'.queue == s.queue;
      SumUpdate(Self, s.frees, id, s.frees[id] + 1);
    } else {
      assert s'.frees == s.frees && s'.queue == s.queue + [m];
      Enqueued(s.queue, m);
    }
  }

  predicate Allocated(s: State, body: Body) {
    body.Good? && body.block.id < |s.places| == |s.frees|
  }

  lemma SendInterruptBalances(s: State, t: nat)
    requires Balanced(s) && Enabled(s, SendInterrupt(t)) && Allocated(s, s.callers[t].msg.body)
    ensures Balanced(Next(s, SendInterrupt(t)))
  {
    var s', id := Next(s, SendInterrupt(t)), s.callers[t].msg.body.block.id;
    assert s'.frees == s.frees[id := s.frees[id] + 1] && s'.callers == s.callers[t := Ready];
    assert |s'.places| == |s.places| && s'.queue == s.queue && s'.lost == s.lost && s'.worker == s.worker;
    SumUpdate(Busy, s.callers, t, Ready);
    SumUpdate(Self, s.frees, id, s.frees[id] + 1);
  }

  lemma TakenLength(ms: seq<Msg>)
    requires ms != []
    ensures |Contents(ms)| == (if ms[0].body.Good? then 1 else 0) + |Contents(ms[1..])|
  {
    Dequeued(ms);
  }

  lemma ReceiveBalances(s: State)
    requires Settled(s) && Balanced(s) && Enabled(s, Receive)
    ensures Balanced(Next(s, Receive))
  {
    var s' := Next(s, Receive);
    TakenLength(s.queue);
    assert |s'.places| == |s.places| && s'.frees == s.frees && s'.callers == s.callers && s'.lost == s.lost;
  }

  lemma EndBalances(s: State)
    requires Balanced(s) && Enabled(s, EndCb) && Allocated(s, Good(s.worker.block))
    ensures Balanced(Next(s, EndCb))
  {
    var s', id := Next(s, EndCb), s.worker.block.id;
    assert s'.frees == s.frees[id := s.frees[id] + 1] && s'.callers == s.callers;
    assert |s'.places| == |s.places| && s'.queue == s.queue && s'.lost == s.lost && s'.worker == Checking;
    SumUpdate(Self, s.frees, id, s.frees[id] + 1);
  }

  lemma OtherBalances(s: State, a: Action)
    requires Settled(s) && Balanced(s) && Enabled(s, a) && !a.EndCb?
    requires !a.Send? && !a.Msgsnd? && !a.SendInterrupt? && !a.Receive?
    ensures Balanced(Next(s, a))
  {
    if a.Foreign? {
      Enqueued(s.queue, a.msg);
    }
  }

  lemma BalanceKept(s: State, a: Action)
    requires Owned(s) && Settled(s) && Balanced(s) && Enabled(s, a)
    ensures Balanced(Next(s, a))
  {
    match a
    case Send(_, _, _, _) => SendBalances(s, a);
    case Msgsnd(t) => MsgsndBalances(s, t);
    case SendInterrupt(t) => SendInterruptBalances(s, t);
    case Receive => ReceiveBalances(s);
    case EndCb => EndBalances(s);
    case _ => OtherBalances(s, a);
  }

  predicate Accounted(s: State) {
    Inv(s) && Balanced(s)
  }

  lemma StartAccounted(n: nat, cap: Option<nat>)
    ensures Accounted(Start(n, cap))
  {
    SumZero(Busy, Start(n, cap).callers);
  }

  lemma AccountedKept(s: State, a: Action)
    requires Accounted(s) && Enabled(s, a)
    ensures Accounted(Next(s, a))
  {
    StepKeepsInv(s, a);
    BalanceKept(s, a);
  }

  lemma NothingLeaksButTheDropped(n: nat, cap: Option<nat>, s: State)
    requires Reachable(Mailbox(n, cap), s)
    ensures Balanced(s)
  {
    StartAccounted(n, cap);
    forall z, a | Accounted(z) && Enabled(z, a) ensures Accounted(Next(z, a)) {
      AccountedKept(z, a);
    }
    Invariance(Mailbox(n, cap), Accounted);
  }

  // ------------------------------------------------------------------ the worker's end

  predicate OfWorker(a: Action) {
    a.Check? || a.Receive? || a.Sleep? || a.Interrupt? || a.Gone? || a.StartCb? || a.EndCb?
  }

  /** How many steps the worker can still take once the running flag is down. */
  function StepsLeft(w: Worker): nat {
    match w
    case Exited => 0
    case Checking => 1
    case InCallback(_) => 2
    case Retrying => 2
    case Got(_) => 3
    case Blocked => 4
    case Receiving => 5
  }

  /** How many messages it can still deliver. */
  function DeliveriesLeft(w: Worker): nat {
    match w
    case Receiving | Blocked | Got(_) => 1
    case _ => 0
  }

  lemma StoppingStep(s: State, a: Action)
    requires !s.running && Enabled(s, a)
    ensures !Next(s, a).running
    ensures StepsLeft(Next(s, a).worker) + (if OfWorker(a) then 1 else 0) <= StepsLeft(s.worker)
    ensures |Next(s, a).delivered| + DeliveriesLeft(Next(s, a).worker) <= |s.delivered| + DeliveriesLeft(s.worker)
  {
  }

  /** Once the running flag is down, whatever the senders, signals and other processes do, the worker takes at most
      five more steps and delivers at most one more message. */
  lemma {:induction false} WorkerStops(n: nat, cap: Option<nat>, s: State, acts: seq<Action>)
    requires !s.running && Schedule(Mailbox(n, cap), Any, s, acts)
    ensures var z := After(Mailbox(n, cap), s, acts);
            && !z.running
            && Count(OfWorker, acts) + StepsLeft(z.worker) <= StepsLeft(s.worker) <= 5
            && |z.delivered| + DeliveriesLeft(z.worker) <= |s.delivered| + DeliveriesLeft(s.worker)
            && |z.delivered| <= |s.delivered| + 1
  {
    if acts == [] {
    } else {
      WorkerStops(n, cap, s, acts[..|acts| - 1]);
      StoppingStep(After(Mailbox(n, cap), s, acts[..|acts| - 1]), acts[|acts| - 1]);
    }
  }

  /** And after the queue has been removed the worker always has a step to take, until it has gone. */
  lemma RemovalWakesWorker(n: nat, cap: Option<nat>, s: State)
    requires Reachable(Mailbox(n, cap), s) && s.removed && !s.worker.Exited?
    ensures exists a :: OfWorker(a) && Enabled(s, a)
    ensures !s.running
  {
    EveryRunKeepsInv(n, cap);
    var a := match s.worker
             case Checking => Check
             case Got(_) => StartCb
             case InCallback(_) => EndCb
             case _ => Gone(true);
    assert OfWorker(a) && Enabled(s, a);
  }
}
