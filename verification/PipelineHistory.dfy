/**
 What the component's answers have to do with the datagrams it was sent. A run is a sequence of actions, and the
 datagrams are read off the actions themselves.
 */
module PipelineHistory {
  import opened Machines
  import opened Pipeline
  import Q = MsgQueue
  import H = Handshake
  import R = PipelineRuns

  /** The contents of the datagrams for which there was memory, in the order in which they arrived. */
  function Accepted(acts: seq<Action>): seq<seq<nat>> {
    if acts == [] then []
    else
      var a := acts[|acts| - 1];
      Accepted(acts[..|acts| - 1]) + (if a.Datagram? && a.ok then [a.data] else [])
  }

  /** Where the first datagram came from. */
  function FirstFrom(acts: seq<Action>): Option<nat> {
    if acts == [] then None
    else
      var first, a := FirstFrom(acts[..|acts| - 1]), acts[|acts| - 1];
      if first == None && a.Datagram? then Some(a.from) else first
  }

  /** What the loop thread has copied and not yet queued. */
  function InHand(mq: Q.State): seq<seq<nat>> {
    if |mq.callers| == 1 && mq.callers[0].InSend? then Q.Piece(mq.callers[0].msg.body) else []
  }

  /** Everything accepted has been sent to the queue or is about to be, until the queue is removed. */
  predicate HistoryFits(s: State, acts: seq<Action>) {
    && s.peer == FirstFrom(acts) && s.mq.sent <= Accepted(acts)
    && (!s.mq.removed ==> Accepted(acts) == s.mq.sent + InHand(s.mq))
  }

  lemma HistorySnoc(acts: seq<Action>, a: Action)
    ensures Accepted(acts + [a]) == Accepted(acts) + (if a.Datagram? && a.ok then [a.data] else [])
    ensures FirstFrom(acts + [a]) == if FirstFrom(acts) == None && a.Datagram? then Some(a.from) else FirstFrom(acts)
  {
    assert (acts + [a])[..|acts|] == acts;
  }

  /** A datagram's data is copied whole. */
  lemma DatagramIsCopied(cap: Option<nat>, s: State, from: nat, data: seq<nat>)
    requires Inv(cap, s) && Enabled(s, Datagram(from, data, true))
    ensures var z := Next(s, Datagram(from, data, true));
            z.mq.callers[0].InSend? && InHand(z.mq) == [data] && z.mq.sent == s.mq.sent
  {
  }

  /** What a step of the queue does to what has been sent and what is in hand. */
  lemma QueueStep(mq: Q.State, x: Q.Action)
    requires |mq.callers| == 1 && (mq.callers[0].InSend? ==> mq.callers[0].msg.body.Good?)
    requires Q.Enabled(mq, x) && !x.Send? && !x.SendInterrupt?
    ensures var mq' := Q.Next(mq, x);
            && (mq.removed ==> mq'.removed)
            && if x.Msgsnd? && !mq.removed then mq'.sent == mq.sent + InHand(mq) && InHand(mq') == []
               else mq'.sent == mq.sent && (!mq'.removed ==> InHand(mq') == InHand(mq))
  {
  }

  lemma QueueFits(cap: Option<nat>, s: State, acts: seq<Action>, x: Q.Action)
    requires Inv(cap, s) && HistoryFits(s, acts) && Enabled(s, Queue(x))
    ensures HistoryFits(Next(s, Queue(x)), acts + [Queue(x)])
  {
    HistorySnoc(acts, Queue(x));
    QueueStep(s.mq, x);
    assert Next(s, Queue(x)).mq == Q.Next(s.mq, x);
  }

  lemma StepFits(cap: Option<nat>, s: State, acts: seq<Action>, a: Action)
    requires Inv(cap, s) && HistoryFits(s, acts) && Enabled(s, a)
    ensures HistoryFits(Next(s, a), acts + [a])
  {
    HistorySnoc(acts, a);
    if a.Queue? {
      QueueFits(cap, s, acts, a.q);
    } else if a.Datagram? && a.ok {
      DatagramIsCopied(cap, s, a.from, a.data);
    }
  }

  lemma RunKeepsInv(cap: Option<nat>, acts: seq<Action>)
    requires Schedule(Component(cap), Any, Component(cap).init, acts)
    ensures Inv(cap, After(Component(cap), Component(cap).init, acts))
  {
    ScheduleReaches(Component(cap), acts);
    R.EveryRunKeepsInv(cap);
  }

  lemma {:induction false} EveryRunFits(cap: Option<nat>, acts: seq<Action>)
    requires Schedule(Component(cap), Any, Component(cap).init, acts)
    ensures HistoryFits(After(Component(cap), Component(cap).init, acts), acts)
  {
    if acts == [] {
    } else {
      var rest := acts[..|acts| - 1];
      EveryRunFits(cap, rest);
      RunKeepsInv(cap, rest);
      StepFits(cap, After(Component(cap), Component(cap).init, rest), rest, acts[|acts| - 1]);
      assert rest + [acts[|acts| - 1]] == acts;
    }
  }

  /** In every run the worker has asked for one answer to each of the first so many accepted datagrams, in order and of
      the datagram's own length, and the peer is the sender of the first datagram of all; when the component has come
      to rest before it is shut down, every accepted datagram has had its answer. */
  lemma AnswersFollowDatagrams(cap: Option<nat>, acts: seq<Action>)
    requires Schedule(Component(cap), Any, Component(cap).init, acts)
    ensures var s := After(Component(cap), Component(cap).init, acts);
            && s.peer == FirstFrom(acts)
            && Answers(s) && s.mq.delivered <= Accepted(acts)
            && (R.Quiet(s) && s.mq.running ==> s.mq.delivered == Accepted(acts))
  {
    EveryRunFits(cap, acts);
    RunKeepsInv(cap, acts);
  }
}
