/**
 What the calls of `msg_send` were given is what goes through the queue. Here a run is a sequence of actions, and what
 was asked for is read off the calls themselves.
 */
module MsgQueueHistory {
  import opened Machines
  import opened MsgQueue
  import R = MsgQueueRuns

  /** The arguments of a call. */
  datatype Call = Call(data: seq<nat>, mtype: int)

  /** The call of sender `t` that has its copy and has not yet ended. */
  function Pending(t: nat, acts: seq<Action>): Option<Call> {
    if acts == [] then None
    else
      var rest := Pending(t, acts[..|acts| - 1]);
      match acts[|acts| - 1]
      case Send(u, data, mtype, ok) => if u == t && ok then Some(Call(data, mtype)) else rest
      case Msgsnd(u) => if u == t then None else rest
      case SendInterrupt(u) => if u == t then None else rest
      case _ => rest
  }

  predicate Removed(acts: seq<Action>) {
    acts != [] && (acts[|acts| - 1].Rmid? || Removed(acts[..|acts| - 1]))
  }

  function DataOf(c: Option<Call>): seq<seq<nat>> {
    if c.Some? then [c.value.data] else []
  }

  /** The data of the calls that were let into the queue, in that order. */
  function LetIn(acts: seq<Action>): seq<seq<nat>> {
    if acts == [] then []
    else
      var rest, a := acts[..|acts| - 1], acts[|acts| - 1];
      LetIn(rest) + (if a.Msgsnd? && !Removed(rest) then DataOf(Pending(a.t, rest)) else [])
  }

  /** A message with a copy of the call's data, whose type the kernel accepts: the call's own if that is positive. */
  predicate Carries(m: Msg, c: Call) {
    m.body.Good? && m.body.block.data == c.data && m.mtype > 0 && m.mtype == if c.mtype > 0 then c.mtype else 1
  }

  predicate CallersFit(callers: seq<Caller>, acts: seq<Action>) {
    forall t | 0 <= t < |callers| ::
      match callers[t]
      case Ready => Pending(t, acts) == None
      case InSend(m) => Pending(t, acts).Some? && Carries(m, Pending(t, acts).value)
  }

  predicate HistoryFits(s: State, acts: seq<Action>) {
    CallersFit(s.callers, acts) && s.removed == Removed(acts) && s.sent == LetIn(acts)
  }

  lemma StepFits(s: State, acts: seq<Action>, a: Action)
    requires HistoryFits(s, acts) && Enabled(s, a)
    ensures HistoryFits(Next(s, a), acts + [a])
  {
    assert (acts + [a])[..|acts|] == acts;
    var s' := Next(s, a);
    forall t | 0 <= t < |s'.callers|
      ensures match s'.callers[t]
              case Ready => Pending(t, acts + [a]) == None
              case InSend(m) => Pending(t, acts + [a]).Some? && Carries(m, Pending(t, acts + [a]).value)
    {
      assert s.callers[t].Ready? || s.callers[t].InSend?;
    }
  }

  lemma {:induction false} EveryRunFits(n: nat, cap: Option<nat>, acts: seq<Action>)
    requires Schedule(Mailbox(n, cap), Any, Start(n, cap), acts)
    ensures HistoryFits(After(Mailbox(n, cap), Start(n, cap), acts), acts)
  {
    if acts == [] {
    } else {
      var rest := acts[..|acts| - 1];
      EveryRunFits(n, cap, rest);
      StepFits(After(Mailbox(n, cap), Start(n, cap), rest), rest, acts[|acts| - 1]);
      assert rest + [acts[|acts| - 1]] == acts;
    }
  }

  /** In every run the callback gets the data of the calls that were let in, as they were at the call and in that
      order: the first of them, and all of them whenever nothing is queued or in the worker's hands. */
  lemma DeliversWhatWasAsked(n: nat, cap: Option<nat>, acts: seq<Action>)
    requires Schedule(Mailbox(n, cap), Any, Start(n, cap), acts)
    ensures var s := After(Mailbox(n, cap), Start(n, cap), acts);
            && s.sent == LetIn(acts) && s.delivered <= LetIn(acts)
            && (!s.removed && s.queue == [] && !s.worker.Got? ==> s.delivered == LetIn(acts))
            && forall t | 0 <= t < |s.callers| && s.callers[t].InSend? ::
                 Pending(t, acts).Some? && Carries(s.callers[t].msg, Pending(t, acts).value)
  {
    EveryRunFits(n, cap, acts);
    ScheduleReaches(Mailbox(n, cap), acts);
    R.DeliveredInOrder(n, cap, After(Mailbox(n, cap), Start(n, cap), acts));
  }
}
