/**
 The message queue as it is in memory: what the kernel queues is a pointer, and what it points at is a heap block.
 `MsgQueue` is the same protocol with the contents inside the messages; every function here takes its steps, and
 reads and frees only blocks that are allocated.
 */
module Mailbox {
  import opened Machines
  import Q = MsgQueue
  import R = MsgQueueRuns

  datatype Size = Right | Short | Long

  /** A message as the kernel has it. */
  datatype Raw = Raw(mtype: int, size: Size, ptr: Option<nat>)

  function RawOf(m: Q.Msg): Raw {
    match m.body
    case Good(b) => Raw(m.mtype, Right, Some(b.id))
    case NoBlock => Raw(m.mtype, Right, None)
    case Short => Raw(m.mtype, Short, None)
    case Long => Raw(m.mtype, Long, None)
  }

  /** What `msgrcv` comes back with, if it does. */
  datatype Received = Took(raw: Raw) | Failed(errno: Errno) | Asleep

  datatype Errno = EIDRM | EINVAL | EINTR | E2BIG

  /** The step of the worker that a call of `msgrcv` has been. */
  function StepOf(r: Received): Q.Action {
    match r
    case Asleep => Q.Sleep
    case Failed(errno) => if errno == E2BIG then Q.Receive else Q.Gone(errno == EIDRM)
    case Took(_) => Q.Receive
  }

  /** What happens to the worker at one point of its program: what others do there, whether a signal interrupts it if
      it sleeps, and which of two errors it gets from a removed queue. */
  datatype Turn = Turn(acts: seq<Q.Action>, signal: bool, einval: bool)

  // ------------------------------------------------------------------ the heap behind the messages

  type Heap = map<nat, seq<nat>>

  predicate Holds(heap: Heap, body: Q.Body) {
    body.Good? ==> body.block.id in heap && heap[body.block.id] == body.block.data
  }

  /** Allocated is what has not been freed, and whoever refers to a block finds there what was sent. */
  ghost predicate HeapFits(heap: Heap, s: Q.State) {
    && (forall id: nat :: id in heap <==> id < |s.places| && s.places[id] != Q.Freed)
    && (forall t | 0 <= t < |s.callers| && s.callers[t].InSend? :: Holds(heap, s.callers[t].msg.body))
    && (forall i | 0 <= i < |s.queue| :: Holds(heap, s.queue[i].body))
    && (s.worker.Got? || s.worker.InCallback? ==> Holds(heap, Q.Good(s.worker.block)))
  }

  predicate QueueFits(queue: seq<Raw>, ms: seq<Q.Msg>) {
    |queue| == |ms| && forall i | 0 <= i < |queue| :: queue[i] == RawOf(ms[i])
  }

  lemma SendFits(heap: Heap, s: Q.State, t: nat, data: seq<nat>, mtype: int)
    requires Q.Owned(s) && HeapFits(heap, s) && Q.Enabled(s, Q.Send(t, data, mtype, true))
    ensures HeapFits(heap[|s.places| := data], Q.Next(s, Q.Send(t, data, mtype, true)))
  {
  }

  lemma MsgsndFits(heap: Heap, s: Q.State, t: nat)
    requires Q.Owned(s) && HeapFits(heap, s) && Q.Enabled(s, Q.Msgsnd(t))
    ensures s.callers[t].msg.body.Good?
    ensures HeapFits(if s.removed then heap - {s.callers[t].msg.body.block.id} else heap, Q.Next(s, Q.Msgsnd(t)))
  {
    var s' := Q.Next(s, Q.Msgsnd(t));
    assert s'.queue == s.queue || s'.queue == s.queue + [s.callers[t].msg];
  }

  lemma SendInterruptFits(heap: Heap, s: Q.State, t: nat)
    requires Q.Owned(s) && HeapFits(heap, s) && Q.Enabled(s, Q.SendInterrupt(t))
    ensures s.callers[t].msg.body.Good?
    ensures HeapFits(heap - {s.callers[t].msg.body.block.id}, Q.Next(s, Q.SendInterrupt(t)))
  {
  }

  lemma ReceiveFits(heap: Heap, s: Q.State)
    requires Q.Owned(s) && HeapFits(heap, s) && Q.Enabled(s, Q.Receive)
    ensures HeapFits(heap, Q.Next(s, Q.Receive))
  {
    assert s.queue[0].body.Good? ==> Q.Owns(s, s.queue[0].body, Q.InQueue);
  }

  lemma EndFits(heap: Heap, s: Q.State)
    requires Q.Owned(s) && HeapFits(heap, s) && Q.Enabled(s, Q.EndCb)
    ensures HeapFits(heap - {s.worker.block.id}, Q.Next(s, Q.EndCb))
  {
  }

  lemma OtherFits(heap: Heap, s: Q.State, a: Q.Action)
    requires Q.Owned(s) && HeapFits(heap, s) && Q.Enabled(s, a)
    requires !a.Msgsnd? && !a.SendInterrupt? && !a.Receive? && !a.EndCb? && (a.Send? ==> !a.ok)
    ensures HeapFits(heap, Q.Next(s, a))
  {
  }

  /** What the senders have in hand: a message prepared and not yet queued, or nothing. */
  predicate HandsFit(hands: seq<Option<Raw>>, callers: seq<Q.Caller>) {
    |hands| == |callers| &&
    forall t | 0 <= t < |hands| :: hands[t] == if callers[t].InSend? then Some(RawOf(callers[t].msg)) else None
  }

  /** `heap` and `made` are the allocator's blocks and their number so far, `hands` the senders' messages not yet
      queued, `handed` what the callback got. `model` is the state of the protocol, with `n` senders. */
  class MsgQueue {
    const cap: Option<nat>
    var isRunning: bool
    var removed: bool
    var queue: seq<Raw>
    var heap: Heap
    var made: nat
    var hands: seq<Option<Raw>>
    var handed: seq<seq<nat>>
    ghost const n: nat
    ghost var model: Q.State

    /** The memory is that of a state that the protocol can reach. */
    ghost predicate Valid()
      reads this
    {
      && Reachable(Q.Mailbox(n, cap), model)
      && model.cap == cap && isRunning == model.running && removed == model.removed
      && made == |model.places| && handed == model.delivered
      && HeapFits(heap, model) && QueueFits(queue, model.queue) && HandsFit(hands, model.callers)
    }

    constructor (n: nat, cap: Option<nat>)
      ensures Valid() && model == Q.Start(n, cap) && this.n == n && this.cap == cap
    {
      this.n, this.cap := n, cap;
      isRunning, removed, queue, heap, made, handed := true, false, [], map[], 0, [];
      model := Q.Start(n, cap);
      hands := seq(n, t => None);
      InitReachable(Q.Mailbox(n, cap));
    }

    /** The protocol takes step `a`. */
    ghost method Step(a: Q.Action)
      requires Reachable(Q.Mailbox(n, cap), model) && Q.Enabled(model, a)
      modifies `model
      ensures Reachable(Q.Mailbox(n, cap), model) && model == Q.Next(old(model), a)
    {
      StepReachable(Q.Mailbox(n, cap), model, a);
      model := Q.Next(model, a);
    }

    lemma Owning()
      requires Reachable(Q.Mailbox(n, cap), model)
      ensures Q.Owned(model) && Q.Settled(model)
    {
      Q.EveryRunKeepsInv(n, cap);
    }

    /** The first half of `msg_send`: allocates a block and copies the data. */
    method Prepare(t: nat, data: seq<nat>, mtype: int, haveMemory: bool)
      requires Valid() && Q.Enabled(model, Q.Send(t, data, mtype, haveMemory))
      modifies `heap, `made, `hands, `model
      ensures Valid() && model == Q.Next(old(model), Q.Send(t, data, mtype, haveMemory))
      ensures haveMemory ==>
                && hands == old(hands)[t := Some(Raw(Q.TypeFor(mtype), Right, Some(old(made))))]
                && old(made) !in old(heap) && heap == old(heap)[old(made) := data]
      ensures !haveMemory ==> hands == old(hands) && heap == old(heap)
    {
      Owning();
      if !haveMemory {
        Step(Q.Send(t, data, mtype, false));
        return;
      }
      var buf := made;
      SendFits(heap, model, t, data, mtype);
      heap, made := heap[buf := data], made + 1;
      hands := hands[t := Some(Raw(Q.TypeFor(mtype), Right, Some(buf)))];
      Step(Q.Send(t, data, mtype, true));
    }

    predicate Room()
      reads this
    {
      cap.Some? ==> |queue| < cap.value
    }

    /** The second half: `msgsnd`, which sleeps (`None`) on a full queue. If the queue has gone, the block is freed. */
    method Deliver(t: nat) returns (status: Option<int>)
      requires Valid() && t < |hands| && hands[t].Some?
      modifies `queue, `heap, `hands, `model
      ensures Valid()
      ensures if Q.Enabled(old(model), Q.Msgsnd(t))
              then model == Q.Next(old(model), Q.Msgsnd(t)) && status == Some(if removed then -1 else 0)
              else model == old(model) && status == None
      ensures var raw := old(hands)[t].value;
              && (status == Some(0) ==> queue == old(queue) + [raw] && heap == old(heap))
              && (status == Some(-1) ==> raw.ptr.Some? && queue == old(queue) && heap == old(heap) - {raw.ptr.value})
              && (status == None ==> queue == old(queue) && heap == old(heap))
    {
      Owning();
      if !removed && !Room() {
        return None;
      }
      var raw := hands[t].value;
      MsgsndFits(heap, model, t);
      if removed {
        assert raw.ptr.value in heap;
        heap := heap - {raw.ptr.value};
        status := Some(-1);
      } else {
        queue := queue + [raw];
        status := Some(0);
      }
      hands := hands[t := None];
      Step(Q.Msgsnd(t));
    }

    /** The second half when a signal ends the sleep: the block is freed. */
    method GiveUp(t: nat) returns (status: int)
      requires Valid() && t < |hands| && hands[t].Some? && !removed
      modifies `heap, `hands, `model
      ensures Valid() && status == -1
      ensures Q.Enabled(old(model), Q.SendInterrupt(t)) && model == Q.Next(old(model), Q.SendInterrupt(t))
      ensures old(hands)[t].value.ptr.Some? && heap == old(heap) - {old(hands)[t].value.ptr.value}
    {
      Owning();
      var p := hands[t].value.ptr.value;
      SendInterruptFits(heap, model, t);
      assert p in heap;
      heap := heap - {p};
      hands := hands[t := None];
      Step(Q.SendInterrupt(t));
      return -1;
    }

    /** `msg_send` by sender `t`; `haveId` is a valid queue number, `haveData` data not null, and `signal` says whether
        one comes when it sleeps. It makes its two steps, or sleeps after the first. */
    method MsgSend(t: nat, haveId: bool, haveData: bool, data: seq<nat>, mtype: int, haveMemory: bool, signal: bool)
      returns (status: Option<int>)
      requires Valid() && t < |hands| && hands[t] == None
      modifies `queue, `heap, `made, `hands, `model
      ensures Valid()
      ensures !haveId || !haveData || !haveMemory ==> model == old(model) && status == Some(-1)
      ensures haveId && haveData && haveMemory ==>
                var s := Q.Next(old(model), Q.Send(t, data, mtype, true));
                if !removed && !Q.Room(old(model)) then
                  if signal then model == Q.Next(s, Q.SendInterrupt(t)) && status == Some(-1)
                  else model == s && status == None
                else model == Q.Next(s, Q.Msgsnd(t)) && status == Some(if removed then -1 else 0)
      ensures status == Some(0) ==>
                && queue == old(queue) + [Raw(Q.TypeFor(mtype), Right, Some(old(made)))]
                && old(made) !in old(heap) && heap == old(heap)[old(made) := data]
      ensures status == Some(-1) ==> queue == old(queue) && heap == old(heap)
    {
      if !haveId || !haveData {
        return Some(-1);
      }
      Prepare(t, data, mtype, haveMemory);
      if !haveMemory {
        return Some(-1);
      }
      status := PutIn(t, signal);
    }

    /** Its second half, with a signal ending the sleep or not. */
    method PutIn(t: nat, signal: bool) returns (status: Option<int>)
      requires Valid() && t < |hands| && hands[t].Some?
      modifies `queue, `heap, `hands, `model
      ensures Valid()
      ensures model == if !removed && !Q.Room(old(model)) then
                         if signal then Q.Next(old(model), Q.SendInterrupt(t)) else old(model)
                       else Q.Next(old(model), Q.Msgsnd(t))
      ensures status == if !removed && !Q.Room(old(model)) then if signal then Some(-1) else None
                        else Some(if removed then -1 else 0)
      ensures old(hands)[t].value.ptr.Some?
      ensures queue == if status == Some(0) then old(queue) + [old(hands)[t].value] else old(queue)
      ensures heap == if status == Some(-1) then old(heap) - {old(hands)[t].value.ptr.value} else old(heap)
    {
      Owning();
      status := Deliver(t);
      if status == None && signal {
        var failed := GiveUp(t);
        status := Some(failed);
      }
    }

    /** Whether `a` is a step that a thread other than the worker can take now. */
    predicate CanDo(a: Q.Action)
      reads this
    {
      match a
      case Send(t, _, _, _) => t < |hands| && hands[t] == None
      case Msgsnd(t) => t < |hands| && hands[t].Some? && (removed || Room())
      case SendInterrupt(t) => t < |hands| && hands[t].Some? && !removed
      case Foreign(m) => !removed && Room() && !m.body.Good?
      case Clear => isRunning
      case Rmid => !isRunning && !removed
      case _ => false
    }

    /** What the kernel queue, the flag and the other threads' memory see of a step that is not the worker's. */
    method Other(a: Q.Action)
      requires Valid() && CanDo(a)
      modifies this
      ensures Valid() && Q.Enabled(old(model), a) && model == Q.Next(old(model), a)
    {
      match a {
        case Send(t, data, mtype, ok) =>
          Prepare(t, data, mtype, ok);
        case Msgsnd(t) =>
          var status := Deliver(t);
        case SendInterrupt(t) =>
          var status := GiveUp(t);
        case Foreign(m) =>
          Enqueue(m);
        case Clear =>
          ClearFlag();
        case Rmid =>
          RemoveQueue();
        case _ =>
          assert false;
      }
    }

    /** A message that another process queues. */
    method Enqueue(m: Q.Msg)
      requires Valid() && CanDo(Q.Foreign(m))
      modifies `queue, `model
      ensures Valid() && Q.Enabled(old(model), Q.Foreign(m)) && model == Q.Next(old(model), Q.Foreign(m))
    {
      Owning();
      OtherFits(heap, model, Q.Foreign(m));
      queue := queue + [RawOf(m)];
      Step(Q.Foreign(m));
    }

    /** The first two statements of `msg_queue_destroy`. */
    method ClearFlag()
      requires Valid() && isRunning
      modifies `isRunning, `model
      ensures Valid() && Q.Enabled(old(model), Q.Clear) && model == Q.Next(old(model), Q.Clear)
    {
      Owning();
      OtherFits(heap, model, Q.Clear);
      isRunning := false;
      Step(Q.Clear);
    }

    method RemoveQueue()
      requires Valid() && !isRunning && !removed
      modifies `removed, `queue, `model
      ensures Valid() && Q.Enabled(old(model), Q.Rmid) && model == Q.Next(old(model), Q.Rmid)
    {
      Owning();
      OtherFits(heap, model, Q.Rmid);
      removed, queue := true, [];
      Step(Q.Rmid);
    }

    /** Everything others do at one point of the worker's program. */
    method Others(acts: seq<Q.Action>)
      requires Valid()
      modifies this
      ensures Valid() && model.worker == old(model.worker)
    {
      var i := 0;
      while i < |acts|
        invariant Valid() && model.worker == old(model.worker)
      {
        if CanDo(acts[i]) {
          Other(acts[i]);
        }
        i := i + 1;
      }
    }

    method Pause(turns: seq<Turn>, k: nat) returns (k': nat)
      requires Valid() && k <= |turns|
      modifies this
      ensures Valid() && model.worker == old(model.worker)
      ensures k' == if k < |turns| then k + 1 else k
      ensures k == |turns| ==> unchanged(this)
    {
      k' := k;
      if k < |turns| {
        Others(turns[k].acts);
        k' := k + 1;
      }
    }

    /** Where the worker stands when `msgrcv` has come to `r`. */
    ghost predicate Outcome(noError: bool, r: Received)
      reads this
    {
      match r
      case Took(raw) => if noError then model.worker.Checking? else WorkerFits(raw, model.worker)
      case Asleep => model.worker.Blocked? && queue == [] && !removed && !noError
      case Failed(E2BIG) => model.worker.Retrying? && !noError
      case Failed(errno) => model.worker == if errno == EIDRM && !noError then Q.Exited else Q.Checking
    }

    /** One attempt of `msgrcv` with type 0: the first message, unless it is too long and truncation not allowed; an
        error when the queue has gone, `EIDRM` if the call had been asleep; or sleep. */
    method Msgrcv(noError: bool, slept: bool, einval: bool) returns (r: Received)
      requires Valid() && model.worker == if noError then Q.Retrying else if slept then Q.Blocked else Q.Receiving
      modifies `queue, `model
      ensures Valid()
      ensures Outcome(noError, r)
      ensures model == Q.Next(old(model), StepOf(r))
      ensures queue == if r.Took? then old(queue)[1..] else old(queue)
      ensures r.Took? ==> old(queue) != [] && r.raw == old(queue)[0]
      ensures r.Failed? ==> r.errno != EINTR && (r.errno != E2BIG ==> removed)
    {
      if removed {
        r := Failed(if einval && !slept then EINVAL else EIDRM);
        Owning();
        OtherFits(heap, model, StepOf(r));
        Step(StepOf(r));
      } else if queue == [] {
        r := Asleep;
        Doze(slept);
      } else {
        r := TakeFirst(noError);
      }
    }

    /** `msgrcv` finds no message. */
    method Doze(slept: bool)
      requires Valid() && !removed && queue == []
      requires model.worker.Retrying? || model.worker == if slept then Q.Blocked else Q.Receiving
      modifies `model
      ensures Valid() && model == Q.Next(old(model), Q.Sleep) && model.worker.Blocked? && !old(model).worker.Retrying?
    {
      Owning();
      if !slept {
        OtherFits(heap, model, Q.Sleep);
        Step(Q.Sleep);
      }
    }

    /** `msgrcv` finds a message. */
    method TakeFirst(noError: bool) returns (r: Received)
      requires Valid() && !removed && queue != []
      requires if noError then model.worker.Retrying? else model.worker.Receiving? || model.worker.Blocked?
      modifies `queue, `model
      ensures Valid() && Outcome(noError, r) && model == Q.Next(old(model), Q.Receive)
      ensures queue == if r.Took? then old(queue)[1..] else old(queue)
      ensures r == if old(queue)[0].size.Long? && !noError then Failed(E2BIG) else Took(old(queue)[0])
    {
      Owning();
      ReceiveFits(heap, model);
      if queue[0].size.Long? && !noError {
        r := Failed(E2BIG);
      } else {
        r := Took(queue[0]);
        queue := queue[1..];
      }
      Step(Q.Receive);
    }

    /** `msgrcv` until it returns, or sleeps and nothing more happens to it. */
    method Receive(noError: bool, turns: seq<Turn>, k: nat) returns (r: Received, k': nat)
      requires Valid() && model.worker == (if noError then Q.Retrying else Q.Receiving) && k <= |turns|
      modifies this
      ensures Valid() && k <= k' <= |turns|
      ensures Outcome(noError, r)
      ensures k == |turns| ==>
                && removed == old(removed) && isRunning == old(isRunning)
                && (r.Took? ==> |queue| < |old(queue)|) && (r == Failed(E2BIG) ==> queue == old(queue))
                && (r.Failed? && r.errno != E2BIG ==> removed)
    {
      k' := k;
      r := Msgrcv(noError, false, k < |turns| && turns[k].einval);
      if r.Asleep? && k < |turns| {
        r, k' := Wait(turns, k);
      }
    }

    /** A sleeping `msgrcv`, until something ends it or nothing more happens. */
    method Wait(turns: seq<Turn>, k: nat) returns (r: Received, k': nat)
      requires Valid() && Outcome(false, Asleep) && k <= |turns|
      modifies this
      ensures Valid() && k <= k' <= |turns| && Outcome(false, r)
    {
      r, k' := Asleep, k;
      while r.Asleep? && k' < |turns|
        invariant Valid() && k <= k' <= |turns| && Outcome(false, r)
        decreases |turns| - k'
      {
        var signal := turns[k'].signal;
        k' := Pause(turns, k');
        if signal {
          Interrupt();
          r := Failed(EINTR);
        } else {
          r := Msgrcv(false, true, false);
        }
      }
    }

    method Interrupt()
      requires Valid() && model.worker.Blocked?
      modifies `model
      ensures Valid() && model == Q.Next(old(model), Q.Interrupt)
    {
      Owning();
      OtherFits(heap, model, Q.Interrupt);
      Step(Q.Interrupt);
    }

    /** The test of the loop in `msg_thread`. */
    method CheckFlag() returns (go: bool)
      requires Valid() && model.worker.Checking?
      modifies `model
      ensures Valid() && go == isRunning && model == Q.Next(old(model), Q.Check)
    {
      Owning();
      OtherFits(heap, model, Q.Check);
      Step(Q.Check);
      go := isRunning;
    }

    /** The callback reads the block at `p`, which is allocated. */
    method HandOver(p: nat)
      requires Valid() && model.worker.Got? && model.worker.block.id == p
      modifies `handed, `model
      ensures Valid() && model == Q.Next(old(model), Q.StartCb)
      ensures model.worker.InCallback? && model.worker.block.id == p
      ensures p in old(heap) && handed == old(handed) + [old(heap)[p]]
    {
      Owning();
      OtherFits(heap, model, Q.StartCb);
      handed := handed + [heap[p]];
      Step(Q.StartCb);
    }

    /** `free(msg.msg_buf)`: the block is still allocated, and nobody else refers to it. */
    method Release(p: nat)
      requires Valid() && model.worker.InCallback? && model.worker.block.id == p
      modifies `heap, `model
      ensures Valid() && model == Q.Next(old(model), Q.EndCb) && model.worker.Checking?
      ensures p in old(heap) && p !in heap
    {
      Owning();
      EndFits(heap, model);
      heap := heap - {p};
      Step(Q.EndCb);
    }

    /** The second `msgrcv` of `msg_thread`, which throws away a message that is too long. */
    method Discard(turns: seq<Turn>, k: nat) returns (k': nat)
      requires Valid() && model.worker.Retrying? && k <= |turns|
      modifies this
      ensures Valid() && k <= k' <= |turns| && model.worker.Checking?
      ensures k == |turns| && !old(removed) ==> |queue| < |old(queue)|
    {
      k' := Pause(turns, k);
      var r;
      r, k' := Receive(true, turns, k');
    }

    /** What `msg_thread` does with a message it has taken. */
    method Handle(raw: Raw, turns: seq<Turn>, k: nat) returns (k': nat)
      requires Valid() && WorkerFits(raw, model.worker) && k <= |turns|
      modifies this
      ensures Valid() && k <= k' <= |turns| && model.worker.Checking?
      ensures k == |turns| ==> queue == old(queue)
    {
      k' := k;
      if !raw.size.Right? {
        return;
      }
      if raw.ptr.Some? {
        HandOver(raw.ptr.value);
        k' := Pause(turns, k);
        Release(raw.ptr.value);
      }
    }

    /** `msg_thread`, whatever senders, signals, other processes and the destroying thread do at each of its points:
        it goes through states that the protocol can reach, and stops only when it has ended, the flag being down, or
        sleeps, having handed over the contents of every message sent. */
    method MsgThread(turns: seq<Turn>) returns (asleep: bool)
      requires Valid() && model.worker.Checking?
      modifies this
      ensures Valid()
      ensures if asleep then model.worker.Blocked? && queue == [] && !removed && handed == model.sent
              else model.worker.Exited? && !isRunning
    {
      var k := 0;
      while true
        invariant Valid() && model.worker.Checking? && k <= |turns|
        decreases |turns| - k, |queue|
      {
        k := Pause(turns, k);
        var go := CheckFlag();
        Owning();
        if !go {
          return false;
        }
        k := Pause(turns, k);
        var r;
        r, k := Receive(false, turns, k);
        if r.Asleep? {
          R.DeliveredInOrder(n, cap, model);
          return true;
        }
        if r.Failed? {
          if r.errno == EIDRM {
            Owning();
            return false;
          } else if r.errno == E2BIG {
            k := Discard(turns, k);
          }
          continue;
        }
        k := Handle(r.raw, turns, k);
      }
    }
  }

  /** Where the worker goes with a message it has taken: only one of the right size that carries a block is handled. */
  predicate WorkerFits(raw: Raw, w: Q.Worker) {
    if raw.size.Right? && raw.ptr.Some? then w.Got? && w.block.id == raw.ptr.value else w.Checking?
  }
}
