/** The sending half of a TCP server, on connection objects: its callbacks take the steps of the hand-over machine. */
module SendPath {
  import opened Machines
  import opened Queue
  import H = Handshake
  import R = HandshakeRuns
  import S = SendHistory

  /** `queue` is the stream's list of writes not yet completed. */
  class Connection {
    var asyncSendFlag: bool
    var data2: H.Buf
    var queue: seq<H.Buf>

    constructor ()
      ensures Model() == H.Conn(false, H.Null, [])
    {
      asyncSendFlag, data2, queue := false, H.Null, [];
    }

    function Model(): H.Conn
      reads this
    {
      H.Conn(asyncSendFlag, data2, queue)
    }
  }

  /** `conns` are the connections, `asyncData` the one the send event points at, `senders` the callers on other
      threads. */
  class Server {
    const conns: seq<Connection>
    var senders: seq<H.Sender>
    var holder: Option<nat>
    var asyncData: Option<nat>
    var pending: bool
    var sem: nat
    var log: seq<H.Event>
    ghost const n: nat

    constructor (conns: seq<Connection>, n: nat)
      requires forall i | 0 <= i < |conns| :: conns[i].Model() == H.Conn(false, H.Null, [])
      ensures this.conns == conns && this.n == n && Model() == H.Start(n, |conns|)
    {
      this.conns, this.n := conns, n;
      senders := seq(n, i => H.Sender(H.Idle, 0, 0));
      holder, asyncData, pending, sem, log := None, None, false, 0, [];
      new;
      assert Conns() == H.Start(n, |conns|).conns;
      assert senders == H.Start(n, |conns|).senders;
    }

    function Conns(): (ks: seq<H.Conn>)
      reads conns
      ensures |ks| == |conns| && forall i | 0 <= i < |conns| :: ks[i] == conns[i].Model()
    {
      seq(|conns|, i requires 0 <= i < |conns| reads conns => conns[i].Model())
    }

    function Model(): H.State
      reads this, conns
    {
      H.State(senders, Conns(), holder, asyncData, pending, sem, log)
    }

    ghost predicate Valid()
    {
      forall i, j | 0 <= i < j < |conns| :: conns[i] != conns[j]
    }

    /** The server is in a state that sends respecting the discipline can bring about. */
    ghost predicate Ran()
      reads this, conns
    {
      Valid() && Reachable(H.Sending(n, |conns|), Model())
    }

    lemma Fits()
      requires Ran()
      ensures H.Inv(Model())
    {
      R.EveryRunKeepsInv(n, |conns|);
    }

    /** `send_data`: `ok` says whether the write request could be allocated. */
    method SendData(c: nat, ok: bool)
      requires Valid() && c < |conns|
      modifies this`sem, this`log, conns[c]
      ensures Model() == H.SendData(old(Model()), c, ok)
      ensures conns[c].queue == old(conns[c].queue) + (if ok then [old(conns[c].data2)] else [])
      ensures sem == old(sem) + (if !ok && old(conns[c].asyncSendFlag) then 1 else 0)
    {
      ghost var before := Conns();
      var conn := conns[c];
      if !ok {
        log := log + [H.Failed(c, conn.data2)];
        if conn.asyncSendFlag {
          sem := sem + 1;
        }
        assert Conns() == before;
        return;
      }
      conn.queue := conn.queue + [conn.data2];
      log := log + [H.Wrote(c, conn.data2)];
      assert Conns() == before[c := conn.Model()];
    }

    /** `async_send_cb`. */
    method AsyncSendCb(ok: bool)
      requires Valid() && pending && asyncData.Some? && asyncData.value < |conns|
      modifies this`pending, this`sem, this`log, conns
      ensures Model() == H.Next(old(Model()), H.AsyncCb(ok))
    {
      ghost var before := Conns();
      pending := false;
      assert Conns() == before;
      SendData(asyncData.value, ok);
    }

    /** `on_conn_write`, for the oldest write of a stream. */
    method OnConnWrite(c: nat)
      requires Valid() && c < |conns| && conns[c].queue != []
      modifies this`sem, this`log, conns[c]
      ensures Model() == H.Next(old(Model()), H.WriteDone(c))
      ensures conns[c].queue == old(conns[c].queue)[1..]
      ensures sem == old(sem) + (if old(conns[c].asyncSendFlag) then 1 else 0)
    {
      ghost var before := Conns();
      var conn := conns[c];
      var req := conn.queue[0];
      conn.queue := conn.queue[1..];
      log := log + [H.Completed(c, req)];
      if conn.asyncSendFlag {
        sem := sem + 1;
      }
      assert Conns() == before[c := conn.Model()];
    }

    /** `tcp_server_send_data` on the loop thread. */
    method SendOnLoop(c: nat, p: nat, ok: bool)
      requires Valid() && c < |conns|
      modifies this`sem, this`log, conns[c]
      ensures Model() == H.Next(old(Model()), H.LoopSend(c, p, ok))
      ensures conns[c].queue == old(conns[c].queue) + (if ok then [H.Buf(H.Loop, p)] else [])
      ensures sem == old(sem) && !conns[c].asyncSendFlag
    {
      ghost var before := Conns();
      conns[c].asyncSendFlag := false;
      conns[c].data2 := H.Buf(H.Loop, p);
      assert Conns() == before[c := conns[c].Model()];
      SendData(c, ok);
    }

    // The statements of `tcp_server_send_data` on another thread, one by one.

    method Enter(t: nat, c: nat, p: nat)
      requires Valid() && H.Enabled(Model(), H.Call(t, c, p))
      modifies `senders
      ensures Model() == H.Next(old(Model()), H.Call(t, c, p))
    {
      senders := senders[t := H.Sender(H.Entered, c, p)];
    }

    method MutexLock(t: nat)
      requires Valid() && H.Enabled(Model(), H.Lock(t))
      modifies this
      ensures Model() == H.Next(old(Model()), H.Lock(t))
    {
      holder := Some(t);
      log := log + [H.Locked(t, senders[t].conn, senders[t].payload)];
      senders := senders[t := senders[t].(pc := H.Holding)];
      assert Conns() == old(Conns());
    }

    method SetFlag(t: nat)
      requires Valid() && H.Enabled(Model(), H.SetFlag(t))
      modifies `senders, conns[senders[t].conn]
      ensures Model() == H.Next(old(Model()), H.SetFlag(t))
    {
      var conn := conns[senders[t].conn];
      conn.asyncSendFlag := true;
      assert Conns() == old(Conns())[senders[t].conn := conn.Model()];
      senders := senders[t := senders[t].(pc := H.Flagged)];
    }

    method PublishBuffer(t: nat)
      requires Valid() && H.Enabled(Model(), H.Publish(t))
      modifies `senders, conns[senders[t].conn]
      ensures Model() == H.Next(old(Model()), H.Publish(t))
    {
      var conn := conns[senders[t].conn];
      conn.data2 := H.Buf(H.Thread(t), senders[t].payload);
      assert Conns() == old(Conns())[senders[t].conn := conn.Model()];
      senders := senders[t := senders[t].(pc := H.Published)];
    }

    method PointEvent(t: nat)
      requires Valid() && H.Enabled(Model(), H.Aim(t))
      modifies this
      ensures Model() == H.Next(old(Model()), H.Aim(t))
    {
      asyncData := Some(senders[t].conn);
      senders := senders[t := senders[t].(pc := H.Aimed)];
      assert Conns() == old(Conns());
    }

    method UvAsyncSend(t: nat)
      requires Valid() && H.Enabled(Model(), H.Signal(t))
      modifies this
      ensures Model() == H.Next(old(Model()), H.Signal(t))
    {
      pending := true;
      senders := senders[t := senders[t].(pc := H.Waiting)];
      assert Conns() == old(Conns());
    }

    method SemWait(t: nat)
      requires Valid() && H.Enabled(Model(), H.Wake(t))
      modifies this
      ensures Model() == H.Next(old(Model()), H.Wake(t))
    {
      sem := sem - 1;
      senders := senders[t := senders[t].(pc := H.Woken)];
      assert Conns() == old(Conns());
    }

    method MutexUnlock(t: nat)
      requires Valid() && H.Enabled(Model(), H.Unlock(t))
      modifies this
      ensures Model() == H.Next(old(Model()), H.Unlock(t))
    {
      holder := None;
      log := log + [H.Returned(t, senders[t].conn, senders[t].payload)];
      senders := senders[t := senders[t].(pc := H.Idle)];
      assert Conns() == old(Conns());
    }

    /** Any statement of any thread, as far as the discipline allows it. */
    method Do(a: H.Action)
      requires Ran() && H.Disciplined(Model(), a)
      modifies this, conns
      ensures Ran() && Model() == H.Next(old(Model()), a)
    {
      Fits();
      StepReachable(H.Sending(n, |conns|), Model(), a);
      match a {
        case Call(t, c, p) => Enter(t, c, p);
        case Lock(t) => MutexLock(t);
        case SetFlag(t) => SetFlag(t);
        case Publish(t) => PublishBuffer(t);
        case Aim(t) => PointEvent(t);
        case Signal(t) => UvAsyncSend(t);
        case Wake(t) => SemWait(t);
        case Unlock(t) => MutexUnlock(t);
        case AsyncCb(ok) => AsyncSendCb(ok);
        case WriteDone(c) => OnConnWrite(c);
        case LoopSend(c, p, ok) => SendOnLoop(c, p, ok);
      }
    }

    /** Any statement but the return of thread `t`. */
    method Proceed(t: nat, a: H.Action)
      requires Ran() && H.Disciplined(Model(), a) && a != H.Unlock(t)
      modifies this, conns
      ensures Ran() && Model() == H.Next(old(Model()), a) && S.Onward(t, old(log), log)
    {
      Fits();
      S.OnwardStep(t, Model(), a);
      Do(a);
    }

    /** What the loop thread and threads other than `t` do at one point of its program. */
    method Others(t: nat, acts: seq<H.Action>)
      requires Ran() && t < |senders|
      modifies this, conns
      ensures Ran() && |senders| == |old(senders)| && senders[t] == old(senders[t])
      ensures S.Onward(t, old(log), log)
    {
      S.OnwardSelf(t, log);
      var i := 0;
      while i < |acts|
        invariant Ran() && |senders| == |old(senders)| && senders[t] == old(senders[t])
        invariant S.Onward(t, old(log), log)
      {
        if H.Disciplined(Model(), acts[i]) && !R.OfThread(t, acts[i]) {
          R.OthersLeave(Model(), acts[i], t);
          ghost var before := log;
          Proceed(t, acts[i]);
          S.OnwardThen(t, old(log), before, log);
        }
        i := i + 1;
      }
    }

    method Pause(t: nat, turns: seq<seq<H.Action>>, k: nat) returns (k': nat)
      requires Ran() && t < |senders| && k <= |turns|
      modifies this, conns
      ensures Ran() && |senders| == |old(senders)| && senders[t] == old(senders[t])
      ensures k' == if k < |turns| then k + 1 else k
      ensures S.Onward(t, old(log), log)
    {
      S.OnwardSelf(t, log);
      k' := k;
      if k < |turns| {
        Others(t, turns[k]);
        k' := k + 1;
      }
    }

    /** `tcp_server_send_data` on another thread, as one call, whatever the loop thread and the other threads do at each
        of its points. It returns with one whole send of its own payload on its own connection added to what the thread
        has done, the last of the sends made off the loop thread. If `turns` runs out first, it is left asleep, on the
        mutex or on the semaphore, with part of one send added. */
    method SendAsync(t: nat, c: nat, p: nat, turns: seq<seq<H.Action>>) returns (done: bool)
      requires Ran() && H.Disciplined(Model(), H.Call(t, c, p))
      modifies this, conns
      ensures Ran() && t < |senders|
      ensures done ==> senders[t].pc == H.Idle && exists ok :: S.SentOnce(t, S.Mine(t, old(log)), c, p, ok, log)
      ensures done ==> exists xs, ok :: R.OffLoop(log) == R.RenderAll(xs + [R.Section(t, c, p, ok)])
      ensures !done ==> Asleep(t) && senders[t].conn == c && senders[t].payload == p
      ensures !done ==> S.BegunOnce(t, S.Mine(t, old(log)), c, p, log)
    {
      Fits();
      ghost var base := S.Mine(t, log);
      S.OutsideHasNothing(t, Model());
      Proceed(t, H.Call(t, c, p));
      var k := AwaitMutex(t, turns);
      S.OnwardThen(t, old(log), old(log), log);
      Fits();
      if holder != None {
        S.OutsideHasNothing(t, Model());
        assert S.Mine(t, log) == base + R.Render(R.Section(t, c, p, true))[..0];
        return false;
      }
      k := HandOver(t, turns, k);
      k := AwaitSemaphore(t, turns, k);
      ghost var ok :| S.Since(t, base, ok, log);
      Fits();
      if sem == 0 {
        S.AsleepHasPart(t, Model(), base, ok);
        return false;
      }
      Return(t, turns, k, base, ok);
      return true;
    }

    /** In the call, and neither the mutex nor the semaphore to be had. */
    ghost predicate Asleep(t: nat)
      reads this
    {
      t < |senders| &&
      match senders[t].pc
      case Entered => holder != None && holder != Some(t)
      case Waiting => holder == Some(t) && sem == 0
      case _ => false
    }

    /** With the semaphore posted: wake, release the mutex, return. */
    method Return(t: nat, turns: seq<seq<H.Action>>, k: nat, ghost base: seq<H.Event>, ghost ok: bool)
      requires Ran() && H.At(Model(), t, H.Waiting) && sem > 0 && k <= |turns| && S.Since(t, base, ok, log)
      modifies this, conns
      ensures Ran() && |senders| == |old(senders)| && senders[t].pc == H.Idle
      ensures var me := old(senders)[t];
              && (exists ok :: S.SentOnce(t, base, me.conn, me.payload, ok, log))
              && exists xs, ok :: R.OffLoop(log) == R.RenderAll(xs + [R.Section(t, me.conn, me.payload, ok)])
    {
      Proceed(t, H.Wake(t));
      var j := Pause(t, turns, k);
      ghost var ok' :| S.Since(t, base, ok', log);
      Fits();
      S.ReturnCompletes(t, Model(), base, ok');
      Do(H.Unlock(t));
      R.ReturnedLast(n, |conns|, Model(), t, old(senders)[t].conn, old(senders)[t].payload);
    }

    method AwaitMutex(t: nat, turns: seq<seq<H.Action>>) returns (k: nat)
      requires Ran() && t < |senders|
      modifies this, conns
      ensures Ran() && |senders| == |old(senders)| && senders[t] == old(senders[t]) && k <= |turns|
      ensures S.Onward(t, old(log), log)
    {
      k := Pause(t, turns, 0);
      while holder != None && k < |turns|
        invariant Ran() && |senders| == |old(senders)| && senders[t] == old(senders[t]) && k <= |turns|
        invariant S.Onward(t, old(log), log)
        decreases |turns| - k
      {
        ghost var before := log;
        k := Pause(t, turns, k);
        S.OnwardThen(t, old(log), before, log);
      }
    }

    method AwaitSemaphore(t: nat, turns: seq<seq<H.Action>>, k: nat) returns (k': nat)
      requires Ran() && t < |senders| && k <= |turns|
      modifies this, conns
      ensures Ran() && |senders| == |old(senders)| && senders[t] == old(senders[t]) && k' <= |turns|
      ensures S.Onward(t, old(log), log)
    {
      k' := Pause(t, turns, k);
      while sem == 0 && k' < |turns|
        invariant Ran() && |senders| == |old(senders)| && senders[t] == old(senders[t]) && k' <= |turns|
        invariant S.Onward(t, old(log), log)
        decreases |turns| - k'
      {
        ghost var before := log;
        k' := Pause(t, turns, k');
        S.OnwardThen(t, old(log), before, log);
      }
    }

    /** With the mutex to be had: take it, mark the connection, publish the buffer, point the event at the connection,
        raise it. */
    method HandOver(t: nat, turns: seq<seq<H.Action>>, k: nat) returns (k': nat)
      requires Ran() && H.At(Model(), t, H.Entered) && holder == None && k <= |turns|
      modifies this, conns
      ensures Ran() && |senders| == |old(senders)| && senders[t] == old(senders[t]).(pc := H.Waiting) && k' <= |turns|
      ensures S.Onward(t, old(log), log)
    {
      Proceed(t, H.Lock(t));
      ghost var l1 := log;
      k' := Advance(t, turns, k, H.SetFlag(t));
      ghost var l2 := log;
      k' := Advance(t, turns, k', H.Publish(t));
      S.OnwardThen(t, l1, l2, log);
      ghost var l3 := log;
      k' := Advance(t, turns, k', H.Aim(t));
      S.OnwardThen(t, l1, l3, log);
      ghost var l4 := log;
      k' := Advance(t, turns, k', H.Signal(t));
      S.OnwardThen(t, l1, l4, log);
      S.OnwardThen(t, old(log), l1, log);
    }

    /** What others do first, and then the next of these statements. */
    method Advance(t: nat, turns: seq<seq<H.Action>>, k: nat, a: H.Action) returns (k': nat)
      requires Ran() && k <= |turns| && t < |senders| && H.Enabled(Model(), a)
      requires a == H.SetFlag(t) || a == H.Publish(t) || a == H.Aim(t) || a == H.Signal(t)
      modifies this, conns
      ensures Ran() && |senders| == |old(senders)| && k' <= |turns| && S.Onward(t, old(log), log)
      ensures senders[t] == old(senders)[t].(pc := R.Reached(a)) && H.At(Model(), t, senders[t].pc)
    {
      k' := Pause(t, turns, k);
      ghost var before := log;
      Proceed(t, a);
      S.OnwardThen(t, old(log), before, log);
    }

    /** `tcp_server_send_data_2_all` on the loop thread: follows the `next` pointers of the session list, whose nodes
        are embedded in the connections that their items name. */
    method SendToAll(sessions: Node<nat>, ghost nodes: seq<Node<nat>>, p: nat, noMemory: set<nat>)
      requires Valid() && IsList(sessions, nodes) && forall k | 0 <= k < |nodes| :: nodes[k].item < |conns|
      modifies this`sem, this`log, conns
      ensures Model() == Broadcast(old(Model()), Items(nodes), p, noMemory)
    {
      ghost var k := 0;
      var q := sessions.next;
      while q != sessions
        invariant k <= |nodes| && q == if k < |nodes| then nodes[k] else sessions
        invariant Model() == Broadcast(old(Model()), Items(nodes)[..k], p, noMemory)
        decreases |nodes| - k
      {
        assert q.next == if k + 1 < |nodes| then nodes[k + 1] else sessions;
        assert Items(nodes)[..k + 1][..k] == Items(nodes)[..k];
        SendOnLoop(q.item, p, q.item !in noMemory);
        q := q.next;
        k := k + 1;
      }
      assert Items(nodes)[..k] == Items(nodes);
    }
  }

  /** The connections that the nodes of a list are embedded in. */
  function Items(nodes: seq<Node<nat>>): (ring: seq<nat>)
    ensures |ring| == |nodes| && forall k | 0 <= k < |nodes| :: ring[k] == nodes[k].item
  {
    seq(|nodes|, k requires 0 <= k < |nodes| => nodes[k].item)
  }

  /** A loop-thread send of `p` on each connection of `ring`, in order; those in `noMemory` get no request. */
  function Broadcast(s: H.State, ring: seq<nat>, p: nat, noMemory: set<nat>): H.State {
    if ring == [] then s
    else
      var c := ring[|ring| - 1];
      H.Next(Broadcast(s, ring[..|ring| - 1], p, noMemory), H.LoopSend(c, p, c !in noMemory))
  }

  /** A connection after a loop-thread send of `p`. */
  function Given(k: H.Conn, p: nat, ok: bool): H.Conn {
    var b := H.Buf(H.Loop, p);
    H.Conn(false, b, if ok then k.queue + [b] else k.queue)
  }

  lemma LoopSendEffect(s: H.State, c: nat, p: nat, ok: bool)
    requires c < |s.conns|
    ensures var z := H.Next(s, H.LoopSend(c, p, ok));
            && z.conns == s.conns[c := Given(s.conns[c], p, ok)] && z.sem == s.sem && z.pending == s.pending
            && z.senders == s.senders && z.log == s.log + [LoopEvent(c, p, ok)]
  {
  }

  function LoopEvent(c: nat, p: nat, ok: bool): H.Event {
    if ok then H.Wrote(c, H.Buf(H.Loop, p)) else H.Failed(c, H.Buf(H.Loop, p))
  }

  /** One event for each listed connection, in that order. */
  function LoopEvents(ring: seq<nat>, p: nat, noMemory: set<nat>): (es: seq<H.Event>)
    ensures |es| == |ring| && forall k | 0 <= k < |ring| :: es[k] == LoopEvent(ring[k], p, ring[k] !in noMemory)
  {
    seq(|ring|, k requires 0 <= k < |ring| => LoopEvent(ring[k], p, ring[k] !in noMemory))
  }

  /** The events of a broadcast follow the order of the list. */
  lemma {:induction false} BroadcastInOrder(s: H.State, ring: seq<nat>, p: nat, noMemory: set<nat>)
    requires forall k | 0 <= k < |ring| :: ring[k] < |s.conns|
    ensures var z := Broadcast(s, ring, p, noMemory);
            |z.conns| == |s.conns| && z.log == s.log + LoopEvents(ring, p, noMemory)
  {
    if ring == [] {
    } else {
      var rest, c := ring[..|ring| - 1], ring[|ring| - 1];
      BroadcastInOrder(s, rest, p, noMemory);
      assert Broadcast(s, ring, p, noMemory) ==
             H.Next(Broadcast(s, rest, p, noMemory), H.LoopSend(c, p, c !in noMemory));
      LoopSendEffect(Broadcast(s, rest, p, noMemory), c, p, c !in noMemory);
      assert LoopEvents(ring, p, noMemory) == LoopEvents(rest, p, noMemory) + [LoopEvent(c, p, c !in noMemory)];
    }
  }

  /** A broadcast writes once on each listed connection, on no other, and never posts the semaphore. */
  lemma {:induction false} BroadcastEffect(s: H.State, ring: seq<nat>, p: nat, noMemory: set<nat>)
    requires forall k | 0 <= k < |ring| :: ring[k] < |s.conns|
    requires forall i, j | 0 <= i < j < |ring| :: ring[i] != ring[j]
    ensures var z := Broadcast(s, ring, p, noMemory);
            && |z.conns| == |s.conns| && z.sem == s.sem && z.pending == s.pending && z.senders == s.senders
            && forall c | 0 <= c < |s.conns| :: z.conns[c] ==
                 if c in ring then Given(s.conns[c], p, c !in noMemory) else s.conns[c]
  {
    if ring == [] {
    } else {
      var rest, c := ring[..|ring| - 1], ring[|ring| - 1];
      BroadcastEffect(s, rest, p, noMemory);
      LoopSendEffect(Broadcast(s, rest, p, noMemory), c, p, c !in noMemory);
      assert ring == rest + [c] && c !in rest;
    }
  }
}
