/**
 The UDP socket object. Destinations are passed around as pointers to address cells, one of which belongs to the
 socket; the address machine's step that each statement takes is what these pointers amount to.
 */
module UdpSocket {
  import opened Machines
  import H = Handshake
  import R = HandshakeRuns
  import U = UdpCapture
  import L = SendHistory
  import S = SocketHistory

  /** An address in memory; `None` is one that has been cleared. */
  class AddrCell {
    var addr: Option<nat>

    constructor (addr: Option<nat>)
      ensures this.addr == addr
    {
      this.addr := addr;
    }
  }

  /** `sendAddr` is the socket's own address cell, `data1` the published buffer, `data2` the published pointer to the
      destination; `queue` lists the send requests not yet completed, `out` the datagrams handed to the network.
      `want`, `filling` and `log` record what the threads have asked for and done. */
  class Socket {
    const sendAddr: AddrCell
    var asyncSendFlag: bool
    var data1: H.Buf
    var data2: AddrCell?
    var queue: seq<H.Buf>
    var pending: bool
    var sem: nat
    var holder: Option<nat>
    var target: Option<nat>
    var senders: seq<H.Sender>
    var args: seq<AddrCell>
    var want: seq<nat>
    var filling: seq<bool>
    var log: seq<H.Event>
    var out: seq<U.Datagram>

    constructor (n: nat)
      ensures Model() == U.UdpStart(n) && fresh(sendAddr)
      ensures forall cfg: seq<set<U.Request>> | |cfg| == n :: Ran(cfg)
    {
      var cell := new AddrCell(None);
      sendAddr := cell;
      asyncSendFlag, data1, data2, queue := false, H.Null, null, [];
      pending, sem, holder, target := false, 0, None, None;
      senders := seq(n, i => H.Sender(H.Idle, 0, 0));
      args := seq(n, i => cell);
      want := seq(n, i => 0);
      filling := seq(n, i => false);
      log, out := [], [];
      new;
      assert Core().conns == H.Start(n, 1).conns;
      assert Args() == U.UdpStart(n).args;
      forall cfg: seq<set<U.Request>> | |cfg| == n ensures Ran(cfg) {
        InitReachable(U.Socket(cfg));
      }
    }

    function Core(): H.State
      reads this
    {
      H.State(senders, [H.Conn(asyncSendFlag, data1, queue)], holder, target, pending, sem, log)
    }

    /** What a pointer amounts to: the socket's cell, whatever it holds when read, or an address of the caller's. */
    function RefTo(c: AddrCell): U.AddrRef
      reads c
    {
      if c == sendAddr then U.Shared else U.Private(c.addr)
    }

    function Args(): (refs: seq<U.AddrRef>)
      reads this, args
      ensures |refs| == |args| && forall t | 0 <= t < |args| :: refs[t] == RefTo(args[t])
    {
      seq(|args|, t requires 0 <= t < |args| reads this, args => RefTo(args[t]))
    }

    function Model(): U.Udp
      reads this, sendAddr, data2, args
    {
      U.Udp(Core(), Args(), want, filling, sendAddr.addr, if data2 == null then None else Some(RefTo(data2)), out)
    }

    /** Sends of the requests in `cfg`, respecting the discipline, can have brought the socket where it is. */
    ghost predicate Ran(cfg: seq<set<U.Request>>)
      reads this, sendAddr, data2, args
    {
      Reachable(U.Socket(cfg), Model())
    }

    lemma Fits(cfg: seq<set<U.Request>>)
      requires Ran(cfg)
      ensures H.Inv(Core()) && |senders| == |args| == |want| == |filling| == |cfg|
    {
      U.ShapeKept(cfg);
      U.SocketRefinesHandshake(cfg, Model());
      R.EveryRunKeepsInv(|cfg|, 1);
    }

    /** `send_data`: reads the address through the published pointer; `ok` says whether the request could be allocated,
        `wanted` is what the owner of the buffer had asked for. */
    method SendData(ok: bool, wanted: Option<nat>)
      modifies this`sem, this`queue, this`log, this`out
      ensures Core() == H.SendData(old(Core()), 0, ok)
      ensures out == if ok then old(out) + [U.Datagram(data1, U.Deref(Model()), wanted)] else old(out)
    {
      if !ok {
        log := log + [H.Failed(0, data1)];
        if asyncSendFlag {
          sem := sem + 1;
        }
        return;
      }
      queue := queue + [data1];
      log := log + [H.Wrote(0, data1)];
      out := out + [U.Datagram(data1, if data2 == null then None else data2.addr, wanted)];
    }

    /** `async_send_cb`. */
    method AsyncSendCb(ok: bool)
      requires pending && target == Some(0)
      modifies this
      ensures Model() == U.UdpNext(old(Model()), U.Inner(H.AsyncCb(ok)))
      ensures if ok && data2 != null then |out| == |old(out)| + 1 && out[|old(out)|].buf == data1
                                          && out[..|old(out)|] == old(out) && out[|old(out)|].addr == data2.addr
              else ok || out == old(out)
    {
      pending := false;
      assert Args() == old(Args());
      SendData(ok, U.WantedBy(Model(), data1));
    }

    /** `on_send_cb`, for the oldest request. */
    method OnSendCb()
      requires queue != []
      modifies this
      ensures Model() == U.UdpNext(old(Model()), U.Inner(H.WriteDone(0)))
      ensures queue == old(queue)[1..] && sem == old(sem) + (if asyncSendFlag then 1 else 0)
    {
      log := log + [H.Completed(0, queue[0])];
      queue := queue[1..];
      if asyncSendFlag {
        sem := sem + 1;
      }
      assert Args() == old(Args());
    }

    /** What the loop thread publishes before it sends. */
    method PublishOnLoop(p: nat, addr: AddrCell)
      modifies `asyncSendFlag, `data1, `data2
      ensures Core() == H.SetConn(old(Core()), 0, H.Conn(false, H.Buf(H.Loop, p), queue))
      ensures data1 == H.Buf(H.Loop, p) && data2 == addr
    {
      asyncSendFlag := false;
      data1 := H.Buf(H.Loop, p);
      data2 := addr;
    }

    /** The request that a call with pointer `c` makes. */
    function RequestOf(c: AddrCell): U.Request
      requires c.addr.Some?
      reads c
    {
      if c == sendAddr then U.ViaIp(c.addr.value) else U.Direct(c.addr.value)
    }

    /** `udp_send_data` on the loop thread. */
    method SendOnLoop(p: nat, addr: AddrCell, ok: bool)
      requires addr.addr.Some?
      modifies this
      ensures Model() == U.UdpNext(old(Model()), U.SendHere(p, RequestOf(addr), ok))
      ensures out == old(out) + if ok then [U.Datagram(H.Buf(H.Loop, p), addr.addr, addr.addr)] else []
    {
      PublishOnLoop(p, addr);
      SendData(ok, addr.addr);
      assert Args() == old(Args());
    }

    /** `udp_send_data_ip` on the loop thread. */
    method SendIpOnLoop(p: nat, ip: nat, ok: bool)
      modifies this, sendAddr
      ensures Model() == U.UdpNext(old(Model()), U.SendHere(p, U.ViaIp(ip), ok))
      ensures out == old(out) + if ok then [U.Datagram(H.Buf(H.Loop, p), Some(ip), Some(ip))] else []
    {
      WriteCell(None);
      WriteCell(Some(ip));
      SendOnLoop(p, sendAddr, ok);
    }

    /** Writes the socket's cell, and with it what every pointer to that cell reads. */
    method WriteCell(addr: Option<nat>)
      modifies sendAddr
      ensures Model() == old(Model()).(sendAddr := addr) && sendAddr.addr == addr
    {
      sendAddr.addr := addr;
      assert Args() == old(Args());
    }

    // The statements of `udp_send_data_ip` and `udp_send_data` on another thread, one by one.

    /** The address is cleared, without the mutex. */
    method ClearCell(t: nat)
      requires U.Known(Model(), t)
      modifies this`filling, sendAddr
      ensures Model() == U.UdpNext(old(Model()), U.Clear(t))
      ensures sendAddr.addr == None && filling == old(filling)[t := true]
    {
      WriteCell(None);
      filling := filling[t := true];
      assert Args() == old(Args());
    }

    /** The address is filled in, and the call goes on with a pointer to it. */
    method FillCell(t: nat, p: nat, ip: nat)
      requires U.Known(Model(), t) && H.Enabled(Core(), H.Call(t, 0, p))
      modifies this, sendAddr
      ensures Model() == U.UdpNext(old(Model()), U.Begin(t, p, U.ViaIp(ip)))
      ensures sendAddr.addr == Some(ip) && args == old(args)[t := sendAddr]
      ensures senders == old(senders)[t := H.Sender(H.Entered, 0, p)]
    {
      WriteCell(Some(ip));
      Enter(t, p, sendAddr);
    }

    /** Thread `t` calls `udp_send_data` with the pointer `addr`, the socket's own or one of its own. */
    method Enter(t: nat, p: nat, addr: AddrCell)
      requires U.Known(Model(), t) && H.Enabled(Core(), H.Call(t, 0, p)) && addr.addr.Some?
      modifies this
      ensures Model() == U.UdpNext(old(Model()), U.Begin(t, p, RequestOf(addr)))
      ensures args == old(args)[t := addr] && senders == old(senders)[t := H.Sender(H.Entered, 0, p)]
    {
      args := args[t := addr];
      want := want[t := addr.addr.value];
      filling := filling[t := false];
      senders := senders[t := H.Sender(H.Entered, 0, p)];
      assert Args() == old(Args())[t := RefTo(addr)];
    }

    method MutexLock(t: nat)
      requires H.Enabled(Core(), H.Lock(t))
      modifies this
      ensures Model() == U.UdpNext(old(Model()), U.Inner(H.Lock(t)))
    {
      holder := Some(t);
      log := log + [H.Locked(t, senders[t].conn, senders[t].payload)];
      senders := senders[t := senders[t].(pc := H.Holding)];
      assert Args() == old(Args());
    }

    method SetFlag(t: nat)
      requires H.Enabled(Core(), H.SetFlag(t))
      modifies this
      ensures Model() == U.UdpNext(old(Model()), U.Inner(H.SetFlag(t)))
    {
      asyncSendFlag := true;
      senders := senders[t := senders[t].(pc := H.Flagged)];
      assert Args() == old(Args());
    }

    /** The buffer and the pointer to its destination. */
    method Publish(t: nat)
      requires H.Enabled(Core(), H.Publish(t)) && t < |args|
      modifies this
      ensures Model() == U.UdpNext(old(Model()), U.Inner(H.Publish(t)))
    {
      data1 := H.Buf(H.Thread(t), senders[t].payload);
      data2 := args[t];
      senders := senders[t := senders[t].(pc := H.Published)];
      assert Args() == old(Args());
    }

    method PointEvent(t: nat)
      requires H.Enabled(Core(), H.Aim(t))
      modifies this
      ensures Model() == U.UdpNext(old(Model()), U.Inner(H.Aim(t)))
    {
      target := Some(senders[t].conn);
      senders := senders[t := senders[t].(pc := H.Aimed)];
      assert Args() == old(Args());
    }

    method UvAsyncSend(t: nat)
      requires H.Enabled(Core(), H.Signal(t))
      modifies this
      ensures Model() == U.UdpNext(old(Model()), U.Inner(H.Signal(t)))
    {
      pending := true;
      senders := senders[t := senders[t].(pc := H.Waiting)];
      assert Args() == old(Args());
    }

    method SemWait(t: nat)
      requires H.Enabled(Core(), H.Wake(t))
      modifies this
      ensures Model() == U.UdpNext(old(Model()), U.Inner(H.Wake(t)))
    {
      sem := sem - 1;
      senders := senders[t := senders[t].(pc := H.Woken)];
      assert Args() == old(Args());
    }

    method MutexUnlock(t: nat)
      requires H.Enabled(Core(), H.Unlock(t))
      modifies this
      ensures Model() == U.UdpNext(old(Model()), U.Inner(H.Unlock(t)))
    {
      holder := None;
      log := log + [H.Returned(t, senders[t].conn, senders[t].payload)];
      senders := senders[t := senders[t].(pc := H.Idle)];
      assert Args() == old(Args());
    }

    // Whole calls, under interference.

    /** Any statement of any thread. */
    method Do(cfg: seq<set<U.Request>>, x: U.UdpAction)
      requires Ran(cfg) && U.UdpEnabled(cfg, Model(), x)
      modifies this, sendAddr
      ensures Ran(cfg) && Model() == U.UdpNext(old(Model()), x)
    {
      Fits(cfg);
      StepReachable(U.Socket(cfg), Model(), x);
      match x {
        case Clear(t) => ClearCell(t);
        case Begin(t, p, Direct(a)) =>
          var own := new AddrCell(Some(a));
          Enter(t, p, own);
        case Begin(t, p, ViaIp(ip)) => FillCell(t, p, ip);
        case SendHere(p, Direct(a), ok) =>
          var own := new AddrCell(Some(a));
          SendOnLoop(p, own, ok);
        case SendHere(p, ViaIp(ip), ok) => SendIpOnLoop(p, ip, ok);
        case Inner(a) =>
          if a.AsyncCb? {
            AsyncSendCb(a.ok);
          } else if a.WriteDone? {
            OnSendCb();
          } else {
            Statement(a);
          }
      }
    }

    /** One of the statements between taking and releasing the mutex. */
    method Statement(a: H.Action)
      requires H.Enabled(Core(), a) && !a.Call? && !H.LoopAction(a) && (a.Publish? ==> a.t < |args|)
      modifies this
      ensures Model() == U.UdpNext(old(Model()), U.Inner(a))
    {
      match a {
        case Lock(t) => MutexLock(t);
        case SetFlag(t) => SetFlag(t);
        case Publish(t) => Publish(t);
        case Aim(t) => PointEvent(t);
        case Signal(t) => UvAsyncSend(t);
        case Wake(t) => SemWait(t);
        case Unlock(t) => MutexUnlock(t);
      }
    }

    /** Any statement but a call or the return of thread `t`. */
    method Step(cfg: seq<set<U.Request>>, t: nat, x: U.UdpAction)
      requires Ran(cfg) && U.UdpEnabled(cfg, Model(), x) && t < |cfg|
      requires (!x.Inner? ==> !U.CallOf(t, x)) && x != U.Inner(H.Unlock(t))
      modifies this, sendAddr
      ensures Ran(cfg) && Model() == U.UdpNext(old(Model()), x) && S.GoesOn(t, old(Model()), Model())
    {
      S.GoesOnStep(cfg, t, Model(), x);
      Do(cfg, x);
    }

    /** What the loop thread and threads other than `t` do at one point of its program. */
    method Others(cfg: seq<set<U.Request>>, t: nat, acts: seq<U.UdpAction>)
      requires Ran(cfg) && t < |cfg| == |senders| == |filling|
      modifies this, sendAddr
      ensures Ran(cfg) && |cfg| == |senders| == |filling| && S.GoesOn(t, old(Model()), Model())
      ensures senders[t] == old(senders[t]) && filling[t] == old(filling[t])
    {
      Fits(cfg);
      Still(t);
      var i := 0;
      while i < |acts|
        invariant Ran(cfg) && |cfg| == |senders| == |filling| && S.GoesOn(t, old(Model()), Model())
        invariant senders[t] == old(senders[t]) && filling[t] == old(filling[t])
      {
        if U.UdpEnabled(cfg, Model(), acts[i]) && !U.CallOf(t, acts[i]) {
          Fits(cfg);
          U.SocketOthersLeave(cfg, Model(), acts[i], t);
          ghost var before := Model();
          Step(cfg, t, acts[i]);
          S.GoesOnThen(t, old(Model()), before, Model());
        }
        i := i + 1;
      }
    }

    lemma Still(t: nat)
      requires t < |want| == |args|
      ensures S.GoesOn(t, Model(), Model())
    {
      L.OnwardSelf(t, log);
    }

    method Pause(cfg: seq<set<U.Request>>, t: nat, turns: seq<seq<U.UdpAction>>, k: nat) returns (k': nat)
      requires Ran(cfg) && t < |cfg| == |senders| == |filling| && k <= |turns|
      modifies this, sendAddr
      ensures Ran(cfg) && |cfg| == |senders| == |filling| && k' == if k < |turns| then k + 1 else k
      ensures senders[t] == old(senders[t]) && filling[t] == old(filling[t]) && S.GoesOn(t, old(Model()), Model())
    {
      Fits(cfg);
      Still(t);
      k' := k;
      if k < |turns| {
        Others(cfg, t, turns[k]);
        k' := k + 1;
      }
    }

    /** `udp_send_data_ip` or `udp_send_data` on another thread, as one call, whatever the loop thread and the other
        threads do at each of its points. It returns with one whole send of its own payload added to what the thread has
        done; unless its allocation failed, a datagram of its own has been handed to the network meanwhile, meant for
        what it asked for, and sent there if the destination is a pointer of its own or nobody else uses the cell. If
        `turns` runs out first, it is left asleep, on the mutex or on the semaphore, with part of one send added. */
    method Send(cfg: seq<set<U.Request>>, t: nat, p: nat, r: U.Request, turns: seq<seq<U.UdpAction>>)
      returns (done: bool)
      requires Ran(cfg) && t < |cfg| && r in cfg[t]
      requires U.UdpEnabled(cfg, Model(), if r.ViaIp? then U.Clear(t) else U.Begin(t, p, r))
      modifies this, sendAddr
      ensures Ran(cfg) && t < |senders| && t < |want|
      ensures done ==> senders[t].pc == H.Idle && exists ok ::
                         && L.SentOnce(t, L.Mine(t, old(log)), 0, p, ok, log)
                         && (ok ==> S.Delivered(cfg, t, p, r, |old(out)|, out))
      ensures !done ==> Asleep(t) && senders[t].payload == p && want[t] == r.addr
      ensures !done ==> L.BegunOnce(t, L.Mine(t, old(log)), 0, p, log)
      ensures U.OneUsesCell(cfg) ==> U.Faithful(Model())
    {
      var k := Ask(cfg, t, p, r, turns);
      done := Proceed(cfg, t, r, turns, k, L.Mine(t, old(log)), |old(out)|);
      if U.OneUsesCell(cfg) {
        U.NoRaceIsFaithful(cfg);
      }
    }

    /** Everything before the mutex. */
    method Ask(cfg: seq<set<U.Request>>, t: nat, p: nat, r: U.Request, turns: seq<seq<U.UdpAction>>) returns (k: nat)
      requires Ran(cfg) && t < |cfg| && r in cfg[t]
      requires U.UdpEnabled(cfg, Model(), if r.ViaIp? then U.Clear(t) else U.Begin(t, p, r))
      modifies this, sendAddr
      ensures Ran(cfg) && k <= |turns| && t < |senders| && senders[t] == H.Sender(H.Entered, 0, p)
      ensures t < |want| == |args| && want[t] == r.addr && Args()[t] == U.RefOf(r)
      ensures L.Since(t, L.Mine(t, old(log)), true, log) && S.OutFits(t, |old(out)|, Model())
    {
      k := 0;
      Fits(cfg);
      L.OutsideHasNothing(t, Core());
      assert S.OutFits(t, |out|, Model());
      if r.ViaIp? {
        k := ClearFirst(cfg, t, turns, L.Mine(t, log), |out|);
      }
      EnterWith(cfg, t, p, r, L.Mine(t, old(log)), |old(out)|);
    }

    /** The first half of `udp_send_data_ip`, and what others do after it. */
    method ClearFirst(cfg: seq<set<U.Request>>, t: nat, turns: seq<seq<U.UdpAction>>,
                      ghost base: seq<H.Event>, ghost from: nat) returns (k: nat)
      requires Ran(cfg) && t < |cfg| && U.UdpEnabled(cfg, Model(), U.Clear(t)) && t < |senders|
      requires L.Since(t, base, true, log) && S.OutFits(t, from, Model())
      modifies this, sendAddr
      ensures Ran(cfg) && k <= |turns| && t < |senders| && senders[t] == old(senders)[t]
      ensures U.Known(Model(), t) && filling[t] && H.Disciplined(Core(), H.Call(t, 0, 0))
      ensures L.Since(t, base, true, log) && S.OutFits(t, from, Model())
    {
      Fits(cfg);
      U.EveryRunPoints(cfg);
      S.OutKept(cfg, t, from, Model(), U.Clear(t));
      Do(cfg, U.Clear(t));
      Fits(cfg);
      k := Pause(cfg, t, turns, 0);
      Fits(cfg);
      L.OutsideHasNothing(t, Core());
      U.EveryRunIsQuiet(cfg);
    }

    /** The entry of `udp_send_data`, the cell having been filled in if it is the one passed. */
    method EnterWith(cfg: seq<set<U.Request>>, t: nat, p: nat, r: U.Request, ghost base: seq<H.Event>, ghost from: nat)
      requires Ran(cfg) && t < |cfg| && U.UdpEnabled(cfg, Model(), U.Begin(t, p, r)) && t < |senders|
      requires L.Since(t, base, true, log) && S.OutFits(t, from, Model())
      modifies this, sendAddr
      ensures Ran(cfg) && t < |senders| && senders[t] == H.Sender(H.Entered, 0, p)
      ensures t < |want| == |args| && want[t] == r.addr && Args()[t] == U.RefOf(r)
      ensures L.Since(t, base, true, log) && S.OutFits(t, from, Model())
    {
      U.EveryRunPoints(cfg);
      S.OutKept(cfg, t, from, Model(), U.Begin(t, p, r));
      Do(cfg, U.Begin(t, p, r));
    }

    /** In the call, and neither the mutex nor the semaphore to be had. */
    ghost predicate Asleep(t: nat)
      reads this
    {
      t < |senders| &&
      match senders[t].pc
      case Entered => holder != None && holder != Some(t)
      case Waiting => holder == Some(t) && sem == 0
      case _ => false
    }

    /** From the mutex on. */
    method Proceed(cfg: seq<set<U.Request>>, t: nat, r: U.Request, turns: seq<seq<U.UdpAction>>, k: nat,
                   ghost base: seq<H.Event>, ghost from: nat) returns (done: bool)
      requires Ran(cfg) && t < |cfg| && H.At(Core(), t, H.Entered) && senders[t].conn == 0 && k <= |turns|
      requires t < |want| == |args| && want[t] == r.addr && Args()[t] == U.RefOf(r)
      requires L.Since(t, base, true, log) && S.OutFits(t, from, Model())
      modifies this, sendAddr
      ensures Ran(cfg) && t < |senders| && t < |want|
      ensures var p := old(senders)[t].payload;
              if done then
                senders[t].pc == H.Idle && exists ok ::
                  L.SentOnce(t, base, 0, p, ok, log) && (ok ==> S.Delivered(cfg, t, p, r, from, out))
              else
                Asleep(t) && senders[t].payload == p && want[t] == r.addr && L.BegunOnce(t, base, 0, p, log)
    {
      var j := AwaitMutex(cfg, t, turns, k);
      Fits(cfg);
      if holder != None {
        L.OutsideHasNothing(t, Core());
        assert L.Mine(t, log) == base + R.Render(R.Section(t, 0, senders[t].payload, true))[..0];
        return false;
      }
      ghost var ok;
      j, ok := Serve(cfg, t, r, turns, j, base, from);
      Fits(cfg);
      if sem == 0 {
        L.AsleepHasPart(t, Core(), base, ok);
        return false;
      }
      Return(cfg, t, r, turns, j, base, ok, from);
      return true;
    }

    /** With the mutex to be had: up to the semaphore. */
    method Serve(cfg: seq<set<U.Request>>, t: nat, r: U.Request, turns: seq<seq<U.UdpAction>>, k: nat,
                 ghost base: seq<H.Event>, ghost from: nat) returns (k': nat, ghost ok: bool)
      requires Ran(cfg) && t < |cfg| && H.At(Core(), t, H.Entered) && holder == None && k <= |turns|
      requires t < |want| == |args| && want[t] == r.addr && Args()[t] == U.RefOf(r)
      requires L.Since(t, base, true, log) && S.OutFits(t, from, Model())
      modifies this, sendAddr
      ensures Ran(cfg) && t < |senders| && senders[t] == old(senders)[t].(pc := H.Waiting) && k' <= |turns|
      ensures t < |want| == |args| && want[t] == r.addr && Args()[t] == U.RefOf(r)
      ensures L.Since(t, base, ok, log) && S.OutFits(t, from, Model())
    {
      k' := HandOver(cfg, t, turns, k);
      ghost var before := Model();
      k' := AwaitSemaphore(cfg, t, turns, k');
      S.GoesOnThen(t, old(Model()), before, Model());
      ok :| L.Since(t, base, ok, log);
      Fits(cfg);
    }

    method AwaitMutex(cfg: seq<set<U.Request>>, t: nat, turns: seq<seq<U.UdpAction>>, k: nat) returns (k': nat)
      requires Ran(cfg) && t < |cfg| && k <= |turns|
      modifies this, sendAddr
      ensures Ran(cfg) && t < |senders| && t < |old(senders)| && senders[t] == old(senders)[t] && k' <= |turns|
      ensures S.GoesOn(t, old(Model()), Model())
    {
      Fits(cfg);
      k' := Pause(cfg, t, turns, k);
      while holder != None && k' < |turns|
        invariant Ran(cfg) && |cfg| == |senders| == |filling| && senders[t] == old(senders)[t] && k' <= |turns|
        invariant S.GoesOn(t, old(Model()), Model())
        decreases |turns| - k'
      {
        ghost var before := Model();
        k' := Pause(cfg, t, turns, k');
        S.GoesOnThen(t, old(Model()), before, Model());
      }
    }

    method AwaitSemaphore(cfg: seq<set<U.Request>>, t: nat, turns: seq<seq<U.UdpAction>>, k: nat) returns (k': nat)
      requires Ran(cfg) && t < |cfg| && k <= |turns|
      modifies this, sendAddr
      ensures Ran(cfg) && t < |senders| && t < |old(senders)| && senders[t] == old(senders)[t] && k' <= |turns|
      ensures S.GoesOn(t, old(Model()), Model())
    {
      Fits(cfg);
      k' := Pause(cfg, t, turns, k);
      while sem == 0 && k' < |turns|
        invariant Ran(cfg) && |cfg| == |senders| == |filling| && senders[t] == old(senders)[t] && k' <= |turns|
        invariant S.GoesOn(t, old(Model()), Model())
        decreases |turns| - k'
      {
        ghost var before := Model();
        k' := Pause(cfg, t, turns, k');
        S.GoesOnThen(t, old(Model()), before, Model());
      }
    }

    /** With the mutex to be had: take it, mark the socket, publish buffer and pointer, raise the event. */
    method HandOver(cfg: seq<set<U.Request>>, t: nat, turns: seq<seq<U.UdpAction>>, k: nat) returns (k': nat)
      requires Ran(cfg) && t < |cfg| && H.At(Core(), t, H.Entered) && holder == None && k <= |turns|
      modifies this, sendAddr
      ensures Ran(cfg) && t < |senders| && senders[t] == old(senders)[t].(pc := H.Waiting) && k' <= |turns|
      ensures S.GoesOn(t, old(Model()), Model())
    {
      Step(cfg, t, U.Inner(H.Lock(t)));
      ghost var before := Model();
      k' := Advance(cfg, t, turns, k, H.SetFlag(t));
      S.GoesOnThen(t, old(Model()), before, Model());
      before := Model();
      k' := Advance(cfg, t, turns, k', H.Publish(t));
      S.GoesOnThen(t, old(Model()), before, Model());
      before := Model();
      k' := Advance(cfg, t, turns, k', H.Aim(t));
      S.GoesOnThen(t, old(Model()), before, Model());
      before := Model();
      k' := Advance(cfg, t, turns, k', H.Signal(t));
      S.GoesOnThen(t, old(Model()), before, Model());
    }

    /** What others do first, and then the next of these statements. */
    method Advance(cfg: seq<set<U.Request>>, t: nat, turns: seq<seq<U.UdpAction>>, k: nat, a: H.Action)
      returns (k': nat)
      requires Ran(cfg) && t < |cfg| && k <= |turns| && t < |senders| && H.Enabled(Core(), a)
      requires a == H.SetFlag(t) || a == H.Publish(t) || a == H.Aim(t) || a == H.Signal(t)
      modifies this, sendAddr
      ensures Ran(cfg) && t < |senders| && k' <= |turns| && S.GoesOn(t, old(Model()), Model())
      ensures senders[t] == old(senders)[t].(pc := R.Reached(a)) && H.At(Core(), t, senders[t].pc)
    {
      Fits(cfg);
      k' := Pause(cfg, t, turns, k);
      ghost var before := Model();
      Step(cfg, t, U.Inner(a));
      S.GoesOnThen(t, old(Model()), before, Model());
    }

    /** With the semaphore posted: wake, release the mutex, return. */
    method Return(cfg: seq<set<U.Request>>, t: nat, r: U.Request, turns: seq<seq<U.UdpAction>>, k: nat,
                  ghost base: seq<H.Event>, ghost ok: bool, ghost from: nat)
      requires Ran(cfg) && t < |cfg| && H.At(Core(), t, H.Waiting) && senders[t].conn == 0 && sem > 0 && k <= |turns|
      requires t < |want| == |args| && want[t] == r.addr && Args()[t] == U.RefOf(r)
      requires L.Since(t, base, ok, log) && S.OutFits(t, from, Model())
      modifies this, sendAddr
      ensures Ran(cfg) && t < |senders| && senders[t].pc == H.Idle && t < |want|
      ensures var p := old(senders)[t].payload;
              exists ok :: L.SentOnce(t, base, 0, p, ok, log) && (ok ==> S.Delivered(cfg, t, p, r, from, out))
    {
      Fits(cfg);
      Step(cfg, t, U.Inner(H.Wake(t)));
      ghost var before := Model();
      var j := Pause(cfg, t, turns, k);
      S.GoesOnThen(t, old(Model()), before, Model());
      ghost var ok' :| L.Since(t, base, ok', log);
      Fits(cfg);
      Leave(cfg, t, r, base, ok', from);
    }

    method Leave(cfg: seq<set<U.Request>>, t: nat, r: U.Request,
                 ghost base: seq<H.Event>, ghost ok: bool, ghost from: nat)
      requires Ran(cfg) && t < |cfg| && H.At(Core(), t, H.Woken) && senders[t].conn == 0
      requires t < |want| == |args| && want[t] == r.addr && Args()[t] == U.RefOf(r)
      requires L.Since(t, base, ok, log) && S.OutFits(t, from, Model())
      modifies this, sendAddr
      ensures Ran(cfg) && t < |senders| && senders[t].pc == H.Idle && t < |want|
      ensures var p := old(senders)[t].payload;
              L.SentOnce(t, base, 0, p, ok, log) && (ok ==> S.Delivered(cfg, t, p, r, from, out))
    {
      Fits(cfg);
      S.ServedMeansSent(t, from, Model(), base, ok);
      if ok {
        S.SentMeansDelivered(cfg, t, senders[t].payload, r, from, Model());
      }
      L.ReturnCompletes(t, Core(), base, ok);
      Do(cfg, U.Inner(H.Unlock(t)));
    }
  }
}
