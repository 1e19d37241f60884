/**
 Which address an outgoing datagram carries. A UDP socket hands buffers over as one connection of the hand-over
 protocol; besides the buffer it publishes a pointer to the destination. `udp_send_data` takes a pointer of the
 caller's; `udp_send_data_ip` first writes the socket's own address cell, without the mutex, and points there. The
 library function that writes it clears the cell before it fills it in.
 */
module UdpCapture {
  import opened Machines
  import opened Handshake
  import opened HandshakeRuns

  /** What a caller asks for: a datagram to an address, by one of the two functions. */
  datatype Request = Direct(addr: nat) | ViaIp(addr: nat)

  /** A pointer to an address of the caller's own, or to the socket's cell; a cleared address is `None`. */
  datatype AddrRef = Private(addr: Option<nat>) | Shared

  /** `wanted` remembers what the owner of `buf` had asked for when the datagram was handed to the socket. */
  datatype Datagram = Datagram(buf: Buf, addr: Option<nat>, wanted: Option<nat>)

  /** `args[t]` is the pointer thread `t` passed, `want[t]` the address it asked for, `filling[t]` whether it has
      cleared the shared cell `sendAddr` and not yet filled it. */
  datatype Udp = Udp(
    hs: State,
    args: seq<AddrRef>,
    want: seq<nat>,
    filling: seq<bool>,
    sendAddr: Option<nat>,
    data2: Option<AddrRef>,
    out: seq<Datagram>)

  /** `Clear` is the first half of what a call of `udp_send_data_ip` on thread `t` does to the cell, `Begin` the second
      half and the entry of `udp_send_data`, or that entry alone; `SendHere` is a whole send made on the loop thread. */
  datatype UdpAction =
    | Clear(t: nat)
    | Begin(t: nat, p: nat, r: Request)
    | SendHere(p: nat, r: Request, ok: bool)
    | Inner(a: Action)

  function Deref(u: Udp): Option<nat> {
    match u.data2
    case None => None
    case Some(Private(x)) => x
    case Some(Shared) => u.sendAddr
  }

  function WantedBy(u: Udp, b: Buf): Option<nat> {
    if b.Buf? && b.owner.Thread? && b.owner.tid < |u.want| then Some(u.want[b.owner.tid]) else None
  }

  predicate AsksViaIp(requests: set<Request>) {
    exists r :: r in requests && r.ViaIp?
  }

  predicate Known(u: Udp, t: nat) {
    t < |u.args| && t < |u.want| && t < |u.filling|
  }

  /** A call of `udp_send_data_ip` is a call from the moment it touches the cell: the discipline of the hand-over, which
      keeps the loop thread's sends apart from calls, covers it. */
  predicate UdpEnabled(cfg: seq<set<Request>>, u: Udp, x: UdpAction) {
    match x
    case Clear(t) => t < |cfg| && AsksViaIp(cfg[t]) && Known(u, t) && !u.filling[t] && Disciplined(u.hs, Call(t, 0, 0))
    case Begin(t, p, r) =>
      t < |cfg| && r in cfg[t] && Known(u, t) && u.filling[t] == r.ViaIp? && Disciplined(u.hs, Call(t, 0, p))
    case SendHere(p, r, ok) => Disciplined(u.hs, LoopSend(0, p, ok)) && true !in u.filling
    case Inner(a) => Serves(a) && Disciplined(u.hs, a)
  }

  /** The pointer that a call of the two functions passes. */
  function RefOf(r: Request): AddrRef {
    if r.ViaIp? then Shared else Private(Some(r.addr))
  }

  function UdpNext(u: Udp, x: UdpAction): Udp {
    match x
    case Clear(t) => if Known(u, t) then u.(filling := u.filling[t := true], sendAddr := None) else u
    case Begin(t, p, r) =>
      if Known(u, t) then
        u.(hs := Next(u.hs, Call(t, 0, p)),
           args := u.args[t := RefOf(r)],
           want := u.want[t := r.addr],
           filling := u.filling[t := false],
           sendAddr := if r.ViaIp? then Some(r.addr) else u.sendAddr)
      else u
    case SendHere(p, r, ok) =>
      var u' := u.(hs := Next(u.hs, LoopSend(0, p, ok)),
                   data2 := Some(RefOf(r)),
                   sendAddr := if r.ViaIp? then Some(r.addr) else u.sendAddr);
      if ok then u'.(out := u.out + [Datagram(Buf(Loop, p), Deref(u'), Some(r.addr))]) else u'
    case Inner(a) =>
      var u' := u.(hs := Next(u.hs, a));
      if a.Publish? && a.t < |u.args| then u'.(data2 := Some(u.args[a.t]))
      else if a == AsyncCb(true) && |u.hs.conns| > 0 then
        var b := u.hs.conns[0].data2;
        u'.(out := u.out + [Datagram(b, Deref(u), WantedBy(u, b))])
      else u'
  }

  function UdpStart(n: nat): Udp {
    Udp(Start(n, 1), seq(n, i => Shared), seq(n, i => 0), seq(n, i => false), None, None, [])
  }

  /** Thread `t` makes any number of sends, each one of the requests in `cfg[t]`; the loop thread makes any sends, at
      times that respect the discipline of the hand-over. */
  function Socket(cfg: seq<set<Request>>): Machine<Udp, UdpAction> {
    Machine(UdpStart(|cfg|), (u, x) => UdpEnabled(cfg, u, x), UdpNext)
  }

  /** The hand-over step that a socket step makes, if it makes one. */
  function Core(x: UdpAction): Option<Action> {
    match x
    case Clear(t) => None
    case Begin(t, p, r) => Some(Call(t, 0, p))
    case SendHere(p, r, ok) => Some(LoopSend(0, p, ok))
    case Inner(a) => Some(a)
  }

  /** Every datagram went where the thread whose payload it carries had asked, the loop thread included. */
  predicate Faithful(u: Udp) {
    forall i | 0 <= i < |u.out| :: u.out[i].buf.Buf? && u.out[i].wanted.Some? && u.out[i].addr == u.out[i].wanted
  }

  /** At most one thread other than the loop thread uses `udp_send_data_ip`. */
  predicate OneUsesCell(cfg: seq<set<Request>>) {
    forall t, v | 0 <= t < |cfg| && 0 <= v < |cfg| && t != v :: !AsksViaIp(cfg[t]) || !AsksViaIp(cfg[v])
  }

  /** Forgetting addresses, a socket only takes steps of the hand-over protocol. */
  lemma SocketRefinesHandshake(cfg: seq<set<Request>>, u: Udp)
    requires Reachable(Socket(cfg), u)
    ensures Reachable(Sending(|cfg|, 1), u.hs)
  {
    var abs := (v: Udp) => Reachable(Sending(|cfg|, 1), v.hs);
    InitReachable(Sending(|cfg|, 1));
    forall v, x | abs(v) && Socket(cfg).guard(v, x) ensures abs(Socket(cfg).next(v, x)) {
      CoreReachable(cfg, v, x);
    }
    Invariance(Socket(cfg), abs);
  }

  lemma CoreReachable(cfg: seq<set<Request>>, u: Udp, x: UdpAction)
    requires Reachable(Sending(|cfg|, 1), u.hs) && UdpEnabled(cfg, u, x)
    ensures Reachable(Sending(|cfg|, 1), UdpNext(u, x).hs)
  {
    if Core(x).Some? {
      StepReachable(Sending(|cfg|, 1), u.hs, Core(x).value);
    }
  }

  /** So every datagram send is blocking and whole: it returns only after its own send request has completed. */
  lemma SocketSendsLinearize(cfg: seq<set<Request>>, u: Udp)
    requires Reachable(Socket(cfg), u) && u.hs.holder == None
    ensures exists xs :: OffLoop(u.hs.log) == RenderAll(xs)
  {
    SocketRefinesHandshake(cfg, u);
    SendsLinearize(|cfg|, 1, u.hs);
  }

  predicate Shaped(n: nat, u: Udp) {
    |u.args| == |u.want| == |u.filling| == |u.hs.senders| == n && |u.hs.conns| == 1
  }

  lemma ShapeStep(cfg: seq<set<Request>>, u: Udp, x: UdpAction)
    requires Shaped(|cfg|, u) && UdpEnabled(cfg, u, x)
    ensures Shaped(|cfg|, UdpNext(u, x))
  {
  }

  lemma ShapeKept(cfg: seq<set<Request>>)
    ensures forall u :: Reachable(Socket(cfg), u) ==> Shaped(|cfg|, u)
  {
    forall u, x | Shaped(|cfg|, u) && UdpEnabled(cfg, u, x) ensures Shaped(|cfg|, UdpNext(u, x)) {
      ShapeStep(cfg, u, x);
    }
    Invariance(Socket(cfg), u => Shaped(|cfg|, u));
  }

  /** A call that has touched the cell and not gone on yet keeps loop-thread sends away, as one that has gone on. */
  predicate QuietWhileFilling(u: Udp) {
    |u.hs.conns| == 1 && (true in u.filling ==> !LoopWriteQueued(u.hs.conns[0]))
  }

  lemma InnerStaysQuiet(s: State, a: Action)
    requires Inv(s) && |s.conns| == 1 && Disciplined(s, a) && Serves(a) && !LoopWriteQueued(s.conns[0])
    ensures |Next(s, a).conns| == 1 && !LoopWriteQueued(Next(s, a).conns[0])
  {
    PushPop(s.conns[0], s.conns[0].data2);
  }

  lemma QuietKept(cfg: seq<set<Request>>, u: Udp, x: UdpAction)
    requires Shaped(|cfg|, u) && Inv(u.hs) && QuietWhileFilling(u) && UdpEnabled(cfg, u, x)
    ensures QuietWhileFilling(UdpNext(u, x))
  {
    if x.Inner? {
      if true in u.filling {
        InnerStaysQuiet(u.hs, x.a);
      }
    } else if x.Begin? {
      assert true in UdpNext(u, x).filling ==> true in u.filling;
    }
  }

  lemma EveryRunIsQuiet(cfg: seq<set<Request>>)
    ensures forall u :: Reachable(Socket(cfg), u) ==> QuietWhileFilling(u)
  {
    var quiet := (u: Udp) => Reachable(Socket(cfg), u) && QuietWhileFilling(u);
    InitReachable(Socket(cfg));
    ShapeKept(cfg);
    EveryRunKeepsInv(|cfg|, 1);
    forall u, x | quiet(u) && Socket(cfg).guard(u, x) ensures quiet(Socket(cfg).next(u, x)) {
      SocketRefinesHandshake(cfg, u);
      QuietKept(cfg, u, x);
      StepReachable(Socket(cfg), u, x);
    }
    Invariance(Socket(cfg), quiet);
  }

  predicate CallOf(t: nat, x: UdpAction) {
    match x
    case Clear(u) => u == t
    case Begin(u, _, _) => u == t
    case SendHere(_, _, _) => false
    case Inner(a) => OfThread(t, a)
  }

  lemma SocketOthersLeave(cfg: seq<set<Request>>, u: Udp, x: UdpAction, t: nat)
    requires Shaped(|cfg|, u) && UdpEnabled(cfg, u, x) && !CallOf(t, x) && t < |cfg|
    ensures Shaped(|cfg|, UdpNext(u, x))
    ensures UdpNext(u, x).hs.senders[t] == u.hs.senders[t] && UdpNext(u, x).filling[t] == u.filling[t]
    ensures UdpNext(u, x).want[t] == u.want[t] && UdpNext(u, x).args[t] == u.args[t]
  {
    ShapeStep(cfg, u, x);
    if Core(x).Some? {
      OthersLeave(u.hs, Core(x).value, t);
    }
  }

  /** A send made on the loop thread goes where it was asked to, at once, whatever is published or in the cell. */
  lemma SendHereGoesThere(cfg: seq<set<Request>>, u: Udp, p: nat, r: Request, ok: bool)
    requires UdpEnabled(cfg, u, SendHere(p, r, ok))
    ensures UdpNext(u, SendHere(p, r, ok)).out ==
            u.out + if ok then [Datagram(Buf(Loop, p), Some(r.addr), Some(r.addr))] else []
  {
  }

  // ------------------------------------------------------------------ datagrams are the writes

  /** The buffers written, in order. */
  function WrittenBufs(log: seq<Event>): seq<Buf> {
    if log == [] then []
    else WrittenBufs(log[..|log| - 1]) + (if log[|log| - 1].Wrote? then [log[|log| - 1].b] else [])
  }

  function Payloads(out: seq<Datagram>): seq<Buf> {
    if out == [] then [] else Payloads(out[..|out| - 1]) + [out[|out| - 1].buf]
  }

  lemma StepWrites(s: State, a: Action)
    requires Inv(s) && |s.conns| == 1 && Disciplined(s, a)
    ensures WrittenBufs(Next(s, a).log) == WrittenBufs(s.log) +
            if a == AsyncCb(true) then [s.conns[0].data2] else if a.LoopSend? && a.ok then [Buf(Loop, a.p)] else []
  {
    LogGrows(s, a);
  }

  lemma PayloadsGrow(out: seq<Datagram>, d: Datagram)
    ensures Payloads(out + [d]) == Payloads(out) + [d.buf]
  {
    assert (out + [d])[..|out|] == out;
  }

  lemma WritesKept(cfg: seq<set<Request>>, u: Udp, x: UdpAction)
    requires Shaped(|cfg|, u) && Inv(u.hs) && UdpEnabled(cfg, u, x)
    requires Payloads(u.out) == WrittenBufs(u.hs.log)
    ensures Payloads(UdpNext(u, x).out) == WrittenBufs(UdpNext(u, x).hs.log)
  {
    if Core(x).Some? {
      StepWrites(u.hs, Core(x).value);
    }
    if UdpNext(u, x).out != u.out {
      PayloadsGrow(u.out, UdpNext(u, x).out[|u.out|]);
    }
  }

  /** The datagrams handed to the network carry exactly the buffers of the history's writes, in order. */
  lemma DatagramsAreTheWrites(cfg: seq<set<Request>>)
    ensures forall u :: Reachable(Socket(cfg), u) ==> Payloads(u.out) == WrittenBufs(u.hs.log)
  {
    var same := (u: Udp) => Reachable(Socket(cfg), u) && Payloads(u.out) == WrittenBufs(u.hs.log);
    InitReachable(Socket(cfg));
    ShapeKept(cfg);
    EveryRunKeepsInv(|cfg|, 1);
    forall u, x | same(u) && Socket(cfg).guard(u, x) ensures same(Socket(cfg).next(u, x)) {
      SocketRefinesHandshake(cfg, u);
      WritesKept(cfg, u, x);
      StepReachable(Socket(cfg), u, x);
    }
    Invariance(Socket(cfg), same);
  }

  // ------------------------------------------------------------------ pointers, in every run

  /** What is published is the pointer that the mutex holder passed; a private one leads to what it asked for. */
  predicate PointersFit(u: Udp) {
    && |u.args| == |u.want| == |u.hs.senders|
    && (forall t | 0 <= t < |u.args| && u.hs.senders[t].pc != Idle ::
          u.args[t].Private? ==> u.args[t].addr == Some(u.want[t]))
    && (forall t | 0 <= t < |u.args| && InSection(u.hs.senders[t].pc) ::
          u.hs.senders[t].pc == Holding || u.hs.senders[t].pc == Flagged || u.data2 == Some(u.args[t]))
  }

  lemma BeginKeepsPointers(cfg: seq<set<Request>>, u: Udp, x: UdpAction)
    requires Shaped(|cfg|, u) && PointersFit(u) && UdpEnabled(cfg, u, x) && (x.Clear? || x.Begin?)
    ensures PointersFit(UdpNext(u, x))
  {
  }

  lemma SendHereKeepsPointers(cfg: seq<set<Request>>, u: Udp, x: UdpAction)
    requires Shaped(|cfg|, u) && Inv(u.hs) && PointersFit(u) && UdpEnabled(cfg, u, x) && x.SendHere?
    ensures PointersFit(UdpNext(u, x))
  {
    assert forall t | 0 <= t < |cfg| :: u.hs.senders[t].pc != Idle ==> u.hs.senders[t].conn == 0;
    assert UdpNext(u, x).hs.senders == u.hs.senders;
  }

  lemma LoopKeepsPointers(cfg: seq<set<Request>>, u: Udp, a: Action)
    requires Shaped(|cfg|, u) && PointersFit(u) && UdpEnabled(cfg, u, Inner(a)) && LoopAction(a)
    ensures PointersFit(UdpNext(u, Inner(a)))
  {
    var u' := UdpNext(u, Inner(a));
    assert u'.hs.senders == u.hs.senders && u'.args == u.args && u'.want == u.want && u'.data2 == u.data2;
  }

  lemma CallerKeepsPointers(cfg: seq<set<Request>>, u: Udp, a: Action)
    requires Shaped(|cfg|, u) && Inv(u.hs) && PointersFit(u) && UdpEnabled(cfg, u, Inner(a)) && !LoopAction(a)
    ensures PointersFit(UdpNext(u, Inner(a)))
  {
    var u' := UdpNext(u, Inner(a));
    assert u'.args == u.args && u'.want == u.want;
    assert forall v | 0 <= v < |cfg| && v != a.t :: u'.hs.senders[v] == u.hs.senders[v];
  }

  lemma InnerKeepsPointers(cfg: seq<set<Request>>, u: Udp, a: Action)
    requires Shaped(|cfg|, u) && Inv(u.hs) && PointersFit(u) && UdpEnabled(cfg, u, Inner(a))
    ensures PointersFit(UdpNext(u, Inner(a)))
  {
    if LoopAction(a) {
      LoopKeepsPointers(cfg, u, a);
    } else {
      CallerKeepsPointers(cfg, u, a);
    }
  }

  lemma EveryRunPoints(cfg: seq<set<Request>>)
    ensures forall u :: Reachable(Socket(cfg), u) ==> Shaped(|cfg|, u) && Inv(u.hs) && PointersFit(u)
  {
    var points := (u: Udp) => Reachable(Socket(cfg), u) && PointersFit(u);
    InitReachable(Socket(cfg));
    ShapeKept(cfg);
    EveryRunKeepsInv(|cfg|, 1);
    forall u | Reachable(Socket(cfg), u) ensures Inv(u.hs) {
      SocketRefinesHandshake(cfg, u);
    }
    forall u, x | points(u) && Socket(cfg).guard(u, x) ensures points(Socket(cfg).next(u, x)) {
      StepReachable(Socket(cfg), u, x);
      match x
      case Clear(_) | Begin(_, _, _) => BeginKeepsPointers(cfg, u, x);
      case SendHere(_, _, _) => SendHereKeepsPointers(cfg, u, x);
      case Inner(a) => InnerKeepsPointers(cfg, u, a);
    }
    Invariance(Socket(cfg), points);
  }

  // ------------------------------------------------------------------ no race: faithful

  predicate AddressesFit(cfg: seq<set<Request>>, u: Udp) {
    && Shaped(|cfg|, u) && PointersFit(u) && Faithful(u)
    && (forall t | 0 <= t < |cfg| && u.filling[t] :: AsksViaIp(cfg[t]) && u.hs.senders[t].pc == Idle)
    && (forall t | 0 <= t < |cfg| && u.hs.senders[t].pc != Idle && u.args[t].Shared? ::
          ViaIp(u.want[t]) in cfg[t] && u.sendAddr == Some(u.want[t]))
  }

  lemma ClearKeepsAddresses(cfg: seq<set<Request>>, u: Udp, t: nat)
    requires OneUsesCell(cfg) && AddressesFit(cfg, u) && UdpEnabled(cfg, u, Clear(t))
    ensures AddressesFit(cfg, UdpNext(u, Clear(t)))
  {
    BeginKeepsPointers(cfg, u, Clear(t));
    assert forall v | 0 <= v < |cfg| && v != t :: !AsksViaIp(cfg[v]);
  }

  lemma BeginKeepsAddresses(cfg: seq<set<Request>>, u: Udp, t: nat, p: nat, r: Request)
    requires OneUsesCell(cfg) && AddressesFit(cfg, u) && UdpEnabled(cfg, u, Begin(t, p, r))
    ensures AddressesFit(cfg, UdpNext(u, Begin(t, p, r)))
  {
    BeginKeepsPointers(cfg, u, Begin(t, p, r));
    var u' := UdpNext(u, Begin(t, p, r));
    assert forall v | 0 <= v < |cfg| && v != t :: u'.hs.senders[v] == u.hs.senders[v];
    assert r.ViaIp? ==> forall v | 0 <= v < |cfg| && v != t :: !AsksViaIp(cfg[v]);
  }

  lemma InnerStartsNothing(cfg: seq<set<Request>>, u: Udp, a: Action)
    requires Shaped(|cfg|, u) && UdpEnabled(cfg, u, Inner(a)) && !a.AsyncCb?
    ensures var u' := UdpNext(u, Inner(a));
            && u'.out == u.out && u'.want == u.want && u'.args == u.args && u'.filling == u.filling
            && u'.sendAddr == u.sendAddr && |u'.hs.senders| == |cfg|
            && forall t | 0 <= t < |cfg| && u.hs.senders[t].pc == Idle :: u'.hs.senders[t].pc == Idle
  {
  }

  lemma InnerKeepsAddresses(cfg: seq<set<Request>>, u: Udp, a: Action)
    requires Inv(u.hs) && AddressesFit(cfg, u) && UdpEnabled(cfg, u, Inner(a)) && !a.AsyncCb?
    ensures AddressesFit(cfg, UdpNext(u, Inner(a)))
  {
    InnerKeepsPointers(cfg, u, a);
    ShapeStep(cfg, u, Inner(a));
    InnerStartsNothing(cfg, u, a);
  }

  lemma CaptureKeepsAddresses(cfg: seq<set<Request>>, u: Udp, ok: bool)
    requires Inv(u.hs) && AddressesFit(cfg, u) && u.hs.pending
    ensures AddressesFit(cfg, UdpNext(u, Inner(AsyncCb(ok))))
  {
    InnerKeepsPointers(cfg, u, AsyncCb(ok));
    var ph := PhaseOf(u.hs.log);
    assert ph.Held? && u.hs.conns[0].data2 == Buf(Thread(ph.t), ph.p);
    assert UdpNext(u, Inner(AsyncCb(ok))).hs.senders == u.hs.senders;
  }

  /** A loop-thread send finds no other thread between its call and its return. */
  lemma SendHereKeepsAddresses(cfg: seq<set<Request>>, u: Udp, p: nat, r: Request, ok: bool)
    requires Inv(u.hs) && AddressesFit(cfg, u) && UdpEnabled(cfg, u, SendHere(p, r, ok))
    ensures AddressesFit(cfg, UdpNext(u, SendHere(p, r, ok)))
  {
    SendHereKeepsPointers(cfg, u, SendHere(p, r, ok));
    assert forall t | 0 <= t < |cfg| :: u.hs.senders[t].pc != Idle ==> u.hs.senders[t].conn == 0;
    assert UdpNext(u, SendHere(p, r, ok)).hs.senders == u.hs.senders;
  }

  lemma AddressesKept(cfg: seq<set<Request>>, u: Udp, x: UdpAction)
    requires OneUsesCell(cfg) && Inv(u.hs) && AddressesFit(cfg, u) && UdpEnabled(cfg, u, x)
    ensures AddressesFit(cfg, UdpNext(u, x))
  {
    if x.Clear? {
      ClearKeepsAddresses(cfg, u, x.t);
    } else if x.Begin? {
      BeginKeepsAddresses(cfg, u, x.t, x.p, x.r);
    } else if x.SendHere? {
      SendHereKeepsAddresses(cfg, u, x.p, x.r, x.ok);
    } else if x.a.AsyncCb? {
      CaptureKeepsAddresses(cfg, u, x.a.ok);
    } else {
      InnerKeepsAddresses(cfg, u, x.a);
    }
  }

  lemma NoRaceIsFaithful(cfg: seq<set<Request>>)
    requires OneUsesCell(cfg)
    ensures forall u :: Reachable(Socket(cfg), u) ==> Faithful(u)
  {
    var fits := (u: Udp) => Reachable(Sending(|cfg|, 1), u.hs) && AddressesFit(cfg, u);
    EveryRunKeepsInv(|cfg|, 1);
    InitReachable(Sending(|cfg|, 1));
    forall u, x | fits(u) && Socket(cfg).guard(u, x) ensures fits(Socket(cfg).next(u, x)) {
      AddressesKept(cfg, u, x);
      CoreReachable(cfg, u, x);
    }
    Invariance(Socket(cfg), fits);
  }

  // ------------------------------------------------------------------ a race misdirects a datagram

  /** Thread `t` has come as far as `pc` with its first send, nobody else having started. */
  function OnlySender(n: nat, t: nat, r: Request, pc: Pc): Udp
    requires t < n
  {
    var u := UdpStart(n);
    Udp(Midway(Start(n, 1), t, 0, 1, pc), u.args[t := RefOf(r)], u.want[t := r.addr], u.filling, Some(r.addr),
        if pc == Published || pc == Aimed || pc == Waiting then Some(RefOf(r)) else None, [])
  }

  lemma SenderSteps(n: nat, t: nat, r: Request, pc: Pc)
    requires t < n && pc != Idle && pc != Woken && pc != Waiting
    ensures var u := OnlySender(n, t, r, pc);
            && Serves(HalfAction(t, pc)) && Disciplined(u.hs, HalfAction(t, pc))
            && UdpNext(u, Inner(HalfAction(t, pc))) == OnlySender(n, t, r, HalfNext(pc))
  {
    HalfStep(Start(n, 1), t, 0, 1, pc);
  }

  lemma {:induction false} SenderClimbs(cfg: seq<set<Request>>, t: nat, r: Request, pc: Pc)
    requires t < |cfg| && r in cfg[t] && pc != Idle && pc != Woken
    requires Reachable(Socket(cfg), OnlySender(|cfg|, t, r, pc))
    ensures Reachable(Socket(cfg), OnlySender(|cfg|, t, r, Waiting))
    decreases StepsLeft(Sender(pc, 0, 0))
  {
    if pc == Waiting {
    } else {
      var u := OnlySender(|cfg|, t, r, pc);
      SenderSteps(|cfg|, t, r, pc);
      StepReachable(Socket(cfg), u, Inner(HalfAction(t, pc)));
      SenderClimbs(cfg, t, r, HalfNext(pc));
    }
  }

  lemma SenderEnters(cfg: seq<set<Request>>, t: nat, r: Request)
    requires t < |cfg| && r in cfg[t] && r.ViaIp?
    ensures Reachable(Socket(cfg), OnlySender(|cfg|, t, r, Entered))
  {
    var u := UdpStart(|cfg|);
    InitReachable(Socket(cfg));
    HalfBegins(Start(|cfg|, 1), t, 0, 1);
    StepReachable(Socket(cfg), u, Clear(t));
    StepReachable(Socket(cfg), UdpNext(u, Clear(t)), Begin(t, 1, r));
    assert u.filling[t := true][t := false] == u.filling;
  }

  /** A second caller clears the cell that the first one's published pointer leads to. */
  lemma CellCleared(n: nat, t: nat, v: nat, r: Request)
    requires t < n && v < n && t != v && r.ViaIp?
    ensures var u := OnlySender(n, t, r, Waiting);
            var u' := UdpNext(u, Clear(v));
            && Known(u, v) && !u.filling[v] && Disciplined(u.hs, Call(v, 0, 0)) && Disciplined(u'.hs, AsyncCb(true))
            && UdpNext(u', Inner(AsyncCb(true))).out == [Datagram(Buf(Thread(t), 1), None, Some(r.addr))]
  {
    var u := OnlySender(n, t, r, Waiting);
    assert u.hs.conns[0].queue == [];
  }

  /** Any two threads that use `udp_send_data_ip`, for whatever addresses, equal ones included, can send a datagram to
      a cleared address. */
  lemma RaceMisdirects(cfg: seq<set<Request>>, t: nat, v: nat)
    requires t < |cfg| && v < |cfg| && t != v && AsksViaIp(cfg[t]) && AsksViaIp(cfg[v])
    ensures exists u :: Reachable(Socket(cfg), u) && !Faithful(u)
  {
    var r :| r in cfg[t] && r.ViaIp?;
    SenderEnters(cfg, t, r);
    SenderClimbs(cfg, t, r, Entered);
    var u := OnlySender(|cfg|, t, r, Waiting);
    CellCleared(|cfg|, t, v, r);
    StepReachable(Socket(cfg), u, Clear(v));
    StepReachable(Socket(cfg), UdpNext(u, Clear(v)), Inner(AsyncCb(true)));
    var z := UdpNext(UdpNext(u, Clear(v)), Inner(AsyncCb(true)));
    assert z.out[0].addr != z.out[0].wanted;
  }

  /** Datagrams always go where their senders asked, in every run, exactly when at most one thread other than the loop
      thread uses `udp_send_data_ip`; sends through `udp_send_data` are never at risk. */
  lemma FaithfulExactlyWithoutRace(cfg: seq<set<Request>>)
    ensures (forall u :: Reachable(Socket(cfg), u) ==> Faithful(u)) <==> OneUsesCell(cfg)
  {
    if OneUsesCell(cfg) {
      NoRaceIsFaithful(cfg);
    } else {
      var t, v :| 0 <= t < |cfg| && 0 <= v < |cfg| && t != v && AsksViaIp(cfg[t]) && AsksViaIp(cfg[v]);
      RaceMisdirects(cfg, t, v);
    }
  }
}
