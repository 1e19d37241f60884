/** That a datagram send hands its own datagram to the network, for the destination its caller asked for. */
module SocketHistory {
  import opened Machines
  import opened Handshake
  import opened HandshakeRuns
  import opened UdpCapture
  import opened SendHistory

  // ------------------------------------------------------------------ the thread's own datagram

  /** Among the datagrams from the `from`-th on is one of thread `t` with payload `p`, meant for what it asks for, and
      sent there if the pointer it passed was its own. */
  ghost predicate OwnSent(t: nat, p: nat, from: nat, u: Udp)
    requires t < |u.want| && t < |u.args|
  {
    exists i :: from <= i < |u.out| && u.out[i].buf == Buf(Thread(t), p) && u.out[i].wanted == Some(u.want[t])
                && (u.args[t].Private? ==> u.out[i].addr == Some(u.want[t]))
  }

  predicate LastCompleted(t: nat, log: seq<Event>) {
    Mine(t, log) != [] && Mine(t, log)[|Mine(t, log)| - 1].Completed?
  }

  /** Once the write of thread `t` has been made, its datagram is among those from the `from`-th on. */
  ghost predicate OutFits(t: nat, from: nat, u: Udp)
    requires t < |u.want| && t < |u.args|
  {
    && from <= |u.out|
    && var ph := PhaseOf(u.hs.log);
    && (ph.Written? && ph.t == t ==> OwnSent(t, ph.p, from, u))
    && (ph.Over? && ph.t == t && LastCompleted(t, u.hs.log) ==> OwnSent(t, ph.p, from, u))
  }

  lemma CaptureKeepsOut(cfg: seq<set<Request>>, t: nat, from: nat, u: Udp, ok: bool)
    requires Shaped(|cfg|, u) && Inv(u.hs) && PointersFit(u) && t < |cfg| && OutFits(t, from, u) && u.hs.pending
    ensures OutFits(t, from, UdpNext(u, Inner(AsyncCb(ok))))
  {
    var u', ph := UdpNext(u, Inner(AsyncCb(ok))), PhaseOf(u.hs.log);
    var e := if ok then Wrote(0, Buf(Thread(ph.t), ph.p)) else Failed(0, Buf(Thread(ph.t), ph.p));
    assert ph.Held? && u.hs.conns[0].data2 == Buf(Thread(ph.t), ph.p) && u'.hs.log == u.hs.log + [e];
    PhaseSnoc(u.hs.log, e);
    MineSnoc(t, u.hs.log, e);
    if ok && ph.t == t {
      assert u'.out[|u.out|].buf == Buf(Thread(t), ph.p) && u'.out[|u.out|].wanted == Some(u.want[t]);
    }
  }

  lemma CompletionIsQuiet(u: Udp)
    requires |u.hs.conns| == 1 && Enabled(u.hs, WriteDone(0))
    ensures var u' := UdpNext(u, Inner(WriteDone(0)));
            && u'.out == u.out && u'.want == u.want && u'.args == u.args
            && u'.hs.log == u.hs.log + [Completed(0, u.hs.conns[0].queue[0])]
  {
  }

  lemma CompletionAdvances(s: State)
    requires Inv(s) && |s.conns| == 1 && Enabled(s, WriteDone(0))
    ensures var ph, e := PhaseOf(s.log), Completed(0, s.conns[0].queue[0]);
            Advance(ph, e) == if ph.Written? then Over(ph.t, ph.c, ph.p) else ph
    ensures !PhaseOf(s.log).Written? ==> FromLoop(s.conns[0].queue[0])
  {
  }

  lemma CompletionKeepsOut(cfg: seq<set<Request>>, t: nat, from: nat, u: Udp)
    requires Shaped(|cfg|, u) && Inv(u.hs) && t < |cfg| && OutFits(t, from, u) && Disciplined(u.hs, WriteDone(0))
    ensures OutFits(t, from, UdpNext(u, Inner(WriteDone(0))))
  {
    CompletionIsQuiet(u);
    CompletionAdvances(u.hs);
    PhaseSnoc(u.hs.log, Completed(0, u.hs.conns[0].queue[0]));
    MineSnoc(t, u.hs.log, Completed(0, u.hs.conns[0].queue[0]));
  }

  /** The statements of callers hand nothing to the network. */
  lemma CallerKeepsOut(cfg: seq<set<Request>>, t: nat, from: nat, u: Udp, a: Action)
    requires Shaped(|cfg|, u) && Inv(u.hs) && t < |cfg| && OutFits(t, from, u)
    requires Disciplined(u.hs, a) && Serves(a) && !LoopAction(a)
    ensures OutFits(t, from, UdpNext(u, Inner(a)))
  {
    var u' := UdpNext(u, Inner(a));
    StepKeepsInv(u.hs, a);
    LogGrows(u.hs, a);
    assert u'.out == u.out && u'.want == u.want && u'.args == u.args;
    if u'.hs.log != u.hs.log {
      assert u'.hs.log == u.hs.log + [u'.hs.log[|u.hs.log|]];
    }
  }

  lemma SendHereFindsFree(s: State, p: nat, ok: bool)
    requires Inv(s) && |s.conns| == 1 && Disciplined(s, LoopSend(0, p, ok))
    ensures PhaseOf(Next(s, LoopSend(0, p, ok)).log).Free?
  {
    LogGrows(s, LoopSend(0, p, ok));
    assert forall v | 0 <= v < |s.senders| :: s.senders[v].pc != Idle ==> s.senders[v].conn == 0;
  }

  lemma SendHereGrowsOut(u: Udp, x: UdpAction)
    requires x.SendHere?
    ensures |u.out| <= |UdpNext(u, x).out| && UdpNext(u, x).hs == Next(u.hs, LoopSend(0, x.p, x.ok))
    ensures UdpNext(u, x).want == u.want && UdpNext(u, x).args == u.args
  {
  }

  lemma SendHereKeepsOut(cfg: seq<set<Request>>, t: nat, from: nat, u: Udp, x: UdpAction)
    requires Shaped(|cfg|, u) && Inv(u.hs) && t < |cfg| && OutFits(t, from, u) && UdpEnabled(cfg, u, x) && x.SendHere?
    ensures OutFits(t, from, UdpNext(u, x))
  {
    SendHereFindsFree(u.hs, x.p, x.ok);
    SendHereGrowsOut(u, x);
  }

  lemma BeginKeepsOut(cfg: seq<set<Request>>, t: nat, from: nat, u: Udp, x: UdpAction)
    requires Shaped(|cfg|, u) && Inv(u.hs) && t < |cfg| && OutFits(t, from, u) && UdpEnabled(cfg, u, x)
    requires x.Clear? || x.Begin?
    ensures OutFits(t, from, UdpNext(u, x))
  {
    var u' := UdpNext(u, x);
    assert u'.hs.log == u.hs.log && u'.out == u.out;
    assert x.Begin? && x.t != t ==> u'.want[t] == u.want[t] && u'.args[t] == u.args[t];
  }

  lemma OutKept(cfg: seq<set<Request>>, t: nat, from: nat, u: Udp, x: UdpAction)
    requires Shaped(|cfg|, u) && Inv(u.hs) && PointersFit(u) && t < |cfg| && OutFits(t, from, u)
    requires UdpEnabled(cfg, u, x)
    ensures Shaped(|cfg|, UdpNext(u, x)) && OutFits(t, from, UdpNext(u, x))
  {
    ShapeStep(cfg, u, x);
    match x
    case Clear(_) | Begin(_, _, _) => BeginKeepsOut(cfg, t, from, u, x);
    case SendHere(_, _, _) => SendHereKeepsOut(cfg, t, from, u, x);
    case Inner(a) =>
      if a.AsyncCb? {
        CaptureKeepsOut(cfg, t, from, u, a.ok);
      } else if a.WriteDone? {
        CompletionKeepsOut(cfg, t, from, u);
      } else {
        CallerKeepsOut(cfg, t, from, u, a);
      }
  }

  // ------------------------------------------------------------------ from one point of a call to a later one

  /** From `u` to `z` thread `t` has neither called nor returned: the call it is in has gone on, if it is in one. */
  ghost predicate GoesOn(t: nat, u: Udp, z: Udp) {
    && t < |u.want| && t < |u.args| && t < |z.want| && t < |z.args|
    && z.want[t] == u.want[t] && z.args[t] == u.args[t] && Onward(t, u.hs.log, z.hs.log)
    && forall from :: OutFits(t, from, u) ==> OutFits(t, from, z)
  }

  lemma GoesOnThen(t: nat, u: Udp, v: Udp, z: Udp)
    requires GoesOn(t, u, v) && GoesOn(t, v, z)
    ensures GoesOn(t, u, z)
  {
    OnwardThen(t, u.hs.log, v.hs.log, z.hs.log);
  }

  lemma GoesOnStep(cfg: seq<set<Request>>, t: nat, u: Udp, x: UdpAction)
    requires Reachable(Socket(cfg), u) && UdpEnabled(cfg, u, x) && t < |cfg|
    requires !x.Inner? ==> !CallOf(t, x)
    requires x != Inner(Unlock(t))
    ensures GoesOn(t, u, UdpNext(u, x))
  {
    EveryRunPoints(cfg);
    forall from | OutFits(t, from, u) ensures OutFits(t, from, UdpNext(u, x)) {
      OutKept(cfg, t, from, u, x);
    }
    if Core(x).Some? {
      OnwardStep(t, u.hs, Core(x).value);
    } else {
      OnwardSelf(t, u.hs.log);
    }
    ArgumentsStay(cfg, t, u, x);
  }

  lemma ArgumentsStay(cfg: seq<set<Request>>, t: nat, u: Udp, x: UdpAction)
    requires Shaped(|cfg|, u) && UdpEnabled(cfg, u, x) && t < |cfg| && (!x.Inner? ==> !CallOf(t, x))
    ensures Shaped(|cfg|, UdpNext(u, x)) && UdpNext(u, x).want[t] == u.want[t] && UdpNext(u, x).args[t] == u.args[t]
  {
    ShapeStep(cfg, u, x);
  }

  /** A call that has been served returns only when its datagram has been handed to the network. */
  lemma ServedMeansSent(t: nat, from: nat, u: Udp, base: seq<Event>, ok: bool)
    requires Inv(u.hs) && Enabled(u.hs, Unlock(t)) && t < |u.want| && t < |u.args|
    requires OutFits(t, from, u) && Since(t, base, ok, u.hs.log)
    ensures ok ==> OwnSent(t, u.hs.senders[t].payload, from, u)
  {
    UnlockEnds(t, u.hs);
    if ok {
      var mine := Mine(t, u.hs.log);
      assert mine[|mine| - 1] == Completed(u.hs.senders[t].conn, Buf(Thread(t), u.hs.senders[t].payload));
    }
  }

  /** What the caller of one of the two functions is promised: a datagram of its own, from the `from`-th on, meant for
      what it asked for, and sent there if nobody else can have written the cell its pointer leads to. */
  ghost predicate Delivered(cfg: seq<set<Request>>, t: nat, p: nat, r: Request, from: nat, out: seq<Datagram>) {
    exists i :: from <= i < |out| && out[i].buf == Buf(Thread(t), p) && out[i].wanted == Some(r.addr)
                && (r.Direct? || OneUsesCell(cfg) ==> out[i].addr == Some(r.addr))
  }

  lemma SentMeansDelivered(cfg: seq<set<Request>>, t: nat, p: nat, r: Request, from: nat, u: Udp)
    requires Reachable(Socket(cfg), u) && t < |u.want| && t < |u.args| && OwnSent(t, p, from, u)
    requires u.want[t] == r.addr && u.args[t] == RefOf(r)
    ensures Delivered(cfg, t, p, r, from, u.out)
  {
    if OneUsesCell(cfg) {
      NoRaceIsFaithful(cfg);
    }
    var i :| from <= i < |u.out| && u.out[i].buf == Buf(Thread(t), p) && u.out[i].wanted == Some(u.want[t])
             && (u.args[t].Private? ==> u.out[i].addr == Some(u.want[t]));
    assert r.Direct? || OneUsesCell(cfg) ==> u.out[i].addr == Some(r.addr);
  }
}
