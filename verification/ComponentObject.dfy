/**
 The component put together from its parts: a message queue in memory, a UDP socket, and the address cell that is
 latched from the first datagram. Its two callbacks take the steps of the composed machine.
 */
module ComponentObject {
  import opened Machines
  import Q = MsgQueue
  import H = Handshake
  import U = UdpCapture
  import P = Pipeline
  import M = Mailbox
  import S = UdpSocket

  class Component {
    const msgQueue: M.MsgQueue
    const udp: S.Socket
    const peerAddr: S.AddrCell
    var initPeer: bool
    ghost var main: P.Main

    constructor (cap: Option<nat>)
      ensures Valid() && Model() == P.Component(cap).init
      ensures fresh(msgQueue) && fresh(udp) && fresh(udp.sendAddr) && fresh(peerAddr)
    {
      msgQueue := new M.MsgQueue(1, cap);
      var socket := new S.Socket(1);
      udp := socket;
      peerAddr := new S.AddrCell(None);
      initPeer, main := false, P.Working;
      new;
      assert socket.Model() == U.UdpStart(1);
    }

    ghost function Model(): P.State
      reads this, msgQueue, udp, peerAddr
    {
      P.State(msgQueue.model, udp.Core(), if initPeer then peerAddr.addr else None, main)
    }

    /** One sender on each side, and the latched address in a cell of the component's own. */
    ghost predicate Valid()
      reads this, msgQueue, udp, peerAddr
    {
      && msgQueue.Valid() && |msgQueue.hands| == 1
      && |udp.senders| == |udp.args| == |udp.want| == |udp.filling| == 1
      && peerAddr != udp.sendAddr && (initPeer ==> peerAddr.addr.Some?)
    }

    /** `on_data`: latches the first sender's address, before the data can reach the worker, and sends a copy of the
        data to the queue; with the queue full it is left inside `msgsnd`. Its two halves below take one step each, from
        any state, so other threads may take theirs in between. */
    method OnData(from: nat, data: seq<nat>, haveMemory: bool)
      requires Valid() && P.Enabled(Model(), P.Datagram(from, data, haveMemory))
      modifies this, peerAddr, msgQueue
      ensures Valid()
      ensures var s := P.Next(old(Model()), P.Datagram(from, data, haveMemory));
              Model() == if P.Enabled(s, P.Queue(Q.Msgsnd(0))) then P.Next(s, P.Queue(Q.Msgsnd(0))) else s
      ensures initPeer && peerAddr.addr == if old(initPeer) then old(peerAddr.addr) else Some(from)
      ensures haveMemory && !msgQueue.removed && old(msgQueue.Room()) ==>
                exists p :: p !in old(msgQueue.heap) && msgQueue.heap == old(msgQueue.heap)[p := data] &&
                            msgQueue.queue == old(msgQueue.queue) + [M.Raw(1, M.Right, Some(p))]
    {
      Take(from, data, haveMemory);
      if haveMemory {
        var queued := PassOn();
      }
    }

    /** Up to the copy of the data. */
    method Take(from: nat, data: seq<nat>, haveMemory: bool)
      requires Valid() && P.Enabled(Model(), P.Datagram(from, data, haveMemory))
      modifies this, peerAddr, msgQueue
      ensures Valid() && Model() == P.Next(old(Model()), P.Datagram(from, data, haveMemory))
      ensures haveMemory ==>
                exists p :: p !in old(msgQueue.heap) && msgQueue.heap == old(msgQueue.heap)[p := data] &&
                            msgQueue.hands[0] == Some(M.Raw(1, M.Right, Some(p)))
      ensures initPeer && peerAddr.addr == if old(initPeer) then old(peerAddr.addr) else Some(from)
    {
      if !initPeer {
        peerAddr.addr := Some(from);
        initPeer := true;
      }
      msgQueue.Prepare(0, data, 0, haveMemory);
    }

    /** From the `msgsnd` on, which sleeps while the queue is full. */
    method PassOn() returns (queued: bool)
      requires Valid() && msgQueue.hands[0].Some?
      modifies msgQueue
      ensures Valid() && queued == P.Enabled(old(Model()), P.Queue(Q.Msgsnd(0)))
      ensures Model() == if queued then P.Next(old(Model()), P.Queue(Q.Msgsnd(0))) else old(Model())
      ensures queued && !msgQueue.removed ==>
                && msgQueue.queue == old(msgQueue.queue) + [old(msgQueue.hands)[0].value]
                && msgQueue.heap == old(msgQueue.heap)
    {
      var status := msgQueue.Deliver(0);
      queued := status.Some?;
    }

    /** `on_msg`, entered by the worker with the block at `p`: answers, if an address has been latched, by a send of as
        many bytes through a pointer to the component's cell. */
    method OnMsg(p: nat)
      requires Valid() && P.WorkerIdle(Model())
      requires msgQueue.model.worker.Got? && msgQueue.model.worker.block.id == p
      modifies msgQueue, udp
      ensures Valid() && Model() == P.Next(old(Model()), P.Queue(Q.StartCb))
      ensures initPeer ==>
                && udp.args == [peerAddr] && udp.want == [peerAddr.addr.value]
                && p in old(msgQueue.heap) && udp.senders == [H.Sender(H.Entered, 0, |old(msgQueue.heap)[p]|)]
      ensures !initPeer ==> udp.Core() == old(udp.Core())
    {
      var len := |msgQueue.heap[p]|;
      msgQueue.HandOver(p);
      if initPeer {
        Answer(len);
      }
    }

    method Answer(len: nat)
      requires Valid() && P.WorkerIdle(Model()) && initPeer
      modifies udp
      ensures Valid() && udp.Core() == H.Next(old(udp.Core()), H.Call(0, 0, len))
      ensures udp.args == [peerAddr] && udp.want == [peerAddr.addr.value]
      ensures udp.senders == [H.Sender(H.Entered, 0, len)]
    {
      udp.Enter(0, len, peerAddr);
      assert udp.args == [peerAddr] && udp.Model().want == [peerAddr.addr.value];
    }
  }
}
