/**
 The TCP client as the blocks it is made of, which refer to each other by pointers. Callbacks get a handle or a request
 from libuv and find the client through its `data` field; each takes the step of the client machine, on a client in
 any state, freed or not.
 */
module ClientObject {
  import C = TcpClient

  /** The five blocks that `tcp_client_run` allocates, in order. */
  datatype Part = Struct | Session | ConnectReq | AsyncSend | AsyncClose

  class WriteRequest {
    var data: Client?
    ghost var frees: nat

    constructor (data: Client?)
      ensures this.data == data && frees == 0
    {
      this.data, frees := data, 0;
    }
  }

  class ConnectRequest {
    var data: Client?
    var handle: Stream?
    var pending: bool
    ghost var frees: nat

    constructor ()
      ensures data == null && handle == null && !pending && frees == 0
    {
      data, handle, pending, frees := null, null, false, 0;
    }
  }

  /** An async handle: `pending` is its event, `closing` and `finished` the two ends of its close. */
  class Async {
    var data: Client?
    var pending: bool
    var closing: bool
    var finished: bool
    ghost var frees: nat

    constructor ()
      ensures data == null && !pending && !closing && !finished && frees == 0
    {
      data, pending, closing, finished, frees := null, false, false, false, 0;
    }

    ghost function Life(): C.Async
      reads this
    {
      if !closing then C.Active else if finished then C.Stopped else C.Stopping
    }

    /** `uv_close`: a pending event is dropped. */
    method UvClose()
      modifies this
      ensures closing && !pending && finished == old(finished) && data == old(data) && frees == old(frees)
    {
      closing, pending := true, false;
    }
  }

  /** The session's handle: `own` says that its close was given `on_close_connection`. */
  class Stream {
    var data: Client?
    var reading: bool
    var writes: seq<WriteRequest>
    var closing: bool
    var own: bool
    var finished: bool
    ghost var frees: nat

    constructor ()
      ensures data == null && !reading && writes == [] && !closing && !own && !finished && frees == 0
    {
      data, reading, writes, closing, own, finished, frees := null, false, [], false, false, false, 0;
    }

    ghost function Life(): C.Session
      reads this
    {
      if !closing then C.Open else if finished then C.Closed else if own then C.Closing else C.Dying
    }

    /** `uv_close`: reading stops at once. */
    method UvClose(own: bool)
      modifies `closing, `own, `reading
      ensures closing && this.own == own && !reading
    {
      closing, this.own, reading := true, own, false;
    }
  }

  class Client {
    const session: Stream
    const connectReq: ConnectRequest
    const asyncSend: Async
    const asyncClose: Async
    ghost var closed: bool
    ghost var wild: bool
    ghost var frees: nat

    ghost function Model(): C.Client
      reads this, session, connectReq, asyncSend, asyncClose
    {
      C.Client(session.Life(), connectReq.pending, session.reading, |session.writes|,
               asyncSend.Life(), asyncClose.Life(), asyncClose.pending, closed,
               C.Frees(frees, session.frees, connectReq.frees, asyncSend.frees, asyncClose.frees), wild)
    }

    /** Whatever can still call back leads to this client; the two events are closed exactly when the client is. */
    ghost predicate Valid()
      reads this, session, session.writes, connectReq, asyncSend, asyncClose
    {
      && asyncSend != asyncClose
      && connectReq.data == this && connectReq.handle == session
      && asyncClose.data == this && (asyncClose.pending ==> !asyncClose.closing)
      && (session.reading ==> session.data == this && !session.closing && !connectReq.pending)
      && (session.closing && session.own ==> session.data == this)
      && (session.finished ==> session.closing)
      && (forall i | 0 <= i < |session.writes| :: session.writes[i].data == this)
      && (closed <==> asyncSend.closing) && (closed <==> asyncClose.closing)
      && (asyncSend.finished ==> asyncSend.closing) && (asyncClose.finished ==> asyncClose.closing)
    }

    /** What `tcp_client_run` makes of its five blocks; the connect request is under way. */
    constructor (session: Stream, connectReq: ConnectRequest, asyncSend: Async, asyncClose: Async)
      requires asyncSend != asyncClose
      requires session.writes == [] && !session.reading && !session.closing && !session.finished && session.frees == 0
      requires !asyncSend.closing && !asyncSend.finished && asyncSend.frees == 0
      requires !asyncClose.pending && !asyncClose.closing && !asyncClose.finished && asyncClose.frees == 0
      requires connectReq.frees == 0
      modifies connectReq, asyncClose
      ensures Valid() && Model() == C.FRESH
    {
      this.session, this.connectReq, this.asyncSend, this.asyncClose := session, connectReq, asyncSend, asyncClose;
      closed, wild, frees := false, false, 0;
      new;
      asyncClose.data := this;
      connectReq.data := this;
      connectReq.handle := session;
      connectReq.pending := true;
    }

    /** A callback reads the client. */
    ghost method Touch()
      modifies `wild
      ensures wild == (old(wild) || frees > 0)
    {
      wild := wild || frees > 0;
    }

    /** `free_resource`. */
    method FreeResource()
      modifies `frees, connectReq`frees, session`frees
      ensures Model() == C.FreeResource(old(Model()))
    {
      connectReq.frees := connectReq.frees + 1;
      session.frees := session.frees + 1;
      frees := frees + 1;
    }

    /** `close_handle`: closes the session with the callback that frees the client, or frees the client at once. */
    method CloseHandle()
      requires Valid() && !closed
      modifies this, session, asyncSend, asyncClose, connectReq`frees
      ensures Valid() && Model() == C.CloseHandle(old(Model()))
      ensures closed && asyncSend.closing && asyncClose.closing && !session.reading && session.closing
      ensures if old(session.closing)
              then frees == old(frees) + 1 && session.frees == old(session.frees) + 1
                   && connectReq.frees == old(connectReq.frees) + 1 && session.own == old(session.own)
              else session.own && session.data == this && frees == old(frees) && session.frees == old(session.frees)
    {
      Touch();
      asyncSend.UvClose();
      asyncClose.UvClose();
      closed := true;
      session.reading := false;
      if !session.closing {
        session.data := this;
        session.UvClose(true);
      } else {
        FreeResource();
      }
    }

    /** `tcp_client_close`: at once on the loop thread, by an event on another. */
    method Close(onLoopThread: bool)
      requires Valid() && C.Enabled(Model(), if onLoopThread then C.CloseHere else C.CloseElsewhere)
      modifies this, session, asyncSend, asyncClose, connectReq`frees
      ensures Valid() && Model() == C.Next(old(Model()), if onLoopThread then C.CloseHere else C.CloseElsewhere)
    {
      if onLoopThread {
        CloseHandle();
      } else {
        Touch();
        asyncClose.pending := true;
      }
    }

    /** `send_data`; `haveMemory` says whether there was memory for the request. */
    method SendData(haveMemory: bool)
      requires Valid() && C.Enabled(Model(), C.Write)
      modifies `wild, session`writes
      ensures Valid() && Model() == if haveMemory then C.Next(old(Model()), C.Write) else C.Touch(old(Model()))
      ensures if haveMemory
              then |session.writes| == |old(session.writes)| + 1 && fresh(session.writes[|old(session.writes)|])
                   && session.writes[..|old(session.writes)|] == old(session.writes)
              else session.writes == old(session.writes)
    {
      Touch();
      if !haveMemory {
        return;
      }
      var req := new WriteRequest(this);
      session.writes := session.writes + [req];
    }
  }

  // In the callbacks, `c` is the client that the handle or request was made for, as far as libuv is concerned.

  /** `on_connect`: only a successful one starts reading. */
  method OnConnect(ghost c: Client, req: ConnectRequest, status: int)
    requires c.Valid() && req == c.connectReq && C.Enabled(c.Model(), C.OnConnect(status == 0))
    modifies c, req, c.session
    ensures c.Valid() && c.Model() == C.Next(old(c.Model()), C.OnConnect(status == 0))
    ensures !req.pending && (c.session.reading <==> status == 0)
    ensures c.session.closing == old(c.session.closing) && c.session.writes == old(c.session.writes)
  {
    req.pending := false;
    var client := req.data;
    client.Touch();
    if status != 0 {
      return;
    }
    req.handle.data := client;
    req.handle.reading := true;
  }

  /** `on_read`: only an error changes anything, and closes the session with no callback. */
  method OnRead(ghost c: Client, handle: Stream, nread: int)
    requires c.Valid() && handle == c.session && handle.reading
    modifies c, handle
    ensures c.Valid()
    ensures c.Model() == if nread < 0 then C.Next(old(c.Model()), C.OnReadError) else C.Touch(old(c.Model()))
    ensures if nread < 0 then handle.closing && !handle.own && !handle.reading else unchanged(handle)
    ensures handle.writes == old(handle.writes) && c.frees == old(c.frees)
  {
    var client := handle.data;
    client.Touch();
    if nread < 0 {
      if !client.session.closing {
        client.session.UvClose(false);
      }
    }
  }

  /** `on_client_write`, for the oldest request, which it frees. */
  method OnClientWrite(ghost c: Client, handle: Stream)
    requires c.Valid() && handle == c.session && handle.writes != []
    modifies c, handle, handle.writes
    ensures c.Valid() && c.Model() == C.Next(old(c.Model()), C.OnWrite) && handle.writes == old(handle.writes)[1..]
    ensures old(handle.writes[0]).frees == old(handle.writes[0].frees) + 1
  {
    var req := handle.writes[0];
    handle.writes := handle.writes[1..];
    var client := req.data;
    client.Touch();
    req.frees := req.frees + 1;
  }

  /** `async_close_cb`. */
  method AsyncCloseCb(ghost c: Client, handle: Async)
    requires c.Valid() && handle == c.asyncClose && handle.pending
    modifies c, c.session, c.asyncSend, c.asyncClose, c.connectReq`frees
    ensures c.Valid() && c.Model() == C.Next(old(c.Model()), C.AsyncCloseCb)
    ensures c.closed && c.session.closing && (!old(c.session.closing) ==> c.session.own && c.frees == old(c.frees))
  {
    handle.pending := false;
    var client := handle.data;
    if client == null {
      return;
    }
    client.CloseHandle();
  }

  /** The end of the session's close: libuv's last look at it, then the callback it was given, if any, which is
      `on_close_connection`. */
  method SessionClosed(ghost c: Client, handle: Stream)
    requires c.Valid() && handle == c.session && C.Enabled(c.Model(), C.SessionClosed)
    modifies c, handle, c.connectReq`frees
    ensures c.Valid() && c.Model() == C.Next(old(c.Model()), C.SessionClosed)
    ensures handle.finished && c.frees == (if handle.own then old(c.frees) + 1 else old(c.frees))
  {
    c.wild := c.wild || handle.frees > 0;
    handle.finished := true;
    if handle.own {
      var client := handle.data;
      client.Touch();
      client.FreeResource();
    }
  }

  /** The end of an event's close, and `close_cb`, which frees it. */
  method AsyncClosed(ghost c: Client, handle: Async)
    requires c.Valid() && (handle == c.asyncSend || handle == c.asyncClose) && handle.Life() == C.Stopping
    modifies handle
    ensures c.Valid()
    ensures c.Model() == C.Next(old(c.Model()), if handle == c.asyncSend then C.SendAsyncClosed else C.CloseAsyncClosed)
  {
    handle.finished := true;
    handle.frees := handle.frees + 1;
  }

  /** `tcp_client_run`: when an allocation fails, everything allocated before is freed again. */
  method Run(missing: set<Part>) returns (client: Client?, ok: bool, live: set<Part>)
    ensures ok <==> missing == {}
    ensures if ok then client != null && fresh(client) && client.Valid() && client.Model() == C.FRESH
            else client == null
    ensures live == if ok then {Struct, Session, ConnectReq, AsyncSend, AsyncClose} else {}
  {
    client, ok, live := null, false, {};
    if Struct in missing {
      return;
    }
    live := live + {Struct};
    if Session in missing {
      live := live - {Struct};
      return;
    }
    live := live + {Session};
    if ConnectReq in missing {
      live := live - {Session} - {Struct};
      return;
    }
    live := live + {ConnectReq};
    if AsyncSend in missing {
      live := live - {ConnectReq} - {Session} - {Struct};
      return;
    }
    live := live + {AsyncSend};
    if AsyncClose in missing {
      live := live - {AsyncSend} - {ConnectReq} - {Session} - {Struct};
      return;
    }
    live := live + {AsyncClose};
    forall p: Part ensures p !in missing {
      assert p.Struct? || p.Session? || p.ConnectReq? || p.AsyncSend? || p.AsyncClose?;
    }
    var session := new Stream();
    var connectReq := new ConnectRequest();
    var asyncSend := new Async();
    var asyncClose := new Async();
    client := new Client(session, connectReq, asyncSend, asyncClose);
    ok := true;
  }
}
