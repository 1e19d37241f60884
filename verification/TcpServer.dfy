/** The server object itself: its callbacks, on real list nodes, take exactly the steps of the registry machine. */
module TcpServer {
  import opened Queue
  import R = Registry

  /**
   Connection `i` is the `i`-th ever accepted: `links[i]` is the list node embedded in it, whose `item` is `i`, and
   `uv[i]` is what libuv and the allocator know of it. `ring` and `nodes` are the listed connections and their nodes.
   */
  class Server {
    const sessions: Node<nat>
    var connCount: int
    var isClosing: bool
    var listener: R.Life
    var asyncSend: R.Life
    var asyncClose: R.Life
    var strays: seq<R.Life>
    var links: seq<Node<nat>>
    var uv: seq<R.Session>
    ghost var ring: seq<nat>
    ghost var nodes: seq<Node<nat>>
    ghost var closeBegun: bool
    ghost var frees: nat

    ghost function Model(): R.Server
      reads this
    {
      R.Server(uv, strays, listener, asyncSend, asyncClose, ring, connCount, isClosing, closeBegun, false, frees, false)
    }

    /** The list links exactly the nodes of the connections in `ring`. */
    ghost predicate Listed()
      reads `links, `ring, `nodes, sessions, nodes
    {
      && (forall i | 0 <= i < |links| :: links[i] != sessions && links[i].item == i)
      && Named(links, ring, nodes)
      && IsList(sessions, nodes)
    }

    /** The server has not been freed, and its fields agree with its list. */
    ghost predicate Valid()
      reads this, sessions, nodes
    {
      Listed() && |links| == |uv| && frees == 0
    }

    constructor ()
      ensures Valid() && Model() == R.FRESH
    {
      sessions := new Node(0);
      connCount, isClosing, strays, links, uv := 0, false, [], [], [];
      listener, asyncSend, asyncClose := R.Open, R.Open, R.Open;
      ring, nodes, closeBegun, frees := [], [], false, 0;
    }

    /** Initialises the node of a new connection and puts it at the tail of the list. */
    method Link()
      requires Listed()
      modifies `links, `ring, `nodes, sessions, nodes
      ensures Listed()
      ensures |links| == |old(links)| + 1 && ring == old(ring) + [|old(links)|]
    {
      var node := new Node<nat>(|links|);
      InsertTail(sessions, node, nodes);
      ring := ring + [|links|];
      nodes := nodes + [node];
      links := links + [node];
    }

    /** Takes the node of connection `c` off the list. */
    method Unlink(c: nat)
      requires Listed() && c in ring
      modifies `ring, `nodes, sessions, nodes
      ensures Listed()
      ensures ring == R.Without(old(ring), c)
    {
      ghost var k :| 0 <= k < |ring| && ring[k] == c;
      RingWithout(k);
      StillNamed(links, ring, nodes, k);
      Remove(links[c], sessions, nodes, k);
      ring := Without(ring, k);
      nodes := Without(nodes, k);
    }

    lemma RingWithout(k: nat)
      requires Listed() && k < |ring|
      ensures R.Without(ring, ring[k]) == Without(ring, k)
    {
      forall i, j | 0 <= i < j < |ring| ensures ring[i] != ring[j] {
        assert nodes[i] != nodes[j];
      }
      WithoutOne(ring, k);
    }

    /** `on_new_connection`: `status` and `accepted` are libuv's results, the two flags the allocator's. */
    method OnNewConnection(status: int, clientAllocated: bool, accepted: int, connAllocated: bool)
      requires Valid() && R.Enabled(Model(), R.AcceptNothing)
      modifies `links, `ring, `nodes, `uv, `strays, `connCount, sessions, nodes
      ensures Valid()
      ensures Model() == R.Next(old(Model()),
                if status < 0 || !clientAllocated then R.AcceptNothing else R.Accept(accepted == 0 && connAllocated))
      ensures var reached := status >= 0 && clientAllocated;
              var taken := reached && accepted == 0 && connAllocated;
              && uv == old(uv) + (if taken then [R.Session(R.Open, 0, 0)] else [])
              && ring == old(ring) + (if taken then [|old(uv)|] else [])
              && connCount == old(connCount) + (if taken then 1 else 0)
              && strays == old(strays) + (if reached && !taken then [R.Closing] else [])
    {
      if status < 0 {
        return;
      }
      if !clientAllocated {
        return;
      }
      var connStatus := false;
      if accepted == 0 {
        if connAllocated {
          connStatus := true;
          Link();
          uv := uv + [R.Session(R.Open, 0, 0)];
          connCount := connCount + 1;
        }
      }
      if !connStatus {
        strays := strays + [R.Closing];
      }
    }

    /** `tcp_server_conn_close`: afterwards the handle is closing, by one `uv_close` in its life, however often this is
        called. */
    method ConnClose(c: nat)
      requires c < |uv| && uv[c].life != R.Closed && R.SessionFits(uv[c])
      modifies `uv
      ensures |uv| == |old(uv)| && forall i | 0 <= i < |uv| && i != c :: uv[i] == old(uv)[i]
      ensures uv[c].life == R.Closing && R.SessionFits(uv[c])
    {
      if uv[c].life == R.Open {
        uv := uv[c := R.Session(R.Closing, uv[c].closes + 1, uv[c].frees)];
      }
    }

    /** The error branch of `on_conn_read`. */
    method OnReadError(c: nat)
      requires Valid() && R.Inv(Model()) && R.Enabled(Model(), R.ReadError(c))
      modifies `uv
      ensures Valid()
      ensures Model() == R.Next(old(Model()), R.ReadError(c))
      ensures |uv| == |old(uv)| && uv[c].life == R.Closing && uv[c].closes == 1
      ensures forall i | 0 <= i < |uv| && i != c :: uv[i] == old(uv)[i]
    {
      ConnClose(c);
      ClosingIsClosed(old(uv)[c], uv[c]);
      assert uv == old(uv)[c := uv[c]];
    }

    /** What is on the list can be closed. */
    ghost predicate Closable()
      reads this
    {
      |links| == |uv| &&
      forall k | 0 <= k < |ring| :: ring[k] < |uv| && uv[ring[k]].life != R.Closed && R.SessionFits(uv[ring[k]])
    }

    lemma ListTest()
      requires Listed()
      ensures IsEmpty(sessions) <==> ring == []
    {
    }

    method CloseListed(c: nat)
      requires Closable() && c in ring
      modifies `uv
      ensures Closable() && c < |old(uv)| && uv == old(uv)[c := R.CloseSession(old(uv)[c])]
    {
      ConnClose(c);
      ClosingIsClosed(old(uv)[c], uv[c]);
      assert uv == old(uv)[c := uv[c]];
    }

    /** The sweep of `close_handle`: follows the `next` pointers and closes the connection each node belongs to. */
    method CloseAll()
      requires Listed() && Closable()
      modifies `uv
      ensures uv == R.Sweep(old(uv), ring) && |uv| == |links|
    {
      ghost var k := 0;
      var q := sessions.next;
      while q != sessions
        invariant k <= |ring| && |uv| == |links|
        invariant q == if k < |ring| then nodes[k] else sessions
        invariant uv == R.Sweep(old(uv), ring[..k])
        invariant Closable()
        decreases |ring| - k
      {
        assert q == links[ring[k]] && q.item == ring[k];
        assert q.next == if k + 1 < |ring| then nodes[k + 1] else sessions;
        assert ring[..k + 1][..k] == ring[..k];
        CloseListed(q.item);
        q := q.next;
        k := k + 1;
      }
      assert ring[..k] == ring;
    }

    /** `close_handle`, once `is_closing` has been set. */
    method CloseHandle()
      requires Listed() && Closable()
      modifies `listener, `asyncSend, `asyncClose, `closeBegun, `frees, `uv
      ensures Model() == R.CloseHandles(old(Model())) && |uv| == |links|
    {
      CloseHandles();
      ListTest();
      if IsEmpty(sessions) {
        frees := frees + 1;
        return;
      }
      CloseAll();
    }

    /** Its `uv_close` calls on the server's own handles. */
    method CloseHandles()
      modifies `listener, `asyncSend, `asyncClose, `closeBegun
      ensures Model() == old(Model()).(listener := if old(listener) == R.Open then R.Closing else old(listener),
                                       asyncSend := R.Closing, asyncClose := R.Closing, closeBegun := true)
    {
      if listener == R.Open {
        listener := R.Closing;
      }
      asyncSend, asyncClose := R.Closing, R.Closing;
      closeBegun := true;
    }

    /** `tcp_server_close` on the loop thread. */
    method Close()
      requires Valid() && R.Inv(Model()) && R.Enabled(Model(), R.CloseHere)
      modifies `isClosing, `listener, `asyncSend, `asyncClose, `closeBegun, `frees, `uv
      ensures Model() == R.Next(old(Model()), R.CloseHere)
      ensures frees == 0 ==> Valid()
      ensures listener != R.Open && asyncSend == R.Closing && asyncClose == R.Closing
      ensures |uv| == |old(uv)| && forall c | 0 <= c < |uv| :: uv[c].life != R.Open && uv[c].closes == 1
      ensures frees == if ring == [] then 1 else 0
    {
      ListedAreClosable(Model());
      R.CloseKeepsInv(Model());
      isClosing := true;
      CloseHandle();
    }

    /** `on_close_connection`: unlinks and frees connection `c`, and the server with the last one. */
    method OnCloseConnection(c: nat)
      requires Valid() && c < |uv| && c in ring
      modifies `ring, `nodes, `uv, `connCount, `frees, sessions, nodes
      ensures Model() == R.Next(old(Model()), R.CloseCb(R.Of(c)))
      ensures |uv| == |old(uv)| && uv[c].life == R.Closed && uv[c].frees == old(uv)[c].frees + 1
      ensures forall i | 0 <= i < |uv| && i != c :: uv[i] == old(uv)[i]
      ensures connCount == old(connCount) - 1 && frees == if isClosing && ring == [] then 1 else 0
      ensures frees == 0 ==> Valid()
    {
      Drop(c);
    }

    method Drop(c: nat)
      requires Valid() && c < |uv| && c in ring
      modifies `ring, `nodes, `uv, `connCount, `frees, sessions, nodes
      ensures Listed() && |uv| == |links|
      ensures uv == old(uv)[c := R.Session(R.Closed, old(uv)[c].closes, old(uv)[c].frees + 1)]
      ensures ring == R.Without(old(ring), c) && connCount == old(connCount) - 1
      ensures frees == if isClosing && ring == [] then 1 else 0
    {
      Unlink(c);
      connCount := connCount - 1;
      uv := uv[c := R.Session(R.Closed, uv[c].closes, uv[c].frees + 1)];
      ListTest();
      if isClosing && IsEmpty(sessions) {
        frees := frees + 1;
      }
    }
  }

  /** The four blocks that `tcp_server_run` allocates, in order. */
  datatype Part = Struct | Listener | AsyncSend | AsyncClose

  /** `tcp_server_run`: `missing` are the allocations that fail, the flags libuv's answers to bind and listen. A failed
      allocation undoes the earlier ones; a failed bind or listen closes the new server, which frees it at once and
      leaves its three handles to their close callbacks. */
  method Run(missing: set<Part>, bound: bool, listening: bool) returns (server: Server?, ok: bool, live: set<Part>)
    ensures ok <==> missing == {} && bound && listening
    ensures missing != {} ==> server == null && live == {}
    ensures missing == {} ==>
              && server != null && fresh(server)
              && live == (if ok then {Struct} else {}) + {Listener, AsyncSend, AsyncClose}
    ensures ok ==> server.Valid() && server.Model() == R.FRESH
    ensures missing == {} && !ok ==> server.Model() == R.Next(R.FRESH, R.CloseHere) && server.frees == 1
  {
    server, ok, live := null, false, {};
    if Struct in missing {
      return;
    }
    live := live + {Struct};
    if Listener in missing {
      live := live - {Struct};
      return;
    }
    live := live + {Listener};
    if AsyncSend in missing {
      live := live - {Listener} - {Struct};
      return;
    }
    live := live + {AsyncSend};
    if AsyncClose in missing {
      live := live - {AsyncSend} - {Listener} - {Struct};
      return;
    }
    live := live + {AsyncClose};
    forall p: Part ensures p !in missing {
      assert p.Struct? || p.Listener? || p.AsyncSend? || p.AsyncClose?;
    }
    server := new Server();
    if !bound {
      server.Close();
      live := live - {Struct};
      return;
    }
    if !listening {
      server.Close();
      live := live - {Struct};
      return;
    }
    ok := true;
  }

  /** One `uv_close` and the state `Closing` are what a session that was not closed has after it is closed. */
  lemma ClosingIsClosed(x: R.Session, y: R.Session)
    requires R.SessionFits(x) && x.life != R.Closed && R.SessionFits(y) && y.life == R.Closing
    ensures y == R.CloseSession(x)
  {
  }

  lemma ListedAreClosable(s: R.Server)
    requires R.Inv(s)
    ensures forall k | 0 <= k < |s.ring| ::
              s.ring[k] < |s.sessions| && s.sessions[s.ring[k]].life != R.Closed && R.SessionFits(s.sessions[s.ring[k]])
  {
    R.LiveMembersAll(s.sessions);
    assert forall k | 0 <= k < |s.ring| :: s.ring[k] in s.ring;
  }

  /** `nodes` are the nodes of the connections in `ring`. */
  ghost predicate Named(links: seq<Node<nat>>, ring: seq<nat>, nodes: seq<Node<nat>>) {
    |nodes| == |ring| && forall k | 0 <= k < |ring| :: ring[k] < |links| && nodes[k] == links[ring[k]]
  }

  lemma StillNamed(links: seq<Node<nat>>, ring: seq<nat>, nodes: seq<Node<nat>>, k: nat)
    requires Named(links, ring, nodes) && k < |ring|
    ensures Named(links, Without(ring, k), Without(nodes, k))
  {
  }

  lemma {:induction false} WithoutOne(ring: seq<nat>, k: nat)
    requires k < |ring| && forall i, j | 0 <= i < j < |ring| :: ring[i] != ring[j]
    ensures R.Without(ring, ring[k]) == Without(ring, k)
  {
    var rest := ring[..|ring| - 1];
    if k == |rest| {
      R.WithoutAbsent(rest, ring[k]);
    } else {
      WithoutOne(rest, k);
      assert Without(rest, k) + [ring[|rest|]] == Without(ring, k);
    }
  }
}
