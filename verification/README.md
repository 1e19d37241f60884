# A model of the uv_wrapper messaging middleware

The repository wraps libuv: TCP servers, TCP clients and UDP sockets that live on a loop thread and can be sent
through from any thread, a message queue with a worker thread, and a component that joins a UDP socket to a message
queue. This project models those parts and proves what their users rely on: that a send made from any thread is
whole, blocking and in order; that connections, servers, clients and heap blocks are freed exactly once; that closing
drains; and exactly when these things stop being true.

## How the model is laid out

Each protocol is a state machine over its atomic steps, so that every interleaving is a run of the machine. Beside it
stand classes laid out as the source's objects are in memory: list nodes, handles and requests that point back at
their owner, address cells that several pointers share, heap blocks behind queued pointers. An abstraction function,
or a relation kept in `Valid`, says which state of the machine that memory stands for, and the methods, which are the
source's callbacks and functions, are shown to take the machine's steps. Two parts have no machine: the list is proved
against plain sequences, and the tear-down by what it does to the handles it finds.

| files | what they model |
|---|---|
| `Machines.dfy` | reachable states (shown to be the ends of runs), schedules and what bounds them, counts and sums over sequences |
| `Queue.dfy` | the intrusive list of `queue.h`: pointer splices on nodes |
| `Handshake.dfy`, `HandshakeRuns.dfy` | the hand-over of a caller's buffer to the loop thread, for any number of threads and connections |
| `SendHistory.dfy`, `SocketHistory.dfy` | what the history says of one thread's own sends, of one connection's writes, and of one caller's datagrams |
| `MixedMode.dfy` | loop-thread sends and sends of other threads on one server |
| `ClosingSends.dfy` | a close that comes while other threads send |
| `SendPath.dfy` | the TCP server's send functions and callbacks on connection objects, each call as a whole under interference |
| `UdpCapture.dfy`, `UdpSocket.dfy` | which address a datagram carries; the UDP socket with its address cells, each call as a whole under interference |
| `Registry.dfy`, `TcpServer.dfy` | sessions, deferred close and release of a TCP server; the server object on list nodes |
| `TcpClient.dfy`, `ClientObject.dfy` | connect, read error, close and release of a TCP client; the five blocks a client is made of |
| `MsgQueue.dfy`, `MsgQueueRuns.dfy`, `MsgQueueHistory.dfy`, `Mailbox.dfy` | the message queue and its worker; the same in memory, with pointers in the queue and a heap behind them |
| `Pipeline.dfy`, `PipelineRuns.dfy`, `PipelineHistory.dfy`, `ComponentObject.dfy` | the component: message queue and UDP hand-over composed, as machines and as objects |
| `TearDown.dfy` | the tear-down of a loop |

`Handshake` is the protocol of the TCP server. A TCP client (`src/communication/net/tcp_client.c:289-318`) and a UDP
socket (`src/communication/net/udp.c:224-254`) run the same one with a single connection.

## What is taken from the environment

- A statement that touches one shared field is atomic, and so is each callback of the loop thread. The library function
  that writes an address takes two steps: it clears the address, and fills it in.
- `uv_async_send` sets one flag; one callback follows, which clears it. Signals sent while it is set coalesce.
- `uv_write` and `uv_udp_send` succeed once their request is allocated; completions come once each, in order per stream.
  The source ignores their results (`src/communication/net/tcp_server.c:254`, `src/communication/net/udp.c:118`).
- `uv_close` marks a handle as closing; its callback runs once, later, after the callbacks of what it cancels.
- `msgrcv` with type 0 takes the first message. Removing a queue wakes a blocked receiver with `EIDRM`; a receiver that
  comes later is told `EIDRM` or `EINVAL`, either of which is allowed here (POSIX.1-2017, System Interfaces, section 2.7).
- Whether an allocation succeeds, what libuv answers, and when datagrams, errors and foreign messages arrive are
  parameters of the steps.

## What the model shows to fail

- A connection used by the loop thread and by another thread at overlapping times can lose a wakeup for good, or give
  one too early. The token is conserved exactly when no connection is used both ways.
- `udp_send_data_ip` clears and fills the socket's address cell before it takes the mutex. Datagrams go where they should
  in every run exactly when at most one thread other than the loop thread uses it, whatever the addresses.
- With a message queue of any finite capacity the component can reach a circular wait; it is free of deadlock exactly
  when the queue has no limit. Shutting down gets it out of any such state.
- A close that takes effect while another thread is between its call of a send function and its return uses destroyed
  objects in some run, or leaves that thread asleep for good. It is safe for the senders exactly when there is no such
  thread and, for a UDP socket, no send request is outstanding. The next two lines are for closes with no send in
  progress on another thread.
- `tcp_client_close` called on the loop thread is sound exactly when the session is not in the middle of the close that
  a read error began. Called on another thread it is sound exactly when that close is over, or connecting has failed
  and nothing reads the session: otherwise a read error can come before the loop serves the request.
- `tcp_server_close` is sound exactly when it is called on the loop thread. After a call on another thread there is, from
  every state, a run that frees the server twice.
- Messages queued when the queue is removed are never freed. They are the only blocks that are not.
- The tear-down gives open handles an empty callback, so it frees only handles whose owner had begun to close them. It
  fails if such an owner's callback leaves a new handle behind, and does not return if that handle is active.

## Model

| member | source | states |
|---|---|---|
| HandshakeRuns.TokenConservation | src/communication/net/tcp_server.c:434-463 | in every reachable state of any number of threads and connections, pending send event + queued writes that will post + semaphore value is 1 when a caller is asleep and 0 otherwise; the semaphore never exceeds 1 |
| HandshakeRuns.SignalNeverCoalesces | src/communication/net/tcp_server.c:452-461 | whenever a caller is about to raise the send event none is pending and no token is left over, and it is alone in the critical section |
| HandshakeRuns.LoopReadsLiveBuffer | src/communication/net/tcp_server.c:257-261 | when the send event is served, its target is a connection and the buffer found there belongs to a caller still asleep in its own call for that connection |
| HandshakeRuns.SendsLinearize | src/communication/net/tcp_server.c:22-40 | in every run the history without loop-thread sends is a sequence of whole sends: lock, own payload written on own connection, that write completed (or its allocation failed), return |
| HandshakeRuns.AcceptedIsSerial | src/communication/net/tcp_server.c:434-463 | every history that the one-caller-at-a-time specification accepts is such a sequence of sends, followed by at most one begun |
| HandshakeRuns.EveryCallReturns | src/communication/net/tcp_server.c:235-261 | from every reachable state any schedule without new calls has at most a computable number of steps and can stop only when every caller has returned |
| HandshakeRuns.ServingDescends | src/communication/net/tcp_server.c:235-261 | every step that serves calls already made lowers the rank, loop callbacks included |
| HandshakeRuns.HolderAdvances | src/communication/net/tcp_server.c:452-461 | whatever others call or send meanwhile, a step lowers the mutex holder's rank exactly when it is one of the holder's or the loop's on its behalf, and such a step is always enabled |
| Handshake.StepKeepsInv | src/communication/net/tcp_server.c:434-463 | each step of the hand-over that respects the discipline keeps its invariant |
| MixedMode.BalancedExactlyWhenSeparate | src/communication/net/tcp_server.c:442-461 | the token is conserved in every run if and only if no connection is used both by the loop thread and by other threads |
| MixedMode.SeparateIsSafe | src/communication/net/tcp_server.c:442-449 | loop-thread sends on connections that no other thread uses keep the whole hand-over invariant in every run |
| MixedMode.WakeupCanBeLost | src/communication/net/tcp_server.c:442-449 | on a connection used both ways a state is reachable in which the mutex holder sleeps with nothing left that could wake it |
| MixedMode.LostIsForever | src/communication/net/tcp_server.c:36-39 | no action of anybody leads out of such a state |
| MixedMode.WakeupCanBeEarly | src/communication/net/tcp_server.c:36-39 | on a connection used both ways a caller can return while the event that will read its buffer is still pending |
| SendPath.Server.SendData | src/communication/net/tcp_server.c:235-255 | on connection objects, writes the published buffer, or on allocation failure posts the semaphore exactly if the connection is flagged |
| SendPath.Server.AsyncSendCb | src/communication/net/tcp_server.c:257-261 | is the machine's step for the send event, on the connection the event points at |
| SendPath.Server.OnConnWrite | src/communication/net/tcp_server.c:22-40 | is the machine's completion of the oldest write of a stream |
| SendPath.Server.SendOnLoop | src/communication/net/tcp_server.c:442-449 | is the machine's loop-thread send |
| SendPath.Server.SendAsync | src/communication/net/tcp_server.c:450-462 | one call on another thread, whatever loop and threads do between any two of its statements: it returns with exactly one whole send, of its own payload on its own connection, added to what the thread has done, the last of the off-loop sends; otherwise it is left asleep, on the mutex while another holds it, or holding it on the semaphore while that is zero, with a proper part of that one send added |
| HandshakeRuns.ReturnedLast | src/communication/net/tcp_server.c:459-461 | when a thread has just returned, the last of the whole sends that the history consists of is its own |
| SendHistory.ReturnCompletes | src/communication/net/tcp_server.c:459-461 | the return makes what the thread has under way one whole send |
| SendHistory.OnwardStep | src/communication/net/tcp_server.c:434-463 | no step but its own return ends a thread's send or adds to it anything but its next event |
| SendHistory.WritesCompleteInOrder | src/communication/net/tcp_server.c:22-40 | in every run, disciplined or not, the writes on a connection complete in the order in which they were made, and those not completed are still queued |
| SendPath.Server.Do | src/communication/net/tcp_server.c:434-463 | every statement of every thread, on connection objects, takes the machine's step and stays within the disciplined runs |
| SendPath.Server.SendToAll | src/communication/net/tcp_server.c:412-425 | following the next pointers of the session list makes one loop-thread send on each connection, in ring order |
| SendPath.BroadcastEffect | src/communication/net/tcp_server.c:412-425 | such a broadcast queues exactly one write on each listed connection with memory for it, none elsewhere, and never posts |
| SendPath.BroadcastInOrder | src/communication/net/tcp_server.c:419-424 | and the writes are made in the order of the list |
| UdpCapture.FaithfulExactlyWithoutRace | src/communication/net/udp.c:263-279 | every datagram of every run, loop-thread sends included, carries the address its payload's owner asked for if and only if at most one other thread uses `udp_send_data_ip` |
| UdpCapture.NoRaceIsFaithful | src/communication/net/udp.c:224-254 | caller-private addresses, those of a single user of the cell, and all of the loop thread's are always captured rightly |
| UdpCapture.RaceMisdirects | src/communication/net/udp.c:263-279 | for any two threads that use `udp_send_data_ip`, equal addresses included, a datagram to a cleared address is reachable |
| UdpCapture.DatagramsAreTheWrites | src/communication/net/udp.c:100-119 | in every run the datagrams handed to the network carry exactly the buffers of the history's writes, in order |
| UdpCapture.SendHereGoesThere | src/communication/net/udp.c:231-239 | a send on the loop thread hands one datagram to the network, for the address asked for |
| SocketHistory.ServedMeansSent | src/communication/net/udp.c:100-119 | a call that has been served has handed its own datagram over, for what its caller asked for |
| UdpCapture.SocketRefinesHandshake | src/communication/net/udp.c:100-125 | forgetting addresses, every reachable socket state is a reachable state of the hand-over with one connection |
| UdpCapture.SocketSendsLinearize | src/communication/net/udp.c:39-57 | datagram sends are whole and return only after their own request has completed |
| UdpSocket.Socket.AsyncSendCb | src/communication/net/udp.c:100-125 | reading the destination through the published pointer is the address machine's capture step, whoever wrote that cell last |
| UdpSocket.Socket.OnSendCb | src/communication/net/udp.c:39-57 | is its completion step |
| UdpSocket.Socket.ClearCell | src/communication/net/udp.c:270-277 | clearing the shared cell clears what every pointer to it reads and nothing else: the address machine's first step |
| UdpSocket.Socket.FillCell | src/communication/net/udp.c:270-278 | filling it in changes what all of them read; with the pointer passed on it is the machine's second step |
| UdpSocket.Socket.SendIpOnLoop | src/communication/net/udp.c:231-239 | the same on the loop thread is the machine's whole send, to the address just written |
| UdpSocket.Socket.Send | src/communication/net/udp.c:224-279 | one call of either function on another thread, whatever the others do between any two of its statements, the two halves of the cell write included: it returns with exactly one whole send of its own payload added and, unless allocation failed, a datagram of its own handed to the network meanwhile, meant for the address asked for, and sent there if the pointer is its own or nobody else uses the cell; otherwise it is left asleep with part of one send added |
| UdpSocket.Socket.Do | src/communication/net/udp.c:224-279 | every statement of every thread, on pointers and cells, takes the address machine's step |
| Queue.Add | src/utils/queue.h:52-59 | appends one ring to another by the same four assignments whichever of them is empty |
| Queue.Split | src/utils/queue.h:61-70 | cuts a ring before a member into the part before and the part from it on |
| Queue.Move | src/utils/queue.h:72-81 | hands over the whole contents and leaves the source empty |
| Queue.InsertHead | src/utils/queue.h:83-90 | puts a node first |
| Queue.InsertTail | src/utils/queue.h:92-99 | puts a node last |
| Queue.Remove | src/utils/queue.h:101-106 | takes out one member, keeping the order of the others |
| Queue.Reset | src/utils/queue.h:45-50 | makes a node an empty ring |
| Queue.EmptyTest | src/utils/queue.h:39-40 | the one-pointer test is true exactly of empty rings |
| Queue.Foreach | src/utils/queue.h:36-37 | the traversal ends and visits every member once, in order |
| Queue.ContentsUnique | src/utils/queue.h:21-27 | a ring has only one sequence of contents |
| Queue.SplitThenAdd | src/utils/queue.h:52-70 | adding back what a split cut off restores the ring |
| Queue.InsertHeadThenRemove | src/utils/queue.h:83-106 | removing what was put at the head restores the ring |
| Queue.InsertTailThenRemove | src/utils/queue.h:92-106 | removing what was put at the tail restores the ring |
| Queue.MoveThereAndBack | src/utils/queue.h:72-81 | moving away and back restores the ring and leaves the other empty |
| ClosingSends.CloseIsSafeExactlyWhenUnused | src/communication/net/tcp_server.c:190-207 | a loop-thread close, from every state that disciplined sends reach, is followed in every run by no use of the destroyed mutex, semaphore or event (or freed UDP socket) and no caller asleep for good if and only if no other thread is in a send, and no request is outstanding on a UDP socket |
| ClosingSends.HolderGoesBad | src/communication/net/udp.c:67-87 | whatever point the thread that holds the mutex has reached, such a close has a run that goes wrong |
| Registry.RegistryAgrees | src/communication/net/tcp_server.c:131-151 | over every run the counter is the ring's length, the ring lists exactly the accepted and unfreed connections, in order of acceptance, and each is closed and freed at most once |
| Registry.AcceptOpens | src/communication/net/tcp_server.c:105-167 | an accepted connection is open, last on the list and counted; a client whose accept failed is being closed; nothing else changes |
| Registry.ReadErrorCloses | src/communication/net/tcp_server.c:86-93 | in every reachable state a read error leaves its session closing by its one `uv_close`, and everything else as it was |
| Registry.CloseCbFrees | src/communication/net/tcp_server.c:42-69 | a close callback frees its connection once, takes it and no other off the list, and frees the server exactly if it was the last of a closed one |
| Registry.ServerFreedOnce | src/communication/net/tcp_server.c:42-69 | the server has been freed, once, exactly when it was closed and all its sessions were freed; nothing has read it since and nothing enabled would |
| Registry.CallbacksFindWhatTheyNeed | src/communication/net/tcp_server.c:42-94 | whatever callback can run finds the server and its own list entry still there |
| Registry.CloseSweeps | src/communication/net/tcp_server.c:190-223 | closing leaves the ring as it is and every session with exactly one `uv_close` over its life |
| Registry.RequestedCloseSweeps | src/communication/net/tcp_server.c:225-233 | so does a close asked for on another thread when the loop serves it, whatever sessions have come and gone since |
| Registry.SweepEffect | src/communication/net/tcp_server.c:216-222 | the sweep closes exactly the listed sessions that were open |
| Registry.LoopDrains | src/communication/net/tcp_server.c:199-222 | after a loop-thread close, whatever reads, errors and write callbacks come between, each close callback leaves one handle fewer, and when none is left every handle is closed and every session and the server have been freed exactly once |
| Registry.CloseCbDescends | src/communication/net/tcp_server.c:96-103 | each close callback leaves one handle fewer unclosed |
| Registry.FreeingRemoves | src/communication/net/tcp_server.c:50-51 | freeing a connection takes exactly its entry off the list of live ones, keeping the order |
| Registry.CloseIsSoundExactlyOnLoop | src/communication/net/tcp_server.c:371-387 | from every reachable state, with no send in progress on another thread, closing the server leads to no double free and no read of the freed server in any run if and only if it is called on the loop thread |
| Registry.ForeignCloseFreesTwice | src/communication/net/tcp_server.c:64-68 | after a close asked for on another thread, whatever the list holds, a run exists in which the last session frees the server before the loop does |
| TcpServer.Server.OnNewConnection | src/communication/net/tcp_server.c:105-167 | on list nodes, in all its branches, is the registry's accept step: one open session listed last and counted, one stray being closed, or nothing |
| TcpServer.Server.ConnClose | src/communication/net/tcp_server.c:176-188 | leaves the session closing, by exactly one `uv_close` in its life, however often it is called, and no other session changed |
| TcpServer.Server.OnReadError | src/communication/net/tcp_server.c:86-93 | leaves that session closing by its one `uv_close` and no other changed, which is the registry's read-error step |
| TcpServer.Server.CloseAll | src/communication/net/tcp_server.c:216-222 | following the next pointers sweeps the sessions of the ring, in order |
| TcpServer.Server.CloseHandle | src/communication/net/tcp_server.c:190-223 | closes listener, events and sessions, and frees the server exactly if it has no session |
| TcpServer.Server.Close | src/communication/net/tcp_server.c:371-382 | leaves every handle of the server's closing or closed, each session by one `uv_close`, and the server freed exactly if it has no session: the registry's loop-thread close |
| TcpServer.Server.OnCloseConnection | src/communication/net/tcp_server.c:42-69 | unlinks the connection's node, frees the connection once and no other, and the server with the last of a closed one: the registry's close callback |
| TcpServer.Run | src/communication/net/tcp_server.c:270-362 | a failed allocation leaves nothing behind; a failed bind or listen frees the server once and leaves its three handles closing |
| TcpClient.CloseIsSoundExactlyWhen | src/communication/net/tcp_client.c:327-342 | from every reachable state, with no send in progress on another thread, closing a client leads to no double free and no read of freed memory in any run if and only if: on the loop thread, the session is not in the middle of the close a read error began; on another thread, that close is over, or connecting has failed |
| TcpClient.ClosedClientIsReleased | src/communication/net/tcp_client.c:75-98 | after a sound close, from either thread, the loop has something to do until all five blocks have been freed exactly once; once it has taken effect only callbacks are left, each one fewer |
| TcpClient.BadCloseGoesWild | src/communication/net/tcp_client.c:140-148 | after any other close on the loop thread freed memory is read in some run |
| TcpClient.BadRequestGoesWild | src/communication/net/tcp_client.c:338-341 | and after any other request of another thread |
| TcpClient.ConnectStartsReading | src/communication/net/tcp_client.c:49-73 | the end of connecting starts reading exactly if it was successful, and changes nothing else |
| TcpClient.RefusedCanBeClosed | src/communication/net/tcp_client.c:52-61 | after a refused connection the client can safely be closed from any thread |
| TcpClient.ReadErrorKills | src/communication/net/tcp_client.c:34-46 | a read error puts the session into a close of which the client will not hear, and stops reading |
| TcpClient.WritesAreCounted | src/communication/net/tcp_client.c:163-183 | a send queues one write and a completion takes one off, nothing else changing |
| TcpClient.CloseTakesEffect | src/communication/net/tcp_client.c:125-150 | a close that takes effect stops reading, closes both events and either closes the session with the freeing callback or frees three blocks at once; one asked for on another thread only raises its event |
| ClientObject.OnConnect | src/communication/net/tcp_client.c:49-73 | finds the client through the request, starts reading exactly on success, after making the handle lead to the client, and takes the client machine's connect step |
| ClientObject.OnRead | src/communication/net/tcp_client.c:20-47 | finds the client through the handle; an error closes the session with no callback, which is the machine's read-error step |
| ClientObject.OnClientWrite | src/communication/net/tcp_client.c:100-116 | finds the client through the oldest request, which it frees once |
| ClientObject.Client.CloseHandle | src/communication/net/tcp_client.c:125-150 | on the blocks, closes the events, leaves the session with a callback that leads back to the client or frees the three blocks, and takes the machine's close step |
| ClientObject.AsyncCloseCb | src/communication/net/tcp_client.c:152-161 | finds the client through the event, and takes the machine's step for a close asked for on another thread |
| ClientObject.SessionClosed | src/communication/net/tcp_client.c:94-98 | reads the session a last time; if the close was the client's own, finds the client through the handle and frees it: the machine's end of a session |
| ClientObject.Run | src/communication/net/tcp_client.c:198-251 | succeeds exactly if all five allocations do, with a client in the machine's initial state; otherwise leaves none of them behind |
| MsgQueueRuns.DeliveredInOrder | src/utils/msg_queue.c:117-147 | for any number of senders and any message types, what was sent is what was delivered, then what is on its way, then what the removal dropped, with contents as they were when sent |
| MsgQueueHistory.DeliversWhatWasAsked | src/utils/msg_queue.c:117-147 | in every run the callback has got the first of the data that the calls let into the queue were given, whole and in that order, and all of it when nothing is queued or in the worker's hands; types are kept if positive |
| MsgQueueRuns.NoDoubleFree | src/utils/msg_queue.c:22-57 | no block is freed twice, and none that a sender, the queue or the worker refers to has been freed |
| MsgQueueRuns.NothingLeaksButTheDropped | src/utils/msg_queue.c:117-147 | allocations are frees, sends under way, messages queued, the block the worker holds and those dropped |
| MsgQueueRuns.WorkerStops | src/utils/msg_queue.c:106-110 | once the flag is down the worker takes at most five more steps and delivers at most one more message, whatever else happens |
| MsgQueueRuns.RemovalWakesWorker | src/utils/msg_queue.c:22-38 | after the removal the worker always has a step to take until it has gone |
| MsgQueue.StepKeepsInv | src/utils/msg_queue.c:10-62 | every step of senders, worker, other processes and the destroying thread keeps ownership and order |
| Mailbox.MsgQueue.MsgSend | src/utils/msg_queue.c:117-147 | queues a pointer to a fresh copy with a positive type; sleeps on a full queue, unless a signal ends that; frees its copy when a signal does or the queue has gone: the machine's send, and its end unless it sleeps |
| Mailbox.MsgQueue.Deliver | src/utils/msg_queue.c:138-144 | `msgsnd` as the machine's step from any state, so also when a sleeping one wakes; what it frees was allocated and is referred to by nobody else |
| Mailbox.MsgQueue.GiveUp | src/utils/msg_queue.c:138-144 | a `msgsnd` ended by a signal: the block freed is allocated and nobody else refers to it |
| Mailbox.MsgQueue.Msgrcv | src/utils/msg_queue.c:24-35 | takes the first message, leaves one that is too long unless truncation is allowed, sleeps on an empty queue, or reports the removal: the worker's step in each case |
| Mailbox.MsgQueue.MsgThread | src/utils/msg_queue.c:10-62 | whatever senders, signals, other processes and the destroying thread do at each point, memory stays that of a reachable state, and it stops only ended with the flag down, or asleep with the contents of every sent message handed over |
| Mailbox.MsgQueue.Release | src/utils/msg_queue.c:52-55 | the block freed after the callback is allocated until then and gone afterwards |
| ComponentObject.Component.OnData | src/components/component.c:49-59 | on queue, socket and address cell, latches the first sender and no other, and with room queues a pointer to a fresh copy of the whole datagram: the composed machine's datagram and queueing steps; removed queues included |
| ComponentObject.Component.Take | src/components/component.c:53-57 | its first half latches and copies the whole datagram into a fresh block: the machine's datagram step, from any state in which the loop thread is free |
| ComponentObject.Component.PassOn | src/components/component.c:58 | its second half is the machine's queueing step, from any state it can be in by then |
| ComponentObject.Component.OnMsg | src/components/component.c:61-69 | started on a pointer, enters a send of as many bytes as that block has, with a pointer to the latched address, if there is one: the composed machine's callback step |
| PipelineRuns.AnswersInOrder | src/components/component.c:49-69 | the worker asks for one answer to each delivered message, in order and of the same length; the address is latched before the first and never changes |
| PipelineHistory.AnswersFollowDatagrams | src/components/component.c:49-69 | in every run one answer has been asked for to each of the first so many accepted datagrams, in order and of the datagram's own length, and to every one of them once the running component rests; the peer is the first datagram's sender |
| PipelineHistory.DatagramIsCopied | src/components/component.c:58 | in every reachable state a datagram's data is copied whole into the message being queued |
| PipelineRuns.LiveExactlyWhenUnbounded | src/components/component.c:49-69 | the component can come to rest with work undone in some run if and only if the kernel queue has a limit |
| PipelineRuns.UnboundedComesToRest | src/components/component.c:49-69 | with an unlimited queue every schedule without new datagrams is bounded and ends with every message delivered |
| PipelineRuns.BurstJams | src/utils/msg_queue.c:138 | for every positive capacity a burst reaches the state where the loop thread is blocked on the full queue and the worker asleep until the loop serves it |
| PipelineRuns.CircularWaitIsStalled | src/communication/net/udp.c:242-252 | in that state neither thread has a step |
| PipelineRuns.ShutdownCanBegin | src/components/component.c:32-37 | from every reachable state the flag can be cleared and the queue removed |
| PipelineRuns.ShutdownCompletes | src/utils/msg_queue.c:106-110 | after that, whatever the capacity, whoever was blocked and however many datagrams keep arriving, the steps of service are bounded independently of them, each costs two more, and all comes to rest only with the join possible |
| PipelineRuns.LateDatagramsDelayNothing | src/utils/msg_queue.c:138-144 | datagrams arriving after the removal leave the work still to be done unchanged |
| PipelineRuns.NoSendInFlightAtClose | src/communication/net/udp.c:74-75 | from the join on, through the close request and until mutex and semaphore are destroyed, the worker has gone and no send is in flight |
| Pipeline.StepKeepsInv | src/components/component.c:49-69 | every step of the composed system keeps both protocols' invariants and the links between them |
| TearDown.Loop.Walk | src/utils/uv_wrapper.c:9-19 | closes what is not closing yet and leaves the others their own callback |
| TearDown.Loop.Run | src/utils/uv_wrapper.c:33 | finishes every closing handle, calling back each exactly once; what stays registered is what owners' callbacks have left, in order; returns exactly if all of that is idle |
| TearDown.Loop.UvTearDown | src/utils/uv_wrapper.c:21-48 | every handle has been called back exactly once, and freed exactly if its owner had begun to close it; it succeeds exactly if no such owner's callback leaves a handle, and does not return exactly if one leaves an active one |

## Left out

- SendPath.Server.SendToAll: is the call on the loop thread; on another thread the source walks the list without a lock.
- ClientObject.OnClientWrite: leaves out the semaphore post of a flagged connection, which is the completion step of `Handshake`.
- Sends begun after a close has taken effect; those in progress at the close are in `ClosingSends`.
- Addresses that are not well formed, for which `udp_send_data_ip` leaves the cell cleared and sends all the same.
- Loop-thread sends on a UDP socket that overlap another thread's, in `UdpCapture`: `MixedMode` shows what they break.
- The bytes of the component's answers: `src/components/component.c:67` sends the address of its own parameter; length, order, count and destination are modelled.
- Signals interrupting `msgrcv` or `msgsnd`, and messages of other processes, in the composed component; `MsgQueue` has both.
- Datagrams that arrive once `component_uninit` has freed the message queue.
- `msg_queue_create`: the retries of `msgget` when the key is taken.
- A message queue without a callback: the component always gives one.
- Calls with null arguments to the send functions, which return at once.
- Closing one object twice, and callbacks that close their own server.
- User callbacks, logging and hex dumps, which only observe.
- Address parsing and printing, socket options, multicast and broadcast switches, and the serial port, which are thin wrappers.
- libuv, POSIX threads and the kernel, beyond what is listed above.
