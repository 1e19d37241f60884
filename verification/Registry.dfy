/**
 The life of a TCP server: its sessions, their deferred closing, and who frees the server.

 Connections are numbered in the order they were accepted. `uv_close` only marks a handle as closing; its
 callback runs once, in a later phase of the loop. The server is freed either by the call that closes it, when
 it has no session, or by the close callback of its last session.
 */
module Registry {
  import opened Machines

  datatype Life = Open | Closing | Closed

  /** `closes` counts calls of `uv_close` on the session, `frees` how often the connection was freed. */
  datatype Session = Session(life: Life, closes: nat, frees: nat)

  datatype Handle = Listener | AsyncSend | AsyncClose | Of(c: nat) | Stray(k: nat)

  /** `strays` are clients whose accept failed; `wild` is set once a callback has read the freed server. */
  datatype Server = Server(
    sessions: seq<Session>,
    strays: seq<Life>,
    listener: Life,
    asyncSend: Life,
    asyncClose: Life,
    ring: seq<nat>,
    count: int,
    isClosing: bool,
    closeBegun: bool,
    requested: bool,
    frees: nat,
    wild: bool)

  /** `Traffic` is any read, write or buffer callback of a session. */
  datatype Action =
    | AcceptNothing
    | Accept(ok: bool)
    | Traffic(c: nat)
    | ReadError(c: nat)
    | CloseHere
    | CloseElsewhere
    | AsyncCloseCb
    | CloseCb(h: Handle)

  function LifeOf(s: Server, h: Handle): Life {
    match h
    case Listener => s.listener
    case AsyncSend => s.asyncSend
    case AsyncClose => s.asyncClose
    case Of(c) => if c < |s.sessions| then s.sessions[c].life else Closed
    case Stray(k) => if k < |s.strays| then s.strays[k] else Closed
  }

  predicate Enabled(s: Server, a: Action) {
    match a
    case AcceptNothing => s.listener == Open
    case Accept(ok) => s.listener == Open
    case Traffic(c) => c < |s.sessions| && s.sessions[c].life != Closed
    case ReadError(c) => c < |s.sessions| && s.sessions[c].life != Closed
    case CloseHere => !s.closeBegun && !s.requested
    case CloseElsewhere => !s.closeBegun && !s.requested
    case AsyncCloseCb => s.requested && s.asyncClose == Open
    case CloseCb(h) => LifeOf(s, h) == Closing
  }

  /** `tcp_server_conn_close`: a second request does nothing. */
  function CloseSession(x: Session): Session {
    if x.life == Open then Session(Closing, x.closes + 1, x.frees) else x
  }

  function Sweep(sessions: seq<Session>, ring: seq<nat>): seq<Session> {
    if ring == [] then sessions
    else
      var rest := Sweep(sessions, ring[..|ring| - 1]);
      var c := ring[|ring| - 1];
      if c < |rest| then rest[c := CloseSession(rest[c])] else rest
  }

  function Without(ring: seq<nat>, c: nat): seq<nat> {
    if ring == [] then []
    else if ring[|ring| - 1] == c then Without(ring[..|ring| - 1], c)
    else Without(ring[..|ring| - 1], c) + [ring[|ring| - 1]]
  }

  /** A callback that dereferences the server. */
  function Touch(s: Server): Server {
    s.(wild := s.wild || s.frees > 0)
  }

  function CloseHandles(s: Server): Server {
    var s' := s.(listener := if s.listener == Open then Closing else s.listener,
                 asyncSend := Closing, asyncClose := Closing, closeBegun := true);
    if s.ring == [] then s'.(frees := s.frees + 1) else s'.(sessions := Sweep(s.sessions, s.ring))
  }

  function Next(s: Server, a: Action): Server {
    match a
    case AcceptNothing => Touch(s)
    case Traffic(c) => Touch(s)
    case Accept(true) =>
      Touch(s).(sessions := s.sessions + [Session(Open, 0, 0)], ring := s.ring + [|s.sessions|], count := s.count + 1)
    case Accept(false) => Touch(s).(strays := s.strays + [Closing])
    case ReadError(c) =>
      if c < |s.sessions| then Touch(s).(sessions := s.sessions[c := CloseSession(s.sessions[c])]) else s
    case CloseHere => CloseHandles(Touch(s).(isClosing := true))
    case CloseElsewhere => Touch(s).(isClosing := true, requested := true)
    case AsyncCloseCb => CloseHandles(Touch(s).(requested := false))
    case CloseCb(Listener) => s.(listener := Closed)
    case CloseCb(AsyncSend) => s.(asyncSend := Closed)
    case CloseCb(AsyncClose) => s.(asyncClose := Closed)
    case CloseCb(Stray(k)) => if k < |s.strays| then s.(strays := s.strays[k := Closed]) else s
    case CloseCb(Of(c)) =>
      if c < |s.sessions| then
        var x := s.sessions[c];
        var ring := Without(s.ring, c);
        Touch(s).(sessions := s.sessions[c := Session(Closed, x.closes, x.frees + 1)],
                  ring := ring,
                  count := s.count - 1,
                  frees := if s.isClosing && ring == [] then s.frees + 1 else s.frees)
      else s
  }

  const FRESH := Server([], [], Open, Open, Open, [], 0, false, false, false, 0, false)

  /** The server is closed, if at all, once and on the loop thread. */
  const LOOP_CLOSED: Machine<Server, Action> :=
    Machine(FRESH, (s, a) => Enabled(s, a) && !a.CloseElsewhere?, Next)

  /** Every run from `s`, the server being closed from any thread. */
  function From(s: Server): Machine<Server, Action> {
    Machine(s, Enabled, Next)
  }

  // ------------------------------------------------------------------ the invariant

  /** The connections not yet freed, in the order they were accepted. */
  function LiveIds(sessions: seq<Session>): seq<nat> {
    if sessions == [] then []
    else
      var rest := LiveIds(sessions[..|sessions| - 1]);
      if sessions[|sessions| - 1].life == Closed then rest else rest + [|sessions| - 1]
  }

  predicate SessionFits(x: Session) {
    x.closes == (if x.life == Open then 0 else 1) && x.frees == (if x.life == Closed then 1 else 0)
  }

  predicate AllFit(sessions: seq<Session>) {
    forall c | 0 <= c < |sessions| :: SessionFits(sessions[c])
  }

  predicate Inv(s: Server) {
    && s.ring == LiveIds(s.sessions)
    && s.count == |s.ring|
    && AllFit(s.sessions)
    && (forall k | 0 <= k < |s.strays| :: s.strays[k] != Open)
    && s.isClosing == s.closeBegun && !s.requested
    && s.frees == (if s.closeBegun && s.ring == [] then 1 else 0)
    && (s.closeBegun <==> s.listener != Open) && (s.closeBegun <==> s.asyncSend != Open)
    && (s.closeBegun <==> s.asyncClose != Open)
    && (s.closeBegun ==> forall c | 0 <= c < |s.sessions| :: s.sessions[c].life != Open)
    && !s.wild
  }

  lemma {:induction false} LiveMembers(sessions: seq<Session>, c: nat)
    ensures c in LiveIds(sessions) <==> c < |sessions| && sessions[c].life != Closed
    ensures |LiveIds(sessions)| <= |sessions|
  {
    if sessions == [] {
    } else {
      var rest, n := LiveIds(sessions[..|sessions| - 1]), |sessions| - 1;
      LiveMembers(sessions[..n], c);
      assert c in rest + [n] <==> c in rest || c == n;
      assert c < n ==> sessions[..n][c] == sessions[c];
    }
  }

  lemma LiveMembersAll(sessions: seq<Session>)
    ensures forall c: nat :: c in LiveIds(sessions) <==> c < |sessions| && sessions[c].life != Closed
    ensures LiveIds(sessions) == [] <==> forall c | 0 <= c < |sessions| :: sessions[c].life == Closed
  {
    forall c: nat ensures c in LiveIds(sessions) <==> c < |sessions| && sessions[c].life != Closed {
      LiveMembers(sessions, c);
    }
    if LiveIds(sessions) != [] {
      assert LiveIds(sessions)[0] in LiveIds(sessions);
    }
  }

  lemma {:induction false} LiveIsIncreasing(sessions: seq<Session>)
    ensures forall i, j | 0 <= i < j < |LiveIds(sessions)| :: LiveIds(sessions)[i] < LiveIds(sessions)[j]
  {
    if sessions == [] {
    } else {
      var rest := LiveIds(sessions[..|sessions| - 1]);
      LiveIsIncreasing(sessions[..|sessions| - 1]);
      forall i | 0 <= i < |rest| ensures rest[i] < |sessions| - 1 {
        LiveMembers(sessions[..|sessions| - 1], rest[i]);
      }
    }
  }

  lemma {:induction false} SameLifeSameLive(xs: seq<Session>, ys: seq<Session>)
    requires |xs| == |ys| && forall c | 0 <= c < |xs| :: xs[c].life == Closed <==> ys[c].life == Closed
    ensures LiveIds(xs) == LiveIds(ys)
  {
    if xs == [] {
    } else {
      SameLifeSameLive(xs[..|xs| - 1], ys[..|ys| - 1]);
    }
  }

  lemma {:induction false} FreeingRemoves(xs: seq<Session>, c: nat, x: Session)
    requires c < |xs| && xs[c].life != Closed && x.life == Closed
    ensures LiveIds(xs[c := x]) == Without(LiveIds(xs), c)
    ensures |LiveIds(xs[c := x])| == |LiveIds(xs)| - 1
  {
    var n := |xs| - 1;
    var ys := xs[c := x];
    if c == n {
      assert ys[..n] == xs[..n];
      assert LiveIds(xs)[..|LiveIds(xs)| - 1] == LiveIds(xs[..n]);
      LiveMembers(xs[..n], n);
      WithoutAbsent(LiveIds(xs[..n]), n);
    } else {
      assert ys[..n] == xs[..n][c := x];
      FreeingRemoves(xs[..n], c, x);
      if xs[n].life != Closed {
        assert LiveIds(xs)[..|LiveIds(xs)| - 1] == LiveIds(xs[..n]);
      }
    }
  }

  lemma {:induction false} WithoutAbsent(ring: seq<nat>, c: nat)
    requires c !in ring
    ensures Without(ring, c) == ring
  {
    if ring == [] {
    } else {
      WithoutAbsent(ring[..|ring| - 1], c);
    }
  }

  /** The sweep closes each listed session that was open, by one `uv_close`, and touches no other. */
  lemma {:induction false} SweepEffect(sessions: seq<Session>, ring: seq<nat>)
    requires forall c | c in ring :: c < |sessions|
    ensures |Sweep(sessions, ring)| == |sessions|
    ensures forall c | 0 <= c < |sessions| ::
              Sweep(sessions, ring)[c] == if c in ring then CloseSession(sessions[c]) else sessions[c]
  {
    if ring == [] {
    } else {
      var rest := ring[..|ring| - 1];
      assert forall c | c in rest :: c in ring;
      SweepEffect(sessions, rest);
      assert forall c :: c in ring <==> c in rest || c == ring[|ring| - 1];
    }
  }

  lemma AcceptKeepsInv(s: Server, ok: bool)
    requires Inv(s) && Enabled(s, Accept(ok))
    ensures Inv(Next(s, Accept(ok)))
  {
    var more := s.sessions + [Session(Open, 0, 0)];
    assert more[..|s.sessions|] == s.sessions;
  }

  lemma ReadErrorKeepsInv(s: Server, c: nat)
    requires Inv(s) && Enabled(s, ReadError(c))
    ensures Inv(Next(s, ReadError(c)))
  {
    LiveMembersAll(s.sessions);
    SameLifeSameLive(s.sessions, s.sessions[c := CloseSession(s.sessions[c])]);
  }

  lemma FitUpdated(xs: seq<Session>, c: nat, x: Session)
    requires AllFit(xs) && c < |xs| && SessionFits(x)
    ensures AllFit(xs[c := x])
  {
  }

  lemma AcceptStaysFit(s: Server, ok: bool)
    requires AllFit(s.sessions)
    ensures AllFit(Next(s, Accept(ok)).sessions)
  {
  }

  lemma ReadErrorStaysFit(s: Server, c: nat)
    requires AllFit(s.sessions) && c < |s.sessions|
    ensures AllFit(Next(s, ReadError(c)).sessions)
  {
    FitUpdated(s.sessions, c, CloseSession(s.sessions[c]));
  }

  lemma CloseCbStaysFit(s: Server, h: Handle)
    requires AllFit(s.sessions) && Enabled(s, CloseCb(h))
    ensures AllFit(Next(s, CloseCb(h)).sessions)
  {
    if h.Of? {
      FitUpdated(s.sessions, h.c, Session(Closed, s.sessions[h.c].closes, s.sessions[h.c].frees + 1));
    }
  }

  /** After a sweep of the listed sessions none is open, and each has had its one `uv_close`. */
  lemma SweptFit(xs: seq<Session>)
    requires AllFit(xs)
    ensures var swept := Sweep(xs, LiveIds(xs));
            |swept| == |xs| && AllFit(swept) && forall c | 0 <= c < |xs| :: swept[c].life != Open
    ensures LiveIds(xs) == [] ==> forall c | 0 <= c < |xs| :: xs[c].life == Closed
  {
    LiveMembersAll(xs);
    SweepEffect(xs, LiveIds(xs));
  }

  lemma CloseKeepsInv(s: Server)
    requires Inv(s) && Enabled(s, CloseHere)
    ensures Inv(Next(s, CloseHere))
  {
    var swept := Sweep(s.sessions, s.ring);
    SweptFit(s.sessions);
    LiveMembersAll(s.sessions);
    SweepEffect(s.sessions, s.ring);
    SameLifeSameLive(s.sessions, swept);
  }

  lemma RingShrinks(s: Server, c: nat)
    requires s.ring == LiveIds(s.sessions) && Enabled(s, CloseCb(Of(c)))
    ensures var z := Next(s, CloseCb(Of(c)));
            z.ring == LiveIds(z.sessions) && |z.ring| == |s.ring| - 1 && c in s.ring
  {
    LiveMembers(s.sessions, c);
    FreeingRemoves(s.sessions, c, Session(Closed, s.sessions[c].closes, s.sessions[c].frees + 1));
  }

  lemma CloseCbKeepsInv(s: Server, c: nat)
    requires Inv(s) && Enabled(s, CloseCb(Of(c)))
    ensures Inv(Next(s, CloseCb(Of(c))))
  {
    RingShrinks(s, c);
    CloseCbStaysFit(s, Of(c));
    var z := Next(s, CloseCb(Of(c)));
    assert forall i | 0 <= i < |s.sessions| && i != c :: z.sessions[i] == s.sessions[i];
    assert s.ring != [] && z.count == s.count - 1;
  }

  lemma StepKeepsInv(s: Server, a: Action)
    requires Inv(s) && LOOP_CLOSED.guard(s, a)
    ensures Inv(Next(s, a))
  {
    match a
    case Accept(ok) => AcceptKeepsInv(s, ok);
    case Traffic(c) => LiveMembersAll(s.sessions);
    case ReadError(c) => ReadErrorKeepsInv(s, c);
    case CloseHere => CloseKeepsInv(s);
    case CloseCb(Of(c)) => CloseCbKeepsInv(s, c);
    case _ =>
  }

  // ------------------------------------------------------------------ over every run

  lemma EveryRunKeepsInv()
    ensures forall s :: Reachable(LOOP_CLOSED, s) ==> Inv(s)
  {
    forall s, a | Inv(s) && LOOP_CLOSED.guard(s, a) ensures Inv(LOOP_CLOSED.next(s, a)) {
      StepKeepsInv(s, a);
    }
    Invariance(LOOP_CLOSED, Inv);
  }

  /** Counter, ring and live connections agree: the ring lists the connections accepted and not yet freed, in
      order of acceptance; each was closed at most once and freed at most once, however often closing was asked. */
  lemma RegistryAgrees(s: Server, c: nat)
    requires Reachable(LOOP_CLOSED, s)
    ensures s.count == |s.ring| && forall i, j | 0 <= i < j < |s.ring| :: s.ring[i] < s.ring[j]
    ensures c in s.ring <==> c < |s.sessions| && s.sessions[c].frees == 0
    ensures c < |s.sessions| ==> s.sessions[c].closes <= 1 && s.sessions[c].frees <= s.sessions[c].closes
  {
    EveryRunKeepsInv();
    LiveMembersAll(s.sessions);
    LiveIsIncreasing(s.sessions);
  }

  // What each callback does, in every reachable state.

  /** An accepted connection is open, comes last on the list, and is counted; one that failed is being closed. */
  lemma AcceptOpens(s: Server, ok: bool)
    requires Reachable(LOOP_CLOSED, s) && Enabled(s, Accept(ok))
    ensures var z := Next(s, Accept(ok));
            if ok then
              && |z.sessions| == |s.sessions| + 1 && z.sessions[..|s.sessions|] == s.sessions
              && z.sessions[|s.sessions|].life == Open && z.ring == s.ring + [|s.sessions|] && z.count == s.count + 1
              && z == s.(sessions := z.sessions, ring := z.ring, count := z.count)
            else
              z.strays == s.strays + [Closing] && z == s.(strays := z.strays)
  {
    EveryRunKeepsInv();
  }

  /** Reading, writing and refusing a connection change nothing, and asking for a close only sets its flags. */
  lemma TrafficAndRequestsOnlyTouch(s: Server, c: nat)
    requires Reachable(LOOP_CLOSED, s)
    requires Enabled(s, Traffic(c)) || Enabled(s, AcceptNothing) || Enabled(s, CloseElsewhere)
    ensures Enabled(s, Traffic(c)) ==> Next(s, Traffic(c)) == s
    ensures Enabled(s, AcceptNothing) ==> Next(s, AcceptNothing) == s
    ensures Enabled(s, CloseElsewhere) ==> Next(s, CloseElsewhere) == s.(isClosing := true, requested := true)
  {
    EveryRunKeepsInv();
    LiveMembersAll(s.sessions);
  }

  /** A read error leaves its session closing, by its one `uv_close`, and everything else as it was. */
  lemma ReadErrorCloses(s: Server, c: nat)
    requires Reachable(LOOP_CLOSED, s) && Enabled(s, ReadError(c))
    ensures var z := Next(s, ReadError(c));
            && |z.sessions| == |s.sessions| && z.sessions[c].life == Closing && z.sessions[c].closes == 1
            && (forall i | 0 <= i < |s.sessions| && i != c :: z.sessions[i] == s.sessions[i])
            && z == s.(sessions := z.sessions)
  {
    EveryRunKeepsInv();
    LiveMembersAll(s.sessions);
  }

  lemma OthersStayListed(s: Server, c: nat, i: nat)
    requires s.ring == LiveIds(s.sessions) && Enabled(s, CloseCb(Of(c)))
    ensures i in Next(s, CloseCb(Of(c))).ring <==> i in s.ring && i != c
  {
    RingShrinks(s, c);
    LiveMembers(s.sessions, i);
    LiveMembers(Next(s, CloseCb(Of(c))).sessions, i);
  }

  /** The close callback frees its connection and takes it off the list, and touches no other. */
  lemma CloseCbFrees(s: Server, c: nat, i: nat)
    requires Reachable(LOOP_CLOSED, s) && Enabled(s, CloseCb(Of(c)))
    ensures var z := Next(s, CloseCb(Of(c)));
            && |z.sessions| == |s.sessions| && z.sessions[c].life == Closed && z.sessions[c].frees == 1
            && (i < |s.sessions| && i != c ==> z.sessions[i] == s.sessions[i])
            && (i in z.ring <==> i in s.ring && i != c) && |z.ring| == |s.ring| - 1 && z.count == s.count - 1
            && z.frees == if s.closeBegun && z.ring == [] then 1 else 0
  {
    EveryRunKeepsInv();
    RingShrinks(s, c);
    OthersStayListed(s, c, i);
  }

  predicate Touches(s: Server, a: Action) {
    match a
    case CloseCb(h) => h.Of?
    case _ => true
  }

  /** The server is freed once, by whichever place finds the list empty, exactly when it has been closed and every
      session has been freed; no callback has read it afterwards, and none that could is left. */
  lemma ServerFreedOnce(s: Server, a: Action)
    requires Reachable(LOOP_CLOSED, s)
    ensures s.frees == if s.closeBegun && (forall c | 0 <= c < |s.sessions| :: s.sessions[c].frees == 1) then 1 else 0
    ensures !s.wild
    ensures s.frees == 1 && LOOP_CLOSED.guard(s, a) ==> !Touches(s, a)
  {
    EveryRunKeepsInv();
    LiveMembersAll(s.sessions);
  }

  /** What a callback dereferences is there when it runs: the server, the session, the session's list entry. */
  lemma CallbacksFindWhatTheyNeed(s: Server, a: Action)
    requires Reachable(LOOP_CLOSED, s) && LOOP_CLOSED.guard(s, a)
    ensures Touches(s, a) ==> s.frees == 0
    ensures a.Traffic? || a.ReadError? ==> a.c in s.ring
    ensures a.CloseCb? && a.h.Of? ==> a.h.c in s.ring
    ensures a.CloseHere? ==>
              forall k | 0 <= k < |s.ring| :: s.ring[k] < |s.sessions| && s.sessions[s.ring[k]].life != Closed
  {
    EveryRunKeepsInv();
    LiveMembersAll(s.sessions);
    assert forall k | 0 <= k < |s.ring| :: s.ring[k] in s.ring;
  }

  /** Closing sweeps every session: afterwards each has had exactly one `uv_close`, and the ring is as it was. */
  lemma CloseSweeps(s: Server, c: nat)
    requires Reachable(LOOP_CLOSED, s) && LOOP_CLOSED.guard(s, CloseHere)
    ensures var s' := Next(s, CloseHere);
            && s'.ring == s.ring && |s'.sessions| == |s.sessions|
            && (c < |s.sessions| ==> s'.sessions[c].life != Open && s'.sessions[c].closes == 1)
            && s'.listener != Open && s'.asyncSend == Closing && s'.asyncClose == Closing
  {
    EveryRunKeepsInv();
    CloseKeepsInv(s);
    LiveMembersAll(s.sessions);
    SweepEffect(s.sessions, s.ring);
  }

  // ------------------------------------------------------------------ draining the loop

  function Left(x: Life): nat {
    if x == Closed then 0 else 1
  }

  function SessionLeft(x: Session): nat {
    Left(x.life)
  }

  /** How many of the server's handles are not yet closed. */
  function Unclosed(s: Server): nat {
    Left(s.listener) + Left(s.asyncSend) + Left(s.asyncClose) + Sum(SessionLeft, s.sessions) + Sum(Left, s.strays)
  }

  predicate Finishes(a: Action) {
    a.CloseCb?
  }

  lemma CloseCbDescends(s: Server, h: Handle)
    requires Enabled(s, CloseCb(h))
    ensures Unclosed(Next(s, CloseCb(h))) == Unclosed(s) - 1
  {
    match h
    case Of(c) => SumUpdate(SessionLeft, s.sessions, c, Next(s, CloseCb(h)).sessions[c]);
    case Stray(k) => SumUpdate(Left, s.strays, k, Closed);
    case _ =>
  }

  lemma OthersLeaveUnclosed(s: Server, a: Action)
    requires Inv(s) && s.closeBegun && LOOP_CLOSED.guard(s, a) && !Finishes(a)
    ensures Unclosed(Next(s, a)) == Unclosed(s)
  {
    if a.ReadError? {
      assert s.sessions[a.c := CloseSession(s.sessions[a.c])] == s.sessions;
    }
  }

  predicate Begun(s: Server) {
    Inv(s) && s.closeBegun
  }

  lemma BegunKept(s: Server, a: Action)
    requires Begun(s) && Enabled(s, a)
    ensures Begun(Next(s, a))
  {
    StepKeepsInv(s, a);
  }

  lemma DrainStep(s: Server, a: Action)
    requires Begun(s) && LOOP_CLOSED.guard(s, a)
    ensures Unclosed(Next(s, a)) + (if Finishes(a) then 1 else 0) == Unclosed(s)
  {
    if Finishes(a) {
      CloseCbDescends(s, a.h);
    } else {
      OthersLeaveUnclosed(s, a);
    }
  }

  lemma {:induction false} DrainCounts(s: Server, acts: seq<Action>)
    requires Begun(s) && Schedule(LOOP_CLOSED, Any, s, acts)
    ensures Begun(After(LOOP_CLOSED, s, acts))
    ensures Count(Finishes, acts) + Unclosed(After(LOOP_CLOSED, s, acts)) == Unclosed(s)
  {
    if acts == [] {
    } else {
      var rest := acts[..|acts| - 1];
      DrainCounts(s, rest);
      BegunKept(After(LOOP_CLOSED, s, rest), acts[|acts| - 1]);
      DrainStep(After(LOOP_CLOSED, s, rest), acts[|acts| - 1]);
    }
  }

  predicate AllClosed(s: Server) {
    && s.listener == Closed && s.asyncSend == Closed && s.asyncClose == Closed
    && (forall c | 0 <= c < |s.sessions| :: s.sessions[c].life == Closed)
    && (forall k | 0 <= k < |s.strays| :: s.strays[k] == Closed)
  }

  lemma NoneLeftMeansClosed(s: Server)
    requires Inv(s) && s.closeBegun && Stalled(LOOP_CLOSED, Finishes, s)
    ensures AllClosed(s)
  {
    assert forall h :: Finishes(CloseCb(h)) && (LOOP_CLOSED.guard(s, CloseCb(h)) <==> Enabled(s, CloseCb(h)));
    forall c | 0 <= c < |s.sessions| ensures s.sessions[c].life == Closed {
      assert !Enabled(s, CloseCb(Of(c)));
    }
    forall k | 0 <= k < |s.strays| ensures s.strays[k] == Closed {
      assert !Enabled(s, CloseCb(Stray(k)));
    }
    assert !Enabled(s, CloseCb(Listener)) && !Enabled(s, CloseCb(AsyncSend)) && !Enabled(s, CloseCb(AsyncClose));
  }

  /** Once the server has been closed on the loop thread, each close callback leaves one handle fewer, whatever reads,
      errors and cancelled writes come between; and when no close callback is left every handle is closed, and every
      session and the server have been freed exactly once. */
  lemma LoopDrains(s: Server, acts: seq<Action>)
    requires Reachable(LOOP_CLOSED, s) && s.closeBegun && Schedule(LOOP_CLOSED, Any, s, acts)
    ensures var z := After(LOOP_CLOSED, s, acts);
            && Count(Finishes, acts) + Unclosed(z) == Unclosed(s)
            && (Stalled(LOOP_CLOSED, Finishes, z) ==>
                  && AllClosed(z) && z.frees == 1 && z.ring == [] && !z.wild
                  && forall c | 0 <= c < |z.sessions| :: z.sessions[c].frees == 1)
  {
    EveryRunKeepsInv();
    DrainCounts(s, acts);
    var z := After(LOOP_CLOSED, s, acts);
    if Stalled(LOOP_CLOSED, Finishes, z) {
      NoneLeftMeansClosed(z);
      LiveMembersAll(z.sessions);
    }
  }

  // ------------------------------------------------------------------ closing from this thread or another

  /** A close has been asked for on another thread, and the loop has not seen it. */
  predicate Overtaken(s: Server) {
    && s.isClosing && s.requested && s.asyncClose == Open && s.listener == Open
    && s.ring == LiveIds(s.sessions)
  }

  /** A session of such a server fails. */
  lemma SessionFails(s: Server, c: nat)
    requires Overtaken(s) && c in s.ring
    ensures c < |s.sessions| && Enabled(s, ReadError(c))
    ensures var z := Next(s, ReadError(c));
            Overtaken(z) && z.ring == s.ring && z.frees == s.frees && LifeOf(z, Of(c)) == Closing
  {
    LiveMembers(s.sessions, c);
    SameLifeSameLive(s.sessions, Next(s, ReadError(c)).sessions);
  }

  /** Its close callback takes it off the list, and frees the server if it was the last one. */
  lemma SessionGoes(s: Server, c: nat)
    requires Overtaken(s) && Enabled(s, CloseCb(Of(c)))
    ensures var z := Next(s, CloseCb(Of(c)));
            Overtaken(z) && |z.ring| == |s.ring| - 1 && z.frees == if z.ring == [] then s.frees + 1 else s.frees
  {
    FreeingRemoves(s.sessions, c, Session(Closed, s.sessions[c].closes, s.sessions[c].frees + 1));
  }

  lemma {:induction false} LastSessionFrees(s0: Server, s: Server)
    requires Reachable(From(s0), s) && Overtaken(s) && s.ring != []
    ensures exists z :: Reachable(From(s0), z) && Overtaken(z) && z.ring == [] && z.frees == s.frees + 1
    decreases |s.ring|
  {
    var c := s.ring[0];
    SessionFails(s, c);
    StepReachable(From(s0), s, ReadError(c));
    SessionGoes(Next(s, ReadError(c)), c);
    StepReachable(From(s0), Next(s, ReadError(c)), CloseCb(Of(c)));
    var z := Next(Next(s, ReadError(c)), CloseCb(Of(c)));
    if z.ring == [] {
    } else {
      LastSessionFrees(s0, z);
    }
  }

  /** A close has been asked for and not seen, or it has been seen. */
  predicate AskedFor(s: Server) {
    && AllFit(s.sessions)
    && (if s.requested then Overtaken(s) && !s.closeBegun else s.closeBegun)
  }

  lemma ServedCloseSweeps(s: Server)
    requires AskedFor(s) && s.requested
    ensures var z := Next(s, AsyncCloseCb);
            && z.ring == s.ring && |z.sessions| == |s.sessions| && !z.requested && z.closeBegun
            && AllFit(z.sessions) && (forall c | 0 <= c < |z.sessions| :: z.sessions[c].life != Open)
            && z.listener != Open && z.asyncSend == Closing && z.asyncClose == Closing
  {
    SweptFit(s.sessions);
  }

  lemma AskedForKept(s: Server, a: Action)
    requires AskedFor(s) && Enabled(s, a)
    ensures AskedFor(Next(s, a))
  {
    match a
    case Accept(ok) =>
      AcceptStaysFit(s, ok);
      AcceptKeepsLive(s);
    case ReadError(c) =>
      ReadErrorStaysFit(s, c);
      SameLifeSameLive(s.sessions, Next(s, a).sessions);
    case AsyncCloseCb => ServedCloseSweeps(s);
    case CloseCb(h) =>
      CloseCbStaysFit(s, h);
      if h.Of? && s.requested {
        RingShrinks(s, h.c);
      }
    case _ =>
  }

  /** When the loop serves a close asked for on another thread, it closes whatever is then on the list, by one
      `uv_close` over its life, however many sessions have come and gone since the request. */
  lemma RequestedCloseSweeps(s: Server, z: Server, c: nat)
    requires Reachable(LOOP_CLOSED, s) && Enabled(s, CloseElsewhere)
    requires Reachable(From(Next(s, CloseElsewhere)), z) && Enabled(z, AsyncCloseCb)
    ensures var z' := Next(z, AsyncCloseCb);
            && z'.ring == z.ring && |z'.sessions| == |z.sessions|
            && (c < |z.sessions| ==> z'.sessions[c].life != Open && z'.sessions[c].closes == 1)
            && z'.listener != Open && z'.asyncSend == Closing && z'.asyncClose == Closing
  {
    EveryRunKeepsInv();
    var machine := From(Next(s, CloseElsewhere));
    forall w, a | AskedFor(w) && machine.guard(w, a) ensures AskedFor(machine.next(w, a)) {
      AskedForKept(w, a);
    }
    Invariance(machine, AskedFor);
    ServedCloseSweeps(z);
  }

  /** A close asked for on another thread sets the flag before the loop has seen it: in some run the last session's
      close callback frees the server first, and the loop's close reads it and frees it again. */
  lemma ForeignCloseFreesTwice(s: Server)
    requires Inv(s) && Enabled(s, CloseElsewhere)
    ensures exists z :: Reachable(From(Next(s, CloseElsewhere)), z) && z.wild && z.frees == 2
  {
    var s0 := Next(s, CloseElsewhere);
    InitReachable(From(s0));
    var z := s0;
    if z.ring == [] {
      AcceptKeepsLive(z);
      StepReachable(From(s0), z, Accept(true));
      z := Next(z, Accept(true));
    }
    LastSessionFrees(s0, z);
    z :| Reachable(From(s0), z) && Overtaken(z) && z.ring == [] && z.frees == 1;
    StepReachable(From(s0), z, AsyncCloseCb);
  }

  lemma AcceptKeepsLive(s: Server)
    ensures LiveIds(Next(s, Accept(true)).sessions) == LiveIds(s.sessions) + [|s.sessions|]
  {
    assert Next(s, Accept(true)).sessions[..|s.sessions|] == s.sessions;
  }

  lemma LoopCloseFreesOnce(s: Server)
    requires Inv(s) && Enabled(s, CloseHere)
    ensures forall z :: Reachable(From(Next(s, CloseHere)), z) ==> Begun(z)
  {
    CloseKeepsInv(s);
    forall z, b | Begun(z) && Enabled(z, b) ensures Begun(Next(z, b)) {
      BegunKept(z, b);
    }
    Invariance(From(Next(s, CloseHere)), Begun);
  }

  /** Whatever has happened before, closing the server leads to no double free and no read of the freed server, in any
      run, exactly when it is closed on the loop thread. */
  lemma CloseIsSoundExactlyOnLoop(s: Server, a: Action)
    requires Reachable(LOOP_CLOSED, s) && Enabled(s, a) && (a.CloseHere? || a.CloseElsewhere?)
    ensures (forall z :: Reachable(From(Next(s, a)), z) ==> z.frees <= 1 && !z.wild) <==> a.CloseHere?
  {
    EveryRunKeepsInv();
    if a.CloseHere? {
      LoopCloseFreesOnce(s);
    } else {
      ForeignCloseFreesTwice(s);
    }
  }
}
