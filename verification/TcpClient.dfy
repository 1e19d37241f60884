/**
 The life of a TCP client: five heap blocks, three loop handles, and callbacks that reach the client through them.

 A read error closes the session without a callback of the client's; `tcp_client_close` closes it with one that
 frees the client, or, when the session is closing already, frees the client at once.
 */
module TcpClient {
  import opened Machines

  /** `Dying` is closing with no callback, `Closing` closing with the one that frees the client. */
  datatype Session = Open | Dying | Closing | Closed

  datatype Async = Active | Stopping | Stopped

  /** How often each of the five blocks has been freed. */
  datatype Frees = Frees(client: nat, session: nat, connectReq: nat, asyncSend: nat, asyncClose: nat)

  /** `connecting` and `reading` say whether a connect request is pending and whether reading has been started, `writes`
      how many write requests are not completed; `requested` is the pending close event of another thread. `wild` is
      set once a callback has read the freed client, or libuv the freed session. */
  datatype Client = Client(
    session: Session,
    connecting: bool,
    reading: bool,
    writes: nat,
    asyncSend: Async,
    asyncClose: Async,
    requested: bool,
    closed: bool,
    frees: Frees,
    wild: bool)

  datatype Action =
    | OnConnect(ok: bool)
    | OnReadError
    | Write
    | OnWrite
    | CloseHere
    | CloseElsewhere
    | AsyncCloseCb
    | SessionClosed
    | SendAsyncClosed
    | CloseAsyncClosed

  /** A closing session cancels its connect and its writes: their callbacks come before its own. */
  predicate Enabled(s: Client, a: Action) {
    match a
    case OnConnect(ok) => s.connecting && s.session != Closed && (ok ==> s.session == Open)
    case OnReadError => s.reading && s.session == Open
    case Write => s.session == Open && !s.closed
    case OnWrite => s.writes > 0 && s.session != Closed
    case CloseHere => !s.closed && !s.requested
    case CloseElsewhere => !s.closed && !s.requested
    case AsyncCloseCb => s.requested && s.asyncClose == Active
    case SessionClosed => (s.session == Dying || s.session == Closing) && !s.connecting && s.writes == 0
    case SendAsyncClosed => s.asyncSend == Stopping
    case CloseAsyncClosed => s.asyncClose == Stopping
  }

  function Touch(s: Client): Client {
    s.(wild := s.wild || s.frees.client > 0)
  }

  function FreeResource(s: Client): Client {
    var f := s.frees;
    s.(frees := f.(client := f.client + 1, session := f.session + 1, connectReq := f.connectReq + 1))
  }

  function CloseHandle(s: Client): Client {
    var s' := Touch(s).(asyncSend := Stopping, asyncClose := Stopping, reading := false);
    var s'' := s'.(closed := true, requested := false);
    if s.session == Open then s''.(session := Closing) else FreeResource(s'')
  }

  function Next(s: Client, a: Action): Client {
    match a
    case OnConnect(ok) => Touch(s).(connecting := false, reading := ok)
    case OnReadError => Touch(s).(session := Dying, reading := false)
    case Write => Touch(s).(writes := s.writes + 1)
    case OnWrite => Touch(s).(writes := if s.writes > 0 then s.writes - 1 else 0)
    case CloseHere => CloseHandle(s)
    case CloseElsewhere => Touch(s).(requested := true)
    case AsyncCloseCb => CloseHandle(s)
    case SessionClosed =>
      var s' := s.(wild := s.wild || s.frees.session > 0, session := Closed);
      if s.session == Closing then FreeResource(Touch(s')) else s'
    case SendAsyncClosed => s.(asyncSend := Stopped, frees := s.frees.(asyncSend := s.frees.asyncSend + 1))
    case CloseAsyncClosed => s.(asyncClose := Stopped, frees := s.frees.(asyncClose := s.frees.asyncClose + 1))
  }

  const FRESH := Client(Open, true, false, 0, Active, Active, false, false, Frees(0, 0, 0, 0, 0), false)

  /** Every run from `s`; the client is closed, if at all, once, from the loop thread or another. */
  function RunsFrom(s: Client): Machine<Client, Action> {
    Machine(s, Enabled, Next)
  }

  // ------------------------------------------------------------------ before and after a close

  predicate Unclosed(s: Client) {
    && !s.closed && !s.wild && s.frees == Frees(0, 0, 0, 0, 0) && s.asyncSend == Active && s.asyncClose == Active
    && s.session != Closing && (s.reading ==> !s.connecting && s.session == Open)
    && (s.session != Open ==> !s.connecting) && (s.session == Closed ==> s.writes == 0)
  }

  function Freed(x: Async): nat {
    if x == Stopped then 1 else 0
  }

  /** Closed while the session was open or had finished closing. */
  predicate WellClosed(s: Client) {
    && s.closed && !s.requested && !s.wild && s.asyncSend != Active && s.asyncClose != Active
    && (s.session == Closing || (s.session == Closed && !s.connecting && s.writes == 0))
    && var n := if s.session == Closed then 1 else 0;
       s.frees == Frees(n, n, n, Freed(s.asyncSend), Freed(s.asyncClose))
  }

  predicate Closes(a: Action) {
    a.CloseHere? || a.AsyncCloseCb?
  }

  predicate OpenOrClosed(s: Client) {
    if s.closed then !s.requested && s.session != Open else Unclosed(s)
  }

  lemma OpenOrClosedKept(s: Client, a: Action)
    requires OpenOrClosed(s) && Enabled(s, a)
    ensures OpenOrClosed(Next(s, a))
  {
  }

  lemma EveryRunIsOpenOrClosed()
    ensures forall s :: Reachable(RunsFrom(FRESH), s) ==> OpenOrClosed(s)
  {
    forall z, b | OpenOrClosed(z) && RunsFrom(FRESH).guard(z, b) ensures OpenOrClosed(RunsFrom(FRESH).next(z, b)) {
      OpenOrClosedKept(z, b);
    }
    Invariance(RunsFrom(FRESH), OpenOrClosed);
  }

  lemma OpenUntilClosed(s: Client, a: Action)
    requires Reachable(RunsFrom(FRESH), s) && Enabled(s, a) && (Closes(a) || a.CloseElsewhere?)
    ensures Unclosed(s)
  {
    EveryRunIsOpenOrClosed();
  }

  lemma WellClosedKept(s: Client, a: Action)
    requires WellClosed(s) && Enabled(s, a)
    ensures WellClosed(Next(s, a))
  {
  }

  /** No block freed twice, and nothing freed that a callback or libuv then reads. */
  predicate Sound(s: Client) {
    && !s.wild && s.frees.client <= 1 && s.frees.session <= 1 && s.frees.connectReq <= 1
    && s.frees.asyncSend <= 1 && s.frees.asyncClose <= 1
  }

  predicate Released(s: Client) {
    s.frees == Frees(1, 1, 1, 1, 1)
  }

  /** After a close that has taken effect while the session was dying, memory it has freed is read next. */
  lemma DyingGoesWild(s0: Client, s: Client, a: Action)
    requires Unclosed(s) && Enabled(s, a) && Closes(a) && s.session == Dying
    requires Reachable(RunsFrom(s0), Next(s, a))
    ensures exists z :: Reachable(RunsFrom(s0), z) && z.wild
  {
    var z := Next(s, a);
    var b := if z.writes > 0 then OnWrite else SessionClosed;
    StepReachable(RunsFrom(s0), z, b);
  }

  lemma BadCloseGoesWild(s: Client, a: Action)
    requires Unclosed(s) && Enabled(s, a) && Closes(a) && s.session == Dying
    ensures exists z :: Reachable(RunsFrom(Next(s, a)), z) && z.wild
  {
    InitReachable(RunsFrom(Next(s, a)));
    DyingGoesWild(Next(s, a), s, a);
  }

  lemma GoodCloseStaysSound(s: Client, a: Action)
    requires Unclosed(s) && Enabled(s, a) && Closes(a) && s.session != Dying
    ensures forall z :: Reachable(RunsFrom(Next(s, a)), z) ==> WellClosed(z)
  {
    var machine := RunsFrom(Next(s, a));
    forall z, b | WellClosed(z) && machine.guard(z, b) ensures WellClosed(machine.next(z, b)) {
      WellClosedKept(z, b);
    }
    Invariance(machine, WellClosed);
  }

  /** A close asked for on another thread, before the loop has seen it: nothing can make the session die meanwhile. */
  predicate Waiting(s: Client) {
    && Unclosed(s) && s.requested && !s.connecting && !s.reading
    && (s.session == Open || s.session == Closed)
  }

  predicate WaitingOrWellClosed(s: Client) {
    Waiting(s) || WellClosed(s)
  }

  lemma WaitingKept(s: Client, a: Action)
    requires WaitingOrWellClosed(s) && Enabled(s, a)
    ensures WaitingOrWellClosed(Next(s, a))
  {
    if WellClosed(s) {
      WellClosedKept(s, a);
    }
  }

  lemma GoodRequestStaysSound(s: Client)
    requires Unclosed(s) && Enabled(s, CloseElsewhere) && ClosesSafely(s, CloseElsewhere)
    ensures forall z :: Reachable(RunsFrom(Next(s, CloseElsewhere)), z) ==> WaitingOrWellClosed(z)
  {
    var machine := RunsFrom(Next(s, CloseElsewhere));
    forall z, b | WaitingOrWellClosed(z) && machine.guard(z, b) ensures WaitingOrWellClosed(machine.next(z, b)) {
      WaitingKept(z, b);
    }
    Invariance(machine, WaitingOrWellClosed);
  }

  /** A request that finds the session connecting, reading or dying can be overtaken by a read error. */
  lemma BadRequestGoesWild(s: Client)
    requires Unclosed(s) && Enabled(s, CloseElsewhere) && !ClosesSafely(s, CloseElsewhere)
    ensures exists z :: Reachable(RunsFrom(Next(s, CloseElsewhere)), z) && z.wild
  {
    var s0 := Next(s, CloseElsewhere);
    InitReachable(RunsFrom(s0));
    var z := s0;
    if z.connecting {
      StepReachable(RunsFrom(s0), z, OnConnect(true));
      z := Next(z, OnConnect(true));
    }
    if z.session == Open {
      StepReachable(RunsFrom(s0), z, OnReadError);
      z := Next(z, OnReadError);
    }
    StepReachable(RunsFrom(s0), z, AsyncCloseCb);
    DyingGoesWild(s0, z, AsyncCloseCb);
  }

  /** What a caller of `tcp_client_close` can check. On the loop thread: the session is not in the middle of the close
      that a read error began. On another thread: its connecting failed, or that close is over. The event of the
      latter is judged, like a close on the loop thread, at the moment it is served. */
  predicate ClosesSafely(s: Client, a: Action) {
    if a.CloseElsewhere? then s.session == Closed || (s.session == Open && !s.connecting && !s.reading)
    else s.session != Dying
  }

  /** Closing the client is sound, whatever follows, exactly when it is called safely in this sense: on the loop thread
      or on another, in any reachable state. */
  lemma CloseIsSoundExactlyWhen(s: Client, a: Action)
    requires Reachable(RunsFrom(FRESH), s) && Enabled(s, a) && (Closes(a) || a.CloseElsewhere?)
    ensures (forall z :: Reachable(RunsFrom(Next(s, a)), z) ==> Sound(z)) <==> ClosesSafely(s, a)
  {
    OpenUntilClosed(s, a);
    if ClosesSafely(s, a) {
      SafeCloseEnds(s, a);
      forall z | Reachable(RunsFrom(Next(s, a)), z) ensures Sound(z) {
        assert WaitingOrWellClosed(z);
      }
    } else if a.CloseElsewhere? {
      BadRequestGoesWild(s);
    } else {
      BadCloseGoesWild(s, a);
    }
  }

  lemma SafeCloseEnds(s: Client, a: Action)
    requires Unclosed(s) && Enabled(s, a) && (Closes(a) || a.CloseElsewhere?) && ClosesSafely(s, a)
    ensures forall z :: Reachable(RunsFrom(Next(s, a)), z) ==> WaitingOrWellClosed(z)
  {
    if a.CloseElsewhere? {
      GoodRequestStaysSound(s);
    } else {
      GoodCloseStaysSound(s, a);
    }
  }

  // ------------------------------------------------------------------ what each callback does

  /** In every reachable state before the close takes effect, the end of connecting starts reading exactly if it was
      successful, and changes nothing else. */
  lemma ConnectStartsReading(s: Client, ok: bool)
    requires Reachable(RunsFrom(FRESH), s) && !s.closed && Enabled(s, OnConnect(ok))
    ensures var z := Next(s, OnConnect(ok));
            z.reading == ok && !z.connecting && z == s.(connecting := false, reading := ok)
  {
    EveryRunIsOpenOrClosed();
  }

  /** So after a refused connection the client can be closed from any thread. */
  lemma RefusedCanBeClosed(s: Client)
    requires Reachable(RunsFrom(FRESH), s) && Enabled(s, OnConnect(false))
    requires s.session == Open && !s.closed && !s.requested
    ensures var z := Next(s, OnConnect(false)); Enabled(z, CloseElsewhere) && ClosesSafely(z, CloseElsewhere)
  {
  }

  /** A read error puts the session into a close of which the client will not hear, and stops reading. */
  lemma ReadErrorKills(s: Client)
    requires Reachable(RunsFrom(FRESH), s) && Enabled(s, OnReadError)
    ensures var z := Next(s, OnReadError);
            z.session == Dying && !z.reading && z == s.(session := Dying, reading := false)
  {
    EveryRunIsOpenOrClosed();
  }

  /** A send queues one write, the completion of a write takes one off. */
  lemma WritesAreCounted(s: Client)
    requires Reachable(RunsFrom(FRESH), s) && !s.closed
    ensures Enabled(s, Write) ==> Next(s, Write) == s.(writes := s.writes + 1)
    ensures Enabled(s, OnWrite) ==> s.writes > 0 && Next(s, OnWrite) == s.(writes := s.writes - 1)
  {
    EveryRunIsOpenOrClosed();
  }

  /** Asking for a close on another thread only raises the event; a close that takes effect stops reading, closes both
      events, and closes the session with the callback that frees, or frees at once. */
  lemma CloseTakesEffect(s: Client, a: Action)
    requires Reachable(RunsFrom(FRESH), s) && Enabled(s, a)
    ensures a.CloseElsewhere? ==> Next(s, a) == s.(requested := true)
    ensures Closes(a) ==>
              var z := Next(s, a);
              && z.closed && !z.requested && !z.reading && z.asyncSend == Stopping && z.asyncClose == Stopping
              && z.session == (if s.session == Open then Closing else s.session)
              && z.frees == (if s.session == Open then Frees(0, 0, 0, 0, 0) else Frees(1, 1, 1, 0, 0))
              && z.connecting == s.connecting && z.writes == s.writes
  {
    EveryRunIsOpenOrClosed();
  }

  // ------------------------------------------------------------------ release

  predicate Callback(a: Action) {
    a.OnConnect? || a.OnWrite? || a.SessionClosed? || a.SendAsyncClosed? || a.CloseAsyncClosed?
  }

  /** The callbacks still owed by the loop. */
  function Owed(s: Client): nat {
    (if s.connecting then 1 else 0) + s.writes + (if s.session == Closed then 0 else 1)
    + (if s.asyncSend == Stopped then 0 else 1) + (if s.asyncClose == Stopped then 0 else 1)
  }

  lemma CallbacksRunOut(z: Client)
    requires WellClosed(z)
    ensures forall b :: Enabled(z, b) ==> Callback(b) && Owed(Next(z, b)) < Owed(z)
    ensures (forall b :: !Enabled(z, b)) ==> Owed(z) == 0
    ensures Owed(z) == 0 <==> Released(z)
  {
    assert Owed(z) > 0 ==> Enabled(z, OnConnect(false)) || Enabled(z, OnWrite) || Enabled(z, SessionClosed)
                           || Enabled(z, SendAsyncClosed) || Enabled(z, CloseAsyncClosed);
  }

  /** After a safe close the loop always has something to do until all five blocks have been freed, exactly once and
      none before a callback that still read the client; once the close has taken effect only callbacks are left,
      and each leaves one fewer. */
  lemma ClosedClientIsReleased(s: Client, a: Action, z: Client)
    requires Reachable(RunsFrom(FRESH), s) && Enabled(s, a) && (Closes(a) || a.CloseElsewhere?) && ClosesSafely(s, a)
    requires Reachable(RunsFrom(Next(s, a)), z)
    ensures Sound(z)
    ensures z.closed ==> forall b :: Enabled(z, b) ==> Callback(b) && Owed(Next(z, b)) < Owed(z)
    ensures (forall b :: !Enabled(z, b)) ==> Released(z)
  {
    OpenUntilClosed(s, a);
    SafeCloseEnds(s, a);
    assert WaitingOrWellClosed(z);
    if z.closed {
      CallbacksRunOut(z);
    } else {
      assert Enabled(z, AsyncCloseCb);
    }
  }
}
