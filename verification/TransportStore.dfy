/** The store itself: module variables updated by event handlers
    (apps/mobile/src/transport/store.ts:126-424). Each method is proved to do to the variables what
    the function of the same step does to a `Transport.State`. `Drive` feeds a store any events its
    drivers can report, and is where what holds of those runs is stated of the variables. */
module TransportStore {
  import opened Wrappers
  import T = Transport
  import opened TransportRuns
  import opened TransportWinner
  import E = TransportEffects

  /** `fetches`, `timers` and `attempts` stand for what the closures and the event loop hold: the
      token calls made, the reconnect timers set, the locals of each `attemptConnect` call. */
  class Store {
    var status: T.Status
    var activeTransport: Option<T.Carrier>
    var lastFrame: Option<string>
    var socket: Option<T.SocketName>
    var quicConnection: Option<nat>
    var reconnectTimer: Option<nat>
    var backoffMs: nat
    var closed: bool
    var generation: nat
    var fetches: seq<T.Fetch>
    var timers: seq<T.Timer>
    var attempts: seq<T.Attempt>

    function View(): T.State
      reads this
    {
      T.State(status, activeTransport, lastFrame, socket, quicConnection, reconnectTimer, backoffMs, closed, generation,
              fetches, timers, attempts)
    }

    ghost predicate Valid()
      reads this
    {
      T.WellFormed(View())
    }

    constructor ()
      ensures Valid() && View() == T.START
    {
      status, activeTransport, lastFrame := T.Disconnected, None, None;
      socket, quicConnection, reconnectTimer := None, None, None;
      backoffMs, closed, generation := T.INITIAL_BACKOFF_MS, true, 0;
      fetches, timers, attempts := [], [], [];
    }

    /** `connect`. */
    method Connect()
      requires Valid()
      modifies this
      ensures Valid() && View() == T.Connect(old(View()))
    {
      closed := false;
      generation := generation + 1;
      backoffMs := T.INITIAL_BACKOFF_MS;
      ClearReconnectTimer();
      status, activeTransport := T.Connecting, None;
      AttemptConnect(generation);
    }

    /** `close`. */
    method Close()
      requires Valid()
      modifies this
      ensures Valid() && View() == T.Close(old(View()))
    {
      closed := true;
      generation := generation + 1;
      ClearReconnectTimer();
      DropSocket();
      DropQuic();
      status, activeTransport := T.Disconnected, None;
    }

    method ClearReconnectTimer()
      requires Valid()
      modifies `timers, `reconnectTimer
      ensures Valid() && View() == T.ClearReconnectTimer(old(View()))
    {
      if reconnectTimer.Some? {
        timers := timers[reconnectTimer.value := timers[reconnectTimer.value].(due := false)];
        reconnectTimer := None;
      }
    }

    method DropSocket()
      requires Valid()
      modifies `attempts, `socket
      ensures Valid() && View() == T.DropSocket(old(View()))
    {
      if socket.Some? {
        CloseSocket(socket.value);
      }
      socket := None;
    }

    method DropQuic()
      requires Valid()
      modifies `attempts, `quicConnection
      ensures Valid() && View() == T.DropQuic(old(View()))
    {
      if quicConnection.Some? {
        CloseQuic(quicConnection.value);
      }
      quicConnection := None;
    }

    method CloseSocket(w: T.SocketName)
      requires Valid() && T.Dialled(View(), w)
      modifies `attempts
      ensures Valid() && View() == T.SetAttempt(old(View()), w.attempt, T.CloseNth(old(attempts)[w.attempt], w.nth))
    {
      attempts := attempts[w.attempt := T.CloseNth(attempts[w.attempt], w.nth)];
    }

    method CloseQuic(a: nat)
      requires Valid() && a < |attempts|
      modifies `attempts
      ensures Valid() && View() == T.SetAttempt(old(View()), a, old(attempts)[a].(quicClosed := true))
    {
      attempts := attempts[a := attempts[a].(quicClosed := true)];
    }

    /** `scheduleReconnect`; `random` is what Math.random() answers. */
    method ScheduleReconnect(myGeneration: nat, random: real)
      requires Valid()
      modifies this
      ensures Valid() && View() == T.ScheduleReconnect(old(View()), myGeneration, random)
    {
      if closed || myGeneration != generation {
        return;
      }
      status := T.Reconnecting;
      var delay := T.WithJitter(backoffMs, random);
      backoffMs := T.Min(backoffMs * 2, T.MAX_BACKOFF_MS);
      reconnectTimer := Some(|timers|);
      timers := timers + [T.Timer(myGeneration, delay, true)];
    }

    method OnReconnectTimer(t: nat)
      requires Valid() && t < |timers|
      modifies this
      ensures Valid() && View() == T.OnReconnectTimer(old(View()), t)
    {
      timers := timers[t := timers[t].(due := false)];
      reconnectTimer := None;
      AttemptConnect(timers[t].generation);
    }

    /** `attemptConnect` up to `await getToken()`. */
    method AttemptConnect(myGeneration: nat)
      requires Valid()
      modifies `fetches
      ensures Valid() && View() == T.AttemptConnect(old(View()), myGeneration)
    {
      if closed || myGeneration != generation {
        return;
      }
      fetches := fetches + [T.Fetch(myGeneration, T.Asked)];
    }

    /** `attemptConnect` from there to its end. */
    method OnToken(k: nat, token: bool)
      requires Valid() && k < |fetches|
      modifies this
      ensures Valid() && View() == T.OnToken(old(View()), k, token)
    {
      var myGeneration := fetches[k].generation;
      fetches := fetches[k := T.Fetch(myGeneration, T.Given)];
      if closed || myGeneration != generation {
        return;
      }
      if !token {
        status, activeTransport := T.Disconnected, None;
        return;
      }
      attempts := attempts + [T.Attempt(myGeneration, false, [], false, true, T.Pending, false)];
    }

    method OnTokenFailed(k: nat)
      requires Valid() && k < |fetches|
      modifies `fetches
      ensures Valid() && View() == T.OnTokenFailed(old(View()), k)
    {
      fetches := fetches[k := fetches[k].(call := T.Thrown)];
    }

    method FinishWithQuic(a: nat)
      requires Valid() && a < |attempts|
      modifies this
      ensures Valid() && View() == T.FinishWithQuic(old(View()), a)
    {
      var at := attempts[a].(settled := true, timerArmed := false);
      quicConnection := Some(a);
      if at.sockets != [] {
        var last := |at.sockets| - 1;
        if socket == Some(T.SocketName(a, last)) {
          socket := None;
        }
        if !at.wsDiscarded {
          at := T.CloseNth(at, last).(wsDiscarded := true);
        }
      }
      attempts := attempts[a := at];
      backoffMs := T.INITIAL_BACKOFF_MS;
      status, activeTransport := T.Connected, Some(T.Quic);
    }

    method FinishWithWs(a: nat)
      requires Valid() && a < |attempts|
      modifies this
      ensures Valid() && View() == T.FinishWithWs(old(View()), a)
    {
      attempts := attempts[a := attempts[a].(settled := true)];
      backoffMs := T.INITIAL_BACKOFF_MS;
      status, activeTransport := T.Connected, Some(T.Ws);
    }

    method GiveUp(a: nat, random: real)
      requires Valid() && a < |attempts|
      modifies this
      ensures Valid() && View() == T.GiveUp(old(View()), a, random)
    {
      attempts := attempts[a := attempts[a].(settled := true)];
      activeTransport := None;
      ScheduleReconnect(attempts[a].generation, random);
    }

    method StartWs(a: nat)
      requires Valid() && a < |attempts|
      modifies `attempts, `socket
      ensures Valid() && View() == T.StartWs(old(View()), a)
    {
      if T.Stale(View(), a) || attempts[a].settled {
        return;
      }
      socket := Some(T.SocketName(a, |attempts[a].sockets|));
      attempts := attempts[a := attempts[a].(sockets := attempts[a].sockets + [T.Socket(T.Dialing, false)])];
    }

    method OnWsMessage(w: T.SocketName, frame: Option<string>)
      requires Valid() && T.Dialled(View(), w)
      modifies `lastFrame
      ensures Valid() && View() == T.OnWsMessage(old(View()), w, frame)
      ensures lastFrame == if frame.Some? && E.Current(old(View()), w.attempt) && !attempts[w.attempt].wsDiscarded then frame
                           else old(lastFrame)
    {
      if T.Stale(View(), w.attempt) || attempts[w.attempt].wsDiscarded {
        return;
      }
      if frame.None? {
        return;
      }
      lastFrame := frame;
    }

    method OnWsOpen(w: T.SocketName)
      requires Valid() && T.Dialled(View(), w)
      modifies this
      ensures Valid() && View() == T.OnWsOpen(old(View()), w)
    {
      attempts := attempts[w.attempt := T.SetLink(attempts[w.attempt], w.nth, T.Up)];
      if T.Stale(View(), w.attempt) {
        CloseSocket(w);
        return;
      }
      if attempts[w.attempt].settled {
        attempts := attempts[w.attempt := attempts[w.attempt].(wsDiscarded := true)];
        CloseSocket(w);
        return;
      }
      FinishWithWs(w.attempt);
    }

    method OnWsClose(w: T.SocketName, code: int, random: real)
      requires Valid() && T.Dialled(View(), w)
      modifies this
      ensures Valid() && View() == T.OnWsClose(old(View()), w, code, random)
    {
      var a := w.attempt;
      attempts := attempts[a := T.SetLink(attempts[a], w.nth, T.Down)];
      if socket == Some(w) {
        socket := None;
      }
      if T.Stale(View(), a) || attempts[a].wsDiscarded {
        return;
      }
      if attempts[a].settled {
        if code == T.CLOSE_UNAUTHORIZED {
          status, activeTransport := T.Disconnected, None;
          return;
        }
        activeTransport := None;
        ScheduleReconnect(attempts[a].generation, random);
        return;
      }
      if code == T.CLOSE_UNAUTHORIZED {
        attempts := attempts[a := attempts[a].(settled := true)];
        status, activeTransport := T.Disconnected, None;
        return;
      }
      GiveUp(a, random);
    }

    method OnQuicFrame(a: nat, frame: string)
      requires Valid() && a < |attempts|
      modifies `lastFrame
      ensures Valid() && View() == T.OnQuicFrame(old(View()), a, frame)
      ensures lastFrame == if E.Heard(old(View()), a) then Some(frame) else old(lastFrame)
    {
      if closed || attempts[a].generation != generation || quicConnection != T.ThisQuicConn(View(), a) {
        return;
      }
      lastFrame := Some(frame);
    }

    method OnQuicClosed(a: nat, authFailed: bool, random: real)
      requires Valid() && a < |attempts|
      modifies this
      ensures Valid() && View() == T.OnQuicClosed(old(View()), a, authFailed, random)
    {
      if attempts[a].quic == T.Open {
        attempts := attempts[a := attempts[a].(quic := T.Ended)];
      }
      if closed || attempts[a].generation != generation || quicConnection != T.ThisQuicConn(View(), a) {
        return;
      }
      quicConnection := None;
      if authFailed {
        status, activeTransport := T.Disconnected, None;
        return;
      }
      activeTransport := None;
      ScheduleReconnect(attempts[a].generation, random);
    }

    method OnQuicTimer(a: nat)
      requires Valid() && a < |attempts|
      modifies `attempts, `socket
      ensures Valid() && View() == T.OnQuicTimer(old(View()), a)
    {
      attempts := attempts[a := attempts[a].(timerArmed := false)];
      if T.Stale(View(), a) || attempts[a].settled {
        return;
      }
      StartWs(a);
    }

    method OnQuicResolved(a: nat)
      requires Valid() && a < |attempts|
      modifies this
      ensures Valid() && View() == T.OnQuicResolved(old(View()), a)
    {
      attempts := attempts[a := attempts[a].(quic := T.Open, timerArmed := false)];
      if T.Stale(View(), a) || attempts[a].settled {
        CloseQuic(a);
        return;
      }
      FinishWithQuic(a);
    }

    method OnQuicRejected(a: nat)
      requires Valid() && a < |attempts|
      modifies `attempts, `socket
      ensures Valid() && View() == T.OnQuicRejected(old(View()), a)
    {
      attempts := attempts[a := attempts[a].(quic := T.Rejected)];
      if T.Stale(View(), a) {
        return;
      }
      attempts := attempts[a := attempts[a].(timerArmed := false)];
      if attempts[a].settled {
        return;
      }
      StartWs(a);
    }

    /** Where `send` hands a frame. */
    method Send() returns (target: T.Target)
      requires Valid()
      ensures target == T.SendTarget(View())
    {
      if activeTransport == Some(T.Quic) && quicConnection.Some? {
        return T.ToQuic(quicConnection.value);
      }
      if socket.Some? {
        return T.ToSocket(socket.value);
      }
      target := T.Nowhere;
    }

    /** One event; what no driver reports is not handled. */
    method Handle(ev: T.Event)
      requires Valid()
      modifies this
      ensures Valid() && View() == T.Step(old(View()), ev)
      ensures E.Variables(old(View()), ev, View()) && E.Locals(old(View()), ev, View())
    {
      hide E.Variables, E.Locals;
      E.StepExactly(View(), ev);
      if !T.Possible(View(), ev) {
        return;
      }
      match ev
      case Connects => Connect();
      case Closes => Close();
      case TokenArrives(k, token) => OnToken(k, token);
      case TokenFails(k) => OnTokenFailed(k);
      case TimerFires(t) => OnReconnectTimer(t);
      case QuicTimerFires(a) => OnQuicTimer(a);
      case QuicResolves(a) => OnQuicResolved(a);
      case QuicRejects(a) => OnQuicRejected(a);
      case QuicFrame(a, frame) => OnQuicFrame(a, frame);
      case QuicClosed(a, authFailed, random) => OnQuicClosed(a, authFailed, random);
      case WsMessage(w, text) => OnWsMessage(w, text);
      case WsOpens(w) => OnWsOpen(w);
      case WsCloses(w, code, random) => OnWsClose(w, code, random);
    }

    /** From the start, whatever is reported: the variables hold the backoff of the reconnects scheduled
        since the last success or `connect`, nothing has happened since a `close` without a `connect`,
        and after expected events the one live connection is where `send` goes. */
    method Drive(events: seq<T.Event>)
      requires Valid() && View() == T.START
      modifies this
      ensures Valid() && View() == T.Exec(T.START, events)
      ensures backoffMs == Backoff(Reconnects(events))
      ensures lastFrame == E.LastShown(events)
      ensures ExpectedRun(events) ==> WinnerIsLive(View())
      ensures forall init, ev :: events == init + [ev] && ExpectedRun(init) ==>
                E.FrameOfLive(T.Exec(T.START, init), ev).Some? ==> lastFrame == E.FrameOfLive(T.Exec(T.START, init), ev)
      ensures forall n :: 0 <= n < |events| && events[n] == T.Closes && T.Connects !in events[n + 1..] ==>
                closed && status == T.Disconnected && NothingBegun(T.Exec(T.START, events[..n]), View())
    {
      for i := 0 to |events|
        invariant Valid() && View() == T.Exec(T.START, events[..i])
      {
        Handle(events[i]);
        assert events[..i + 1][..i] == events[..i];
      }
      assert events[..|events|] == events;
      RunsHold(events);
      FramesHold(events);
    }
  }

  /** What holds of the runs, gathered for the driver. */
  lemma RunsHold(events: seq<T.Event>)
    ensures T.Exec(T.START, events).backoffMs == Backoff(Reconnects(events))
    ensures ExpectedRun(events) ==> WinnerIsLive(T.Exec(T.START, events))
    ensures forall n :: 0 <= n < |events| && events[n] == T.Closes && T.Connects !in events[n + 1..] ==>
              && T.Exec(T.START, events).closed && T.Exec(T.START, events).status == T.Disconnected
              && NothingBegun(T.Exec(T.START, events[..n]), T.Exec(T.START, events))
  {
    hide T.Step, WinnerIsLive, Backoff, Reconnects, ExpectedRun, NothingBegun;
    BackoffIsExact(events);
    if ExpectedRun(events) { WinnerHolds(events); }
    forall n | 0 <= n < |events| && events[n] == T.Closes && T.Connects !in events[n + 1..]
      ensures T.Exec(T.START, events).closed && T.Exec(T.START, events).status == T.Disconnected
      ensures NothingBegun(T.Exec(T.START, events[..n]), T.Exec(T.START, events))
    {
      ClosedRun(events, n);
    }
  }

  lemma FramesHold(events: seq<T.Event>)
    ensures T.Exec(T.START, events).lastFrame == E.LastShown(events)
    ensures forall init, ev :: events == init + [ev] && ExpectedRun(init) ==>
              E.FrameOfLive(T.Exec(T.START, init), ev).Some? ==>
                T.Exec(T.START, events).lastFrame == E.FrameOfLive(T.Exec(T.START, init), ev)
  {
    hide T.Step, T.Exec, ExpectedRun, E.LastShown, E.FrameOfLive;
    E.LastFrameIs(events);
    forall init, ev | events == init + [ev] && ExpectedRun(init) && E.FrameOfLive(T.Exec(T.START, init), ev).Some?
      ensures T.Exec(T.START, events).lastFrame == E.FrameOfLive(T.Exec(T.START, init), ev)
    {
      E.LiveFramesAreShown(init, ev);
      ExecNext(T.START, events, |init|);
      assert events[..|init|] == init && events[..|init| + 1] == events && events[|init|] == ev;
    }
  }

  lemma ClosedRun(events: seq<T.Event>, n: nat)
    requires n < |events| && events[n] == T.Closes && T.Connects !in events[n + 1..]
    ensures T.Exec(T.START, events).closed && T.Exec(T.START, events).status == T.Disconnected
    ensures NothingBegun(T.Exec(T.START, events[..n]), T.Exec(T.START, events))
  {
    hide T.Exec, T.Step, T.Close, NothingBegun;
    var s, rest := T.Exec(T.START, events[..n]), events[n + 1..];
    ExecNext(T.START, events, n);
    ExecSplits(T.START, events[..n + 1], rest);
    assert events[..n + 1] + rest == events;
    CloseIsStep(s);
    ClosedUntilConnect(s, rest);
  }

  lemma CloseIsStep(s: T.State)
    requires T.WellFormed(s)
    ensures T.Step(s, T.Closes) == T.Close(s)
  {
  }

  lemma {:induction false} ExecSplits(s: T.State, first: seq<T.Event>, more: seq<T.Event>)
    requires T.WellFormed(s)
    ensures T.Exec(s, first + more) == T.Exec(T.Exec(s, first), more)
  {
    hide T.Step, T.WellFormed;
    if more == [] {
      assert first + more == first;
    } else {
      ExecSplits(s, first, more[..|more| - 1]);
      assert (first + more)[..|first + more| - 1] == first + more[..|more| - 1];
    }
  }
}
