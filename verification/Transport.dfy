/** The chat transport's QUIC-first, WebSocket-fallback connection logic as a transition system
    (apps/mobile/src/transport/store.ts).

    Every function below is one handler, or one function nested in `attemptConnect`, run to
    completion; nothing else can run in between. What the driver reports and what this module told
    it (dials, close requests, timers set) is part of the state.
 */
module Transport {
  import opened Wrappers

  const CLOSE_UNAUTHORIZED: int := 4001
  const INITIAL_BACKOFF_MS: nat := 1000
  const MAX_BACKOFF_MS: nat := 30000
  const JITTER_RATIO: real := 0.2

  datatype Status = Disconnected | Connecting | Connected | Reconnecting

  datatype Carrier = Quic | Ws

  /** A `getToken()` call made for a generation: unanswered, fulfilled, or rejected. */
  datatype Call = Asked | Given | Thrown
  datatype Fetch = Fetch(generation: nat, call: Call)

  /** A reconnect timer; `due` until it fires or is cleared. */
  datatype Timer = Timer(generation: nat, delay: real, due: bool)

  /** What the driver has reported of a socket, and whether `close()` was called on it. */
  datatype Link = Dialing | Up | Down
  datatype Socket = Socket(link: Link, closed: bool)

  /** A socket is named by the attempt that dialled it and by its place among that attempt's. */
  datatype SocketName = SocketName(attempt: nat, nth: nat)

  /** What has become of an attempt's `connectQuic` call. */
  datatype QuicDial = Pending | Rejected | Open | Ended

  /** The locals of one `attemptConnect` call. `sockets` are those it has dialled, the last of which
      is its `ws`; `timerArmed` says that `quicTimer` is set, `quicClosed` that `close()` was called
      on the QUIC connection. */
  datatype Attempt = Attempt(generation: nat, settled: bool, sockets: seq<Socket>, wsDiscarded: bool,
                             timerArmed: bool, quic: QuicDial, quicClosed: bool)

  /** `attempts[k]` is the attempt numbered k + 1, so `attemptId` is `|attempts|`. A QUIC connection
      is named by its attempt. */
  datatype State = State(
    status: Status, active: Option<Carrier>, lastFrame: Option<string>,
    socket: Option<SocketName>, quicConnection: Option<nat>, reconnectTimer: Option<nat>,
    backoffMs: nat, closed: bool, generation: nat,
    fetches: seq<Fetch>, timers: seq<Timer>, attempts: seq<Attempt>)

  const START: State :=
    State(Disconnected, None, None, None, None, None, INITIAL_BACKOFF_MS, true, 0, [], [], [])

  predicate Dialled(s: State, w: SocketName) {
    w.attempt < |s.attempts| && w.nth < |s.attempts[w.attempt].sockets|
  }

  function SocketAt(s: State, w: SocketName): Socket
    requires Dialled(s, w)
  {
    s.attempts[w.attempt].sockets[w.nth]
  }

  /** Every name in use names something. */
  predicate WellFormed(s: State) {
    && (s.socket.Some? ==> Dialled(s, s.socket.value))
    && (s.quicConnection.Some? ==> s.quicConnection.value < |s.attempts|)
    && (s.reconnectTimer.Some? ==> s.reconnectTimer.value < |s.timers|)
  }

  // ----- The handlers

  predicate Stale(s: State, a: nat)
    requires a < |s.attempts|
  {
    s.closed || s.attempts[a].generation != s.generation || a + 1 != |s.attempts|
  }

  function WithJitter(delayMs: nat, random: real): real {
    var jitter := delayMs as real * JITTER_RATIO;
    delayMs as real + (random * 2.0 - 1.0) * jitter
  }

  function Min(x: nat, y: nat): nat { if x <= y then x else y }

  function ScheduleReconnect(s: State, generation: nat, random: real): (r: State)
    requires WellFormed(s)
    ensures WellFormed(r)
  {
    if s.closed || generation != s.generation then s
    else s.(status := Reconnecting,
            backoffMs := Min(s.backoffMs * 2, MAX_BACKOFF_MS),
            timers := s.timers + [Timer(generation, WithJitter(s.backoffMs, random), true)],
            reconnectTimer := Some(|s.timers|))
  }

  /** `attemptConnect` up to its await. */
  function AttemptConnect(s: State, generation: nat): (r: State)
    requires WellFormed(s)
    ensures WellFormed(r)
  {
    if s.closed || generation != s.generation then s
    else s.(fetches := s.fetches + [Fetch(generation, Asked)])
  }

  /** `attemptConnect` after its await; None is a null token. */
  function OnToken(s: State, k: nat, token: bool): (r: State)
    requires WellFormed(s) && k < |s.fetches|
    ensures WellFormed(r)
  {
    var g := s.fetches[k].generation;
    var s := s.(fetches := s.fetches[k := Fetch(g, Given)]);
    if s.closed || g != s.generation then s
    else if !token then s.(status := Disconnected, active := None)
    else s.(attempts := s.attempts + [Attempt(g, false, [], false, true, Pending, false)])
  }

  /** Nothing catches a rejected `getToken()`: the call it was made for ends there. */
  function OnTokenFailed(s: State, k: nat): (r: State)
    requires WellFormed(s) && k < |s.fetches|
    ensures WellFormed(r)
  {
    s.(fetches := s.fetches[k := s.fetches[k].(call := Thrown)])
  }

  function SetAttempt(s: State, a: nat, at: Attempt): (r: State)
    requires WellFormed(s) && a < |s.attempts| && |s.attempts[a].sockets| <= |at.sockets|
    ensures WellFormed(r)
  {
    s.(attempts := s.attempts[a := at])
  }

  function SetLink(at: Attempt, n: nat, link: Link): Attempt
    requires n < |at.sockets|
  {
    at.(sockets := at.sockets[n := at.sockets[n].(link := link)])
  }

  function CloseNth(at: Attempt, n: nat): Attempt
    requires n < |at.sockets|
  {
    at.(sockets := at.sockets[n := at.sockets[n].(closed := true)])
  }

  function FinishWithQuic(s: State, a: nat): (r: State)
    requires WellFormed(s) && a < |s.attempts|
    ensures WellFormed(r)
  {
    var at := s.attempts[a].(settled := true, timerArmed := false);
    var dialled := at.sockets != [];
    SetAttempt(s, a, if dialled && !at.wsDiscarded then CloseNth(at, |at.sockets| - 1).(wsDiscarded := true) else at).(
      quicConnection := Some(a),
      socket := if dialled && s.socket == Some(SocketName(a, |at.sockets| - 1)) then None else s.socket,
      backoffMs := INITIAL_BACKOFF_MS, status := Connected, active := Some(Quic))
  }

  function Settle(s: State, a: nat): (r: State)
    requires WellFormed(s) && a < |s.attempts|
    ensures WellFormed(r)
  {
    SetAttempt(s, a, s.attempts[a].(settled := true))
  }

  function FinishWithWs(s: State, a: nat): (r: State)
    requires WellFormed(s) && a < |s.attempts|
    ensures WellFormed(r)
  {
    Settle(s, a).(backoffMs := INITIAL_BACKOFF_MS, status := Connected, active := Some(Ws))
  }

  function GiveUp(s: State, a: nat, random: real): (r: State)
    requires WellFormed(s) && a < |s.attempts|
    ensures WellFormed(r)
  {
    ScheduleReconnect(Settle(s, a).(active := None), s.attempts[a].generation, random)
  }

  function StartWs(s: State, a: nat): (r: State)
    requires WellFormed(s) && a < |s.attempts|
    ensures WellFormed(r)
  {
    var at := s.attempts[a];
    if Stale(s, a) || at.settled then s
    else SetAttempt(s, a, at.(sockets := at.sockets + [Socket(Dialing, false)])).(
           socket := Some(SocketName(a, |at.sockets|)))
  }

  /** None is a frame that does not parse. */
  function OnWsMessage(s: State, w: SocketName, frame: Option<string>): (r: State)
    requires WellFormed(s) && Dialled(s, w)
    ensures WellFormed(r)
  {
    if Stale(s, w.attempt) || s.attempts[w.attempt].wsDiscarded || frame.None? then s else s.(lastFrame := frame)
  }

  function OnWsOpen(s: State, w: SocketName): (r: State)
    requires WellFormed(s) && Dialled(s, w)
    ensures WellFormed(r)
  {
    var at := SetLink(s.attempts[w.attempt], w.nth, Up);
    if Stale(s, w.attempt) then SetAttempt(s, w.attempt, CloseNth(at, w.nth))
    else if at.settled then SetAttempt(s, w.attempt, CloseNth(at, w.nth).(wsDiscarded := true))
    else FinishWithWs(SetAttempt(s, w.attempt, at), w.attempt)
  }

  function OnWsClose(s: State, w: SocketName, code: int, random: real): (r: State)
    requires WellFormed(s) && Dialled(s, w)
    ensures WellFormed(r)
  {
    var a := w.attempt;
    var at := SetLink(s.attempts[a], w.nth, Down);
    var s := SetAttempt(s, a, at).(socket := if s.socket == Some(w) then None else s.socket);
    if Stale(s, a) || at.wsDiscarded then s
    else if at.settled then
      if code == CLOSE_UNAUTHORIZED then s.(status := Disconnected, active := None)
      else ScheduleReconnect(s.(active := None), at.generation, random)
    else if code == CLOSE_UNAUTHORIZED then Settle(s, a).(status := Disconnected, active := None)
    else GiveUp(s, a, random)
  }

  /** The connection an attempt's QUIC listeners take for theirs: `thisQuicConn`. */
  function ThisQuicConn(s: State, a: nat): Option<nat>
    requires a < |s.attempts|
  {
    if s.attempts[a].quic.Open? || s.attempts[a].quic.Ended? then Some(a) else None
  }

  predicate Ignored(s: State, a: nat)
    requires a < |s.attempts|
  {
    s.closed || s.attempts[a].generation != s.generation || s.quicConnection != ThisQuicConn(s, a)
  }

  function OnQuicFrame(s: State, a: nat, frame: string): (r: State)
    requires WellFormed(s) && a < |s.attempts|
    ensures WellFormed(r)
  {
    if Ignored(s, a) then s else s.(lastFrame := Some(frame))
  }

  function OnQuicClosed(s: State, a: nat, authFailed: bool, random: real): (r: State)
    requires WellFormed(s) && a < |s.attempts|
    ensures WellFormed(r)
  {
    var ignored := Ignored(s, a);
    var s := if s.attempts[a].quic.Open? then SetAttempt(s, a, s.attempts[a].(quic := Ended)) else s;
    if ignored then s
    else
      var s := s.(quicConnection := None, active := None);
      if authFailed then s.(status := Disconnected) else ScheduleReconnect(s, s.attempts[a].generation, random)
  }

  function OnQuicTimer(s: State, a: nat): (r: State)
    requires WellFormed(s) && a < |s.attempts|
    ensures WellFormed(r)
  {
    var s := SetAttempt(s, a, s.attempts[a].(timerArmed := false));
    if Stale(s, a) || s.attempts[a].settled then s else StartWs(s, a)
  }

  function OnQuicResolved(s: State, a: nat): (r: State)
    requires WellFormed(s) && a < |s.attempts|
    ensures WellFormed(r)
  {
    var at := s.attempts[a].(quic := Open, timerArmed := false);
    if Stale(s, a) || at.settled then SetAttempt(s, a, at.(quicClosed := true))
    else FinishWithQuic(SetAttempt(s, a, at), a)
  }

  function OnQuicRejected(s: State, a: nat): (r: State)
    requires WellFormed(s) && a < |s.attempts|
    ensures WellFormed(r)
  {
    var at := s.attempts[a].(quic := Rejected);
    if Stale(s, a) then SetAttempt(s, a, at)
    else
      var s := SetAttempt(s, a, at.(timerArmed := false));
      if at.settled then s else StartWs(s, a)
  }

  function OnReconnectTimer(s: State, t: nat): (r: State)
    requires WellFormed(s) && t < |s.timers|
    ensures WellFormed(r)
  {
    AttemptConnect(s.(timers := s.timers[t := s.timers[t].(due := false)], reconnectTimer := None), s.timers[t].generation)
  }

  function ClearReconnectTimer(s: State): (r: State)
    requires WellFormed(s)
    ensures WellFormed(r)
    ensures |r.timers| == |s.timers|
  {
    match s.reconnectTimer
    case None => s
    case Some(t) => s.(timers := s.timers[t := s.timers[t].(due := false)], reconnectTimer := None)
  }

  function Connect(s: State): (r: State)
    requires WellFormed(s)
    ensures WellFormed(r)
  {
    var s := ClearReconnectTimer(s.(closed := false, generation := s.generation + 1, backoffMs := INITIAL_BACKOFF_MS));
    AttemptConnect(s.(status := Connecting, active := None), s.generation)
  }

  function DropSocket(s: State): (r: State)
    requires WellFormed(s)
    ensures WellFormed(r) && |r.attempts| == |s.attempts|
  {
    match s.socket
    case None => s
    case Some(w) => SetAttempt(s, w.attempt, CloseNth(s.attempts[w.attempt], w.nth)).(socket := None)
  }

  function DropQuic(s: State): (r: State)
    requires WellFormed(s)
    ensures WellFormed(r) && |r.attempts| == |s.attempts|
  {
    match s.quicConnection
    case None => s
    case Some(a) => SetAttempt(s, a, s.attempts[a].(quicClosed := true)).(quicConnection := None)
  }

  function Close(s: State): (r: State)
    requires WellFormed(s)
    ensures WellFormed(r) && |r.attempts| == |s.attempts|
  {
    DropQuic(DropSocket(ClearReconnectTimer(s.(closed := true, generation := s.generation + 1)))).(
      status := Disconnected, active := None)
  }

  /** Where `send` hands a frame: `quicConnection`, `socket`, or nowhere. */
  datatype Target = ToQuic(attempt: nat) | ToSocket(socket: SocketName) | Nowhere

  function SendTarget(s: State): Target {
    if s.active == Some(Quic) && s.quicConnection.Some? then ToQuic(s.quicConnection.value)
    else if s.socket.Some? then ToSocket(s.socket.value)
    else Nowhere
  }

  // ----- Runs

  datatype Event =
    | Connects
    | Closes
    | TokenArrives(fetch: nat, token: bool)
    | TokenFails(fetch: nat)
    | TimerFires(timer: nat)
    | QuicTimerFires(attempt: nat)
    | QuicResolves(attempt: nat)
    | QuicRejects(attempt: nat)
    | QuicFrame(attempt: nat, frame: string)
    | QuicClosed(attempt: nat, authFailed: bool, random: real)
    | WsMessage(socket: SocketName, text: Option<string>)
    | WsOpens(socket: SocketName)
    | WsCloses(socket: SocketName, code: int, random: real)

  /** What a driver may report: a promise settles once, a timer fires once and not after it was
      cleared, a socket opens at most once and reports nothing after its close. Nothing is assumed
      of the order in which QUIC listeners and the QUIC promise report. */
  predicate Possible(s: State, ev: Event) {
    match ev
    case Connects => true
    case Closes => true
    case TokenArrives(k, _) => k < |s.fetches| && s.fetches[k].call.Asked?
    case TokenFails(k) => k < |s.fetches| && s.fetches[k].call.Asked?
    case TimerFires(t) => t < |s.timers| && s.timers[t].due
    case QuicTimerFires(a) => a < |s.attempts| && s.attempts[a].timerArmed
    case QuicResolves(a) => a < |s.attempts| && s.attempts[a].quic.Pending?
    case QuicRejects(a) => a < |s.attempts| && s.attempts[a].quic.Pending?
    case QuicFrame(a, _) => a < |s.attempts|
    case QuicClosed(a, _, random) => a < |s.attempts| && 0.0 <= random < 1.0
    case WsMessage(w, _) => Dialled(s, w) && SocketAt(s, w).link.Up?
    case WsOpens(w) => Dialled(s, w) && SocketAt(s, w).link.Dialing?
    case WsCloses(w, _, random) => Dialled(s, w) && !SocketAt(s, w).link.Down? && 0.0 <= random < 1.0
  }

  /** What no driver reports changes nothing. */
  function Step(s: State, ev: Event): (r: State)
    requires WellFormed(s)
    ensures WellFormed(r)
  {
    if !Possible(s, ev) then s else
      match ev
      case Connects => Connect(s)
      case Closes => Close(s)
      case TokenArrives(k, token) => OnToken(s, k, token)
      case TokenFails(k) => OnTokenFailed(s, k)
      case TimerFires(t) => OnReconnectTimer(s, t)
      case QuicTimerFires(a) => OnQuicTimer(s, a)
      case QuicResolves(a) => OnQuicResolved(s, a)
      case QuicRejects(a) => OnQuicRejected(s, a)
      case QuicFrame(a, frame) => OnQuicFrame(s, a, frame)
      case QuicClosed(a, authFailed, random) => OnQuicClosed(s, a, authFailed, random)
      case WsMessage(w, text) => OnWsMessage(s, w, text)
      case WsOpens(w) => OnWsOpen(s, w)
      case WsCloses(w, code, random) => OnWsClose(s, w, code, random)
  }

  function Exec(s: State, events: seq<Event>): (r: State)
    requires WellFormed(s)
    ensures WellFormed(r)
  {
    if events == [] then s
    else
      var before := Exec(s, events[..|events| - 1]);
      Step(before, events[|events| - 1])
  }
}
