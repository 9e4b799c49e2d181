/** What each event does to each variable of the store (apps/mobile/src/transport/store.ts), told by
    variable and not by handler: when the variable changes, and to what. The cases are stated over
    the state before the event and name no handler.
 */
module TransportEffects {
  import opened Wrappers
  import opened Transport
  import opened TransportRuns
  import opened TransportWinner

  // ----- What an event is, where it happens

  /** The attempt under way in an open store. */
  predicate Current(s: State, a: nat) {
    !s.closed && a + 1 == |s.attempts| && s.attempts[a].generation == s.generation
  }

  /** The store's QUIC connection is the attempt's, or both are still missing. */
  predicate Heard(s: State, a: nat) {
    && !s.closed && a < |s.attempts| && s.attempts[a].generation == s.generation
    && s.quicConnection == if s.attempts[a].quic == Pending || s.attempts[a].quic == Rejected then None else Some(a)
  }

  /** A frame that reaches the reader. */
  function FrameShown(s: State, ev: Event): Option<string> {
    match ev
    case WsMessage(w, text) =>
      if Possible(s, ev) && Current(s, w.attempt) && !s.attempts[w.attempt].wsDiscarded then text else None
    case QuicFrame(a, frame) => if Possible(s, ev) && Heard(s, a) then Some(frame) else None
    case _ => None
  }

  /** The connection that comes up decides its attempt. */
  predicate Wins(s: State, ev: Event, carrier: Carrier) {
    match ev
    case QuicResolves(a) => carrier == Quic && Possible(s, ev) && Current(s, a) && !s.attempts[a].settled
    case WsOpens(w) => carrier == Ws && Possible(s, ev) && Current(s, w.attempt) && !s.attempts[w.attempt].settled
    case _ => false
  }

  /** A connection that counts is lost, or never came up. */
  predicate Drops(s: State, ev: Event) {
    match ev
    case WsCloses(w, _, _) => Possible(s, ev) && Current(s, w.attempt) && !s.attempts[w.attempt].wsDiscarded
    case QuicClosed(a, _, _) => Possible(s, ev) && Heard(s, a)
    case _ => false
  }

  predicate SaysUnauthorized(ev: Event) {
    match ev
    case WsCloses(_, code, _) => code == 4001
    case QuicClosed(_, authFailed, _) => authFailed
    case _ => false
  }

  predicate Retries(s: State, ev: Event) { Drops(s, ev) && !SaysUnauthorized(ev) }

  /** The token call of the current generation comes back. */
  predicate Answers(s: State, ev: Event, token: bool) {
    match ev
    case TokenArrives(k, given) =>
      given == token && Possible(s, ev) && !s.closed && s.fetches[k].generation == s.generation
    case _ => false
  }

  predicate AsksToken(s: State, ev: Event) {
    match ev
    case Connects => true
    case TimerFires(t) => Possible(s, ev) && !s.closed && s.timers[t].generation == s.generation
    case _ => false
  }

  predicate DialsWs(s: State, ev: Event) {
    match ev
    case QuicTimerFires(a) => Possible(s, ev) && Current(s, a) && !s.attempts[a].settled
    case QuicRejects(a) => Possible(s, ev) && Current(s, a) && !s.attempts[a].settled
    case _ => false
  }

  // ----- The variables

  /** What a reader sees. */
  ghost predicate Shows(s: State, ev: Event, s': State) {
    && s'.status == (if ev == Connects then Connecting
                     else if ev == Closes || Answers(s, ev, false) || (Drops(s, ev) && SaysUnauthorized(ev)) then Disconnected
                     else if Retries(s, ev) then Reconnecting
                     else if Wins(s, ev, Quic) || Wins(s, ev, Ws) then Connected
                     else s.status)
    && s'.active == (if ev == Connects || ev == Closes || Answers(s, ev, false) || Drops(s, ev) then None
                     else if Wins(s, ev, Quic) then Some(Quic)
                     else if Wins(s, ev, Ws) then Some(Ws)
                     else s.active)
    && s'.lastFrame == (if FrameShown(s, ev).Some? then FrameShown(s, ev) else s.lastFrame)
  }

  ghost predicate Counts(s: State, ev: Event, s': State) {
    && s'.closed == (if ev == Connects then false else if ev == Closes then true else s.closed)
    && s'.generation == s.generation + (if ev == Connects || ev == Closes then 1 else 0)
    && s'.backoffMs == (if ev == Connects || Wins(s, ev, Quic) || Wins(s, ev, Ws) then 1000
                        else if !Retries(s, ev) then s.backoffMs
                        else if s.backoffMs <= 15000 then s.backoffMs * 2 else 30000)
  }

  /** The module's own references to connections and timer. */
  ghost predicate Holds(s: State, ev: Event, s': State) {
    && s'.socket == (if DialsWs(s, ev) then Some(SocketName(ev.attempt, |s.attempts[ev.attempt].sockets|))
                     else if ev == Closes then None
                     else if ev.WsCloses? && Possible(s, ev) && s.socket == Some(ev.socket) then None
                     else if Wins(s, ev, Quic) && s.attempts[ev.attempt].sockets != []
                             && s.socket == Some(SocketName(ev.attempt, |s.attempts[ev.attempt].sockets| - 1)) then None
                     else s.socket)
    && s'.quicConnection == (if Wins(s, ev, Quic) then Some(ev.attempt)
                             else if ev == Closes || (ev.QuicClosed? && Drops(s, ev)) then None
                             else s.quicConnection)
    && s'.reconnectTimer == (if Retries(s, ev) then Some(|s.timers|)
                             else if ev == Connects || ev == Closes || (ev.TimerFires? && Possible(s, ev)) then None
                             else s.reconnectTimer)
  }

  /** One token call for every `connect` and every reconnect of the current generation that comes due. */
  ghost predicate Asks(s: State, ev: Event, s': State) {
    && |s'.fetches| == |s.fetches| + (if AsksToken(s, ev) then 1 else 0)
    && (AsksToken(s, ev) ==> s'.fetches[|s.fetches|] == Fetch(s'.generation, Asked))
    && forall k :: 0 <= k < |s.fetches| ==>
         s'.fetches[k] == if Possible(s, ev) && ev.TokenArrives? && ev.fetch == k then s.fetches[k].(call := Given)
                          else if Possible(s, ev) && ev.TokenFails? && ev.fetch == k then s.fetches[k].(call := Thrown)
                          else s.fetches[k]
  }

  /** One timer for every connection lost and not refused. */
  ghost predicate Sets(s: State, ev: Event, s': State) {
    && |s'.timers| == |s.timers| + (if Retries(s, ev) then 1 else 0)
    && (Retries(s, ev) ==>
          s'.timers[|s.timers|] == Timer(s.generation, s.backoffMs as real * (0.8 + 0.4 * ev.random), true))
    && forall t :: 0 <= t < |s.timers| ==>
         s'.timers[t] == if (ev == TimerFires(t) && s.timers[t].due)
                            || ((ev == Connects || ev == Closes) && s.reconnectTimer == Some(t))
                         then s.timers[t].(due := false) else s.timers[t]
  }

  /** What becomes of attempt a. */
  ghost predicate Local(s: State, ev: Event, a: nat, at': Attempt)
    requires a < |s.attempts|
  {
    var at := s.attempts[a];
    && at'.generation == at.generation
    && at'.settled == (at.settled || ((Wins(s, ev, Quic) || Wins(s, ev, Ws)) && a + 1 == |s.attempts|)
                       || (ev.WsCloses? && Drops(s, ev) && ev.socket.attempt == a))
    && at'.wsDiscarded == (at.wsDiscarded || (Wins(s, ev, Quic) && ev.attempt == a && at.sockets != [])
                           || (ev.WsOpens? && Possible(s, ev) && ev.socket.attempt == a && Current(s, a) && at.settled))
    && at'.timerArmed == (at.timerArmed && !(Possible(s, ev) && (ev == QuicTimerFires(a) || ev == QuicResolves(a)
                                                                 || (ev == QuicRejects(a) && Current(s, a)))))
    && at'.quic == (if Possible(s, ev) && ev == QuicResolves(a) then Open
                    else if Possible(s, ev) && ev == QuicRejects(a) then Rejected
                    else if ev.QuicClosed? && Possible(s, ev) && ev.attempt == a && at.quic == Open then Ended
                    else at.quic)
    && at'.quicClosed == (at.quicClosed || (ev == QuicResolves(a) && Possible(s, ev) && !Wins(s, ev, Quic))
                          || (ev == Closes && s.quicConnection == Some(a)))
    && |at'.sockets| == |at.sockets| + (if DialsWs(s, ev) && ev.attempt == a then 1 else 0)
    && (DialsWs(s, ev) && ev.attempt == a ==> at'.sockets[|at.sockets|] == Socket(Dialing, false))
    && forall n :: 0 <= n < |at.sockets| ==> Linked(s, ev, a, n, at'.sockets[n])
  }

  /** What becomes of the nth socket of attempt a. */
  predicate Linked(s: State, ev: Event, a: nat, n: nat, ws: Socket)
    requires a < |s.attempts| && n < |s.attempts[a].sockets|
  {
    var at := s.attempts[a];
    && ws.link == (if ev == WsOpens(SocketName(a, n)) && Possible(s, ev) then Up
                   else if ev.WsCloses? && Possible(s, ev) && ev.socket == SocketName(a, n) then Down
                   else at.sockets[n].link)
    && ws.closed == (at.sockets[n].closed
                     || (ev == WsOpens(SocketName(a, n)) && Possible(s, ev) && !Wins(s, ev, Ws))
                     || (Wins(s, ev, Quic) && ev.attempt == a && n + 1 == |at.sockets| && !at.wsDiscarded)
                     || (ev == Closes && s.socket == Some(SocketName(a, n))))
  }

  /** One attempt for every token of the current generation, and the locals of those there are. */
  ghost predicate Locals(s: State, ev: Event, s': State) {
    && |s'.attempts| == |s.attempts| + (if Answers(s, ev, true) then 1 else 0)
    && (Answers(s, ev, true) ==>
          s'.attempts[|s.attempts|] == Attempt(s.generation, false, [], false, true, Pending, false))
    && forall a :: 0 <= a < |s.attempts| ==> Local(s, ev, a, s'.attempts[a])
  }

  /** The variables. */
  ghost predicate Variables(s: State, ev: Event, s': State) {
    Shows(s, ev, s') && Counts(s, ev, s') && Holds(s, ev, s') && Asks(s, ev, s') && Sets(s, ev, s')
  }

  /** A delay is between 80 and 120 percent of the backoff, evenly with the draw. */
  lemma DelayIs(delayMs: nat, random: real)
    ensures WithJitter(delayMs, random) == delayMs as real * (0.8 + 0.4 * random)
  {
  }

  lemma NothingReported(s: State, ev: Event)
    requires WellFormed(s) && !Possible(s, ev)
    ensures Variables(s, ev, Step(s, ev)) && Locals(s, ev, Step(s, ev))
  {
    hide WellFormed, WithJitter;
  }

  lemma TimingVariables(s: State, ev: Event)
    requires WellFormed(s) && Possible(s, ev) && (ev == Connects || ev == Closes || ev.TokenArrives? || ev.TokenFails? || ev.TimerFires?)
    ensures Variables(s, ev, Step(s, ev))
  {
    hide WellFormed;
  }

  lemma DialVariables(s: State, ev: Event)
    requires WellFormed(s) && Possible(s, ev) && (ev.QuicTimerFires? || ev.QuicResolves? || ev.QuicRejects?)
    ensures Variables(s, ev, Step(s, ev))
  {
    hide WellFormed;
  }

  lemma LinkVariables(s: State, ev: Event)
    requires WellFormed(s) && Possible(s, ev) && (ev.WsOpens? || ev.WsMessage? || ev.QuicFrame?)
    ensures Variables(s, ev, Step(s, ev))
  {
    hide WellFormed;
  }

  lemma QuicClosedVariables(s: State, q: nat, authFailed: bool, random: real)
    requires WellFormed(s) && Possible(s, QuicClosed(q, authFailed, random))
    ensures Variables(s, QuicClosed(q, authFailed, random), Step(s, QuicClosed(q, authFailed, random)))
  {
    hide WellFormed, WithJitter;
    DelayIs(s.backoffMs, random);
  }

  lemma WsCloseVariables(s: State, w: SocketName, code: int, random: real)
    requires WellFormed(s) && Possible(s, WsCloses(w, code, random))
    ensures Variables(s, WsCloses(w, code, random), Step(s, WsCloses(w, code, random)))
  {
    hide WellFormed, WithJitter;
    DelayIs(s.backoffMs, random);
  }

  lemma OtherLocals(s: State, ev: Event)
    requires WellFormed(s) && Possible(s, ev) && (ev == Connects || ev.TokenArrives? || ev.TokenFails? || ev.TimerFires? || ev.WsMessage? || ev.QuicFrame?)
    ensures Locals(s, ev, Step(s, ev))
  {
    hide WellFormed;
  }

  lemma ClosedAttempt(s: State, a: nat)
    requires WellFormed(s) && a < |s.attempts|
    ensures |Close(s).attempts| == |s.attempts|
    ensures Close(s).attempts[a]
            == var at := if s.socket.Some? && s.socket.value.attempt == a then CloseNth(s.attempts[a], s.socket.value.nth) else s.attempts[a];
               if s.quicConnection == Some(a) then at.(quicClosed := true) else at
  {
  }

  lemma CloseLocal(s: State, a: nat)
    requires WellFormed(s) && a < |s.attempts|
    ensures |Step(s, Closes).attempts| == |s.attempts| && Local(s, Closes, a, Step(s, Closes).attempts[a])
  {
    hide Close, ScheduleReconnect;
    ClosedAttempt(s, a);
    assert Step(s, Closes) == Close(s);
  }

  lemma QuicTimerLocal(s: State, q: nat, a: nat)
    requires WellFormed(s) && a < |s.attempts| && Possible(s, QuicTimerFires(q))
    ensures |Step(s, QuicTimerFires(q)).attempts| == |s.attempts| && Local(s, QuicTimerFires(q), a, Step(s, QuicTimerFires(q)).attempts[a])
  {
    hide WellFormed;
  }

  lemma QuicRejectedLocal(s: State, q: nat, a: nat)
    requires WellFormed(s) && a < |s.attempts| && Possible(s, QuicRejects(q))
    ensures |Step(s, QuicRejects(q)).attempts| == |s.attempts| && Local(s, QuicRejects(q), a, Step(s, QuicRejects(q)).attempts[a])
  {
    hide WellFormed;
  }

  lemma QuicResolvedLocal(s: State, q: nat, a: nat)
    requires WellFormed(s) && a < |s.attempts| && Possible(s, QuicResolves(q))
    ensures |Step(s, QuicResolves(q)).attempts| == |s.attempts| && Local(s, QuicResolves(q), a, Step(s, QuicResolves(q)).attempts[a])
  {
    hide WellFormed;
  }

  lemma QuicClosedAttempt(s: State, q: nat, authFailed: bool, random: real)
    requires WellFormed(s) && q < |s.attempts|
    ensures OnQuicClosed(s, q, authFailed, random).attempts
            == if s.attempts[q].quic.Open? then s.attempts[q := s.attempts[q].(quic := Ended)] else s.attempts
  {
    hide WellFormed, WithJitter;
  }

  lemma QuicClosedLocal(s: State, q: nat, authFailed: bool, random: real, a: nat)
    requires WellFormed(s) && a < |s.attempts| && Possible(s, QuicClosed(q, authFailed, random))
    ensures |Step(s, QuicClosed(q, authFailed, random)).attempts| == |s.attempts| && Local(s, QuicClosed(q, authFailed, random), a, Step(s, QuicClosed(q, authFailed, random)).attempts[a])
  {
    hide WellFormed, OnQuicClosed;
    QuicClosedAttempt(s, q, authFailed, random);
    assert Step(s, QuicClosed(q, authFailed, random)) == OnQuicClosed(s, q, authFailed, random);
  }

  lemma WsOpenLocal(s: State, w: SocketName, a: nat)
    requires WellFormed(s) && a < |s.attempts| && Possible(s, WsOpens(w))
    ensures |Step(s, WsOpens(w)).attempts| == |s.attempts| && Local(s, WsOpens(w), a, Step(s, WsOpens(w)).attempts[a])
  {
    hide WellFormed;
  }

  lemma WsClosedAttempt(s: State, w: SocketName, code: int, random: real)
    requires WellFormed(s) && Dialled(s, w)
    ensures OnWsClose(s, w, code, random).attempts
            == s.attempts[w.attempt := var at := SetLink(s.attempts[w.attempt], w.nth, Down);
                                       if Stale(s, w.attempt) || at.wsDiscarded then at else at.(settled := true)]
  {
    hide WellFormed, WithJitter;
  }

  lemma WsCloseLocal(s: State, w: SocketName, code: int, random: real, a: nat)
    requires WellFormed(s) && a < |s.attempts| && Possible(s, WsCloses(w, code, random))
    ensures |Step(s, WsCloses(w, code, random)).attempts| == |s.attempts| && Local(s, WsCloses(w, code, random), a, Step(s, WsCloses(w, code, random)).attempts[a])
  {
    hide WellFormed, OnWsClose;
    WsClosedAttempt(s, w, code, random);
    assert Step(s, WsCloses(w, code, random)) == OnWsClose(s, w, code, random);
  }

  /** Every step does exactly what is described, to every variable and to the locals of every attempt. */
  lemma StepExactly(s: State, ev: Event)
    requires WellFormed(s)
    ensures Variables(s, ev, Step(s, ev)) && Locals(s, ev, Step(s, ev))
  {
    hide WellFormed, Step, Shows, Counts, Holds, Asks, Sets, Local;
    if !Possible(s, ev) {
      NothingReported(s, ev);
    } else {
      StepVariables(s, ev);
      StepLocals(s, ev);
    }
  }

  lemma StepVariables(s: State, ev: Event)
    requires WellFormed(s) && Possible(s, ev)
    ensures Variables(s, ev, Step(s, ev))
  {
    hide WellFormed, Step, Variables, Possible;
    match ev
    case Connects | Closes => TimingVariables(s, ev);
    case TokenArrives(_, _) => TimingVariables(s, ev);
    case TokenFails(_) => TimingVariables(s, ev);
    case TimerFires(_) => TimingVariables(s, ev);
    case QuicTimerFires(_) => DialVariables(s, ev);
    case QuicResolves(_) => DialVariables(s, ev);
    case QuicRejects(_) => DialVariables(s, ev);
    case QuicFrame(_, _) => LinkVariables(s, ev);
    case QuicClosed(q, authFailed, random) => QuicClosedVariables(s, q, authFailed, random);
    case WsMessage(_, _) => LinkVariables(s, ev);
    case WsOpens(_) => LinkVariables(s, ev);
    case WsCloses(w, code, random) => WsCloseVariables(s, w, code, random);
  }

  lemma StepLocals(s: State, ev: Event)
    requires WellFormed(s) && Possible(s, ev)
    ensures Locals(s, ev, Step(s, ev))
  {
    hide WellFormed, Step, Local, Possible;
    if ev == Connects || ev.TokenArrives? || ev.TokenFails? || ev.TimerFires? || ev.WsMessage? || ev.QuicFrame? {
      OtherLocals(s, ev);
    } else {
      SameCount(s, ev);
      forall a | 0 <= a < |s.attempts| ensures Local(s, ev, a, Step(s, ev).attempts[a]) {
        match ev
        case Closes => CloseLocal(s, a);
        case QuicTimerFires(q) => QuicTimerLocal(s, q, a);
        case QuicResolves(q) => QuicResolvedLocal(s, q, a);
        case QuicRejects(q) => QuicRejectedLocal(s, q, a);
        case QuicClosed(q, authFailed, random) => QuicClosedLocal(s, q, authFailed, random, a);
        case WsOpens(w) => WsOpenLocal(s, w, a);
        case WsCloses(w, code, random) => WsCloseLocal(s, w, code, random, a);
        case _ =>
      }
    }
  }

  lemma SameCount(s: State, ev: Event)
    requires WellFormed(s) && Possible(s, ev)
    requires ev == Closes || ev.QuicTimerFires? || ev.QuicResolves? || ev.QuicRejects? || ev.QuicClosed? || ev.WsOpens? || ev.WsCloses?
    ensures |Step(s, ev).attempts| == |s.attempts|
  {
    hide WellFormed, WithJitter;
  }

  /** And the description leaves nothing open: it is met by one state only. */
  lemma DescribedIff(s: State, ev: Event, s': State)
    requires WellFormed(s)
    ensures s' == Step(s, ev) <==> Variables(s, ev, s') && Locals(s, ev, s')
  {
    hide WellFormed, Step, Possible;
    StepExactly(s, ev);
    if Variables(s, ev, s') && Locals(s, ev, s') {
      OneState(s, ev, s', Step(s, ev));
    }
  }

  lemma OneState(s: State, ev: Event, r: State, r': State)
    requires Variables(s, ev, r) && Locals(s, ev, r) && Variables(s, ev, r') && Locals(s, ev, r')
    ensures r == r'
  {
    hide Possible, Wins, Drops, Retries, Answers, AsksToken, DialsWs, FrameShown, Local;
    assert r.fetches == r'.fetches;
    assert r.timers == r'.timers;
    forall a | 0 <= a < |s.attempts| ensures r.attempts[a] == r'.attempts[a] {
      OneLocal(s, ev, a, r.attempts[a], r'.attempts[a]);
    }
    assert r.attempts == r'.attempts;
  }

  lemma OneLocal(s: State, ev: Event, a: nat, at: Attempt, at': Attempt)
    requires a < |s.attempts| && Local(s, ev, a, at) && Local(s, ev, a, at')
    ensures at == at'
  {
    hide Possible, Wins, Drops, Retries, Answers, AsksToken, DialsWs, FrameShown;
    forall n | 0 <= n < |s.attempts[a].sockets| ensures at.sockets[n] == at'.sockets[n] {
      assert Linked(s, ev, a, n, at.sockets[n]) && Linked(s, ev, a, n, at'.sockets[n]);
    }
    assert at.sockets == at'.sockets;
  }

  // ----- Frames over whole runs

  /** The last frame of a run that reached the reader. */
  function LastShown(events: seq<Event>): Option<string> {
    if events == [] then None
    else
      var (init, last) := (events[..|events| - 1], events[|events| - 1]);
      if FrameShown(Exec(START, init), last).Some? then FrameShown(Exec(START, init), last) else LastShown(init)
  }

  lemma {:induction false} LastFrameIs(events: seq<Event>)
    ensures Exec(START, events).lastFrame == LastShown(events)
  {
    hide Step, FrameShown;
    if events != [] {
      LastFrameIs(events[..|events| - 1]);
      StepExactly(Exec(START, events[..|events| - 1]), events[|events| - 1]);
    }
  }

  /** A frame reported by a live connection of the current generation. */
  function FrameOfLive(s: State, ev: Event): Option<string> {
    match ev
    case WsMessage(w, text) => if OfGeneration(s, w.attempt) && LiveSocket(s, w) then text else None
    case QuicFrame(a, frame) => if OfGeneration(s, a) && LiveQuic(s, a) then Some(frame) else None
    case _ => None
  }

  /** In every expected run, a frame of the one live connection reaches the reader. */
  lemma LiveFramesAreShown(events: seq<Event>, ev: Event)
    requires ExpectedRun(events) && FrameOfLive(Exec(START, events), ev).Some?
    ensures Step(Exec(START, events), ev).lastFrame == FrameOfLive(Exec(START, events), ev)
  {
    hide Step, Exec, Inv;
    var s := Exec(START, events);
    ExecInv(events);
    LiveIsHeard(s, ev);
    StepExactly(s, ev);
  }

  lemma LiveIsHeard(s: State, ev: Event)
    requires Inv(s) && FrameOfLive(s, ev).Some?
    ensures FrameShown(s, ev) == FrameOfLive(s, ev)
  {
    hide TimersOk, FetchesOk, Progress;
    WinnerIsLiveIn(s);
    match ev
    case WsMessage(w, _) => AttemptFacts(s, w.attempt);
    case QuicFrame(a, _) => AttemptFacts(s, a);
  }
}
