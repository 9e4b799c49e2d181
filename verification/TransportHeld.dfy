/** What the store still holds of connections it no longer uses: where `send` goes while not connected,
    and which connections a superseded generation leaves open. */
module TransportHeld {
  import opened Wrappers
  import opened Transport
  import opened TransportRuns
  import opened TransportWinner

  // ----- Sending

  /** The socket held is the one dialled by the attempt in use, or an earlier generation's. */
  ghost predicate HeldOk(s: State) {
    s.socket.Some? ==>
      var w := s.socket.value;
      && w.attempt < |s.attempts|
      && (s.attempts[w.attempt].generation < s.generation
          || (w == SocketName(|s.attempts| - 1, 0) && (Trying(s) || s.active == Some(Ws))))
  }

  /** The store holds a socket of a generation gone by. */
  predicate HoldsSuperseded(s: State) {
    && s.socket.Some? && s.socket.value.attempt < |s.attempts|
    && s.attempts[s.socket.value.attempt].generation < s.generation
  }

  lemma StartHeld()
    ensures HeldOk(START)
  {
  }

  /** While a token of the generation is awaited no attempt is in use. */
  lemma AwaitedAlone(s: State, k: nat)
    requires Inv(s) && k < |s.fetches| && s.fetches[k] == Fetch(s.generation, Asked)
    ensures !Busy(s)
  {
    assert Fetching(s);
  }

  lemma CallHeld(s: State, ev: Event)
    requires WellFormed(s) && Inv(s) && HeldOk(s) && (ev.Connects? || ev.Closes?)
    ensures HeldOk(Step(s, ev))
  {
    hide WellFormed, Close, AttemptsOk, OthersFinished, TimersOk, FetchesOk, Progress;
    CloseSets(s);
    if s.socket.Some? { AttemptFacts(s, s.socket.value.attempt); }
  }

  lemma DialHeld(s: State, ev: Event)
    requires WellFormed(s) && Inv(s) && HeldOk(s) && Expected(s, ev)
    requires ev.QuicTimerFires? || ev.QuicResolves? || ev.QuicRejects?
    ensures HeldOk(Step(s, ev))
  {
    hide WellFormed, Connect, Close, OnToken, OnReconnectTimer, OnWsOpen, OnQuicClosed, OnWsClose, AttemptsOk, NotAhead,
         OthersFinished, TimersOk, FetchesOk, Progress;
    SocketDialled(s);
    if Possible(s, ev) { AttemptFacts(s, ev.attempt); }
  }

  lemma ReportHeld(s: State, ev: Event)
    requires WellFormed(s) && Inv(s) && HeldOk(s)
    requires ev.TokenArrives? || ev.TokenFails? || ev.TimerFires? || ev.QuicFrame? || ev.WsMessage? || ev.WsOpens?
    ensures HeldOk(Step(s, ev))
  {
    hide WellFormed, Connect, Close, OnQuicTimer, OnQuicResolved, OnQuicRejected, OnQuicClosed, OnWsClose, AttemptsOk, NotAhead,
         OthersFinished, TimersOk, FetchesOk, Progress;
    SocketDialled(s);
    if Possible(s, ev) {
      match ev
      case TokenArrives(k, _) => if s.fetches[k].generation == s.generation { AwaitedAlone(s, k); }
      case WsOpens(w) => AttemptFacts(s, w.attempt);
      case _ =>
    }
  }

  lemma QuicCloseHeld(s: State, a: nat, authFailed: bool, random: real)
    requires WellFormed(s) && Inv(s) && HeldOk(s) && Possible(s, QuicClosed(a, authFailed, random))
    requires Expected(s, QuicClosed(a, authFailed, random))
    ensures HeldOk(OnQuicClosed(s, a, authFailed, random))
  {
    hide WellFormed, AttemptsOk, OthersFinished, TimersOk, FetchesOk, Progress, WithJitter;
    AttemptFacts(s, a);
  }

  lemma WsCloseHeld(s: State, w: SocketName, code: int, random: real)
    requires WellFormed(s) && Inv(s) && HeldOk(s) && Possible(s, WsCloses(w, code, random))
    ensures HeldOk(OnWsClose(s, w, code, random))
  {
    hide WellFormed, AttemptsOk, OthersFinished, TimersOk, FetchesOk, Progress, WithJitter;
    AttemptFacts(s, w.attempt);
  }

  lemma StepHeld(s: State, ev: Event)
    requires WellFormed(s) && Inv(s) && HeldOk(s) && Expected(s, ev)
    ensures HeldOk(Step(s, ev))
  {
    hide WellFormed, Inv, HeldOk, Expected, OnQuicClosed, OnWsClose;
    match ev
    case Connects => CallHeld(s, ev);
    case Closes => CallHeld(s, ev);
    case QuicClosed(a, authFailed, random) => if Possible(s, ev) { QuicCloseHeld(s, a, authFailed, random); }
    case WsCloses(w, code, random) => if Possible(s, ev) { WsCloseHeld(s, w, code, random); }
    case QuicTimerFires(_) => DialHeld(s, ev);
    case QuicResolves(_) => DialHeld(s, ev);
    case QuicRejects(_) => DialHeld(s, ev);
    case _ => ReportHeld(s, ev);
  }

  lemma {:induction false} ExecHeld(events: seq<Event>)
    requires ExpectedRun(events)
    ensures HeldOk(Exec(START, events))
  {
    hide Step, Inv, HeldOk, Expected;
    if events == [] {
      StartHeld();
    } else {
      ExecHeld(events[..|events| - 1]);
      ExecInv(events[..|events| - 1]);
      StepHeld(Exec(START, events[..|events| - 1]), events[|events| - 1]);
    }
  }

  /** While not connected, a frame is handed somewhere exactly when the attempt under way is undecided
      and has dialled WS, or the socket of a superseded generation is still held; and to that one. */
  lemma SendsUnconnectedIff(events: seq<Event>)
    requires ExpectedRun(events) && Exec(START, events).status != Connected
    ensures var s := Exec(START, events);
            && (SendTarget(s) != Nowhere <==> (Trying(s) && Last(s).sockets != []) || HoldsSuperseded(s))
            && (Trying(s) && Last(s).sockets != [] ==> SendTarget(s) == ToSocket(SocketName(|s.attempts| - 1, 0)))
            && (HoldsSuperseded(s) ==> SendTarget(s) == ToSocket(s.socket.value))
  {
    hide Exec, AttemptsOk, NotAhead, OthersFinished, TimersOk, FetchesOk;
    ExecInv(events);
    ExecHeld(events);
  }

  /** The input: the QUIC timer has just dialled WS, and a frame goes to the socket that is dialling. */
  lemma SendsWhileConnecting()
    ensures var s := Exec(BEGUN, [QuicTimerFires(0)]);
            s.status == Connecting && SendTarget(s) == ToSocket(SocketName(0, 0)) && SocketAt(s, SocketName(0, 0)).link == Dialing
  {
    var events := [QuicTimerFires(0)];
    BegunIsReached();
    ExecNext(BEGUN, events, 0);
    assert events[..0] == [] && events[..1] == events;
    assert Step(BEGUN, events[0]).attempts[0].sockets == [Socket(Dialing, false)];
  }

  // ----- Superseded generations

  ghost predicate LeavesOpen(s: State, s': State) {
    || (exists w: SocketName :: OfGeneration(s, w.attempt) && LiveSocket(s', w))
    || (exists a: nat :: OfGeneration(s, a) && LiveQuic(s', a))
  }

  /** `connect` closes nothing: it leaves a connection of the generation it supersedes open exactly when
      the store was connected. `close` leaves none open. */
  lemma SupersededLeftOpenIff(s: State)
    requires WellFormed(s) && Inv(s)
    ensures Connect(s).attempts == s.attempts
    ensures LeavesOpen(s, Connect(s)) <==> s.status == Connected
    ensures !LeavesOpen(s, Close(s))
  {
    hide WellFormed, Inv, Close, Connect;
    WinnerIsLiveIn(s);
    ConnectKeepsAttempts(s);
    if s.active.Some? {
      var a: nat := |s.attempts| - 1;
      if s.active == Some(Ws) { assert OfGeneration(s, a) && LiveSocket(Connect(s), SocketName(a, 0)); }
      else { assert OfGeneration(s, a) && LiveQuic(Connect(s), a); }
    }
    forall w: SocketName ensures !(OfGeneration(s, w.attempt) && LiveSocket(Close(s), w)) { CloseOnSocket(s, w); }
    forall a: nat ensures !(OfGeneration(s, a) && LiveQuic(Close(s), a)) { CloseOnQuic(s, a); }
  }

  lemma ConnectKeepsAttempts(s: State)
    requires WellFormed(s)
    ensures Connect(s).attempts == s.attempts
  {
  }

  /** `close` tells the socket it holds to close, and no other. */
  lemma CloseOnSocket(s: State, w: SocketName)
    requires WellFormed(s)
    ensures Dialled(Close(s), w) <==> Dialled(s, w)
    ensures Dialled(s, w) ==> SocketAt(Close(s), w) == if s.socket == Some(w) then SocketAt(s, w).(closed := true) else SocketAt(s, w)
  {
  }

  lemma CloseOnQuic(s: State, a: nat)
    requires WellFormed(s)
    ensures |Close(s).attempts| == |s.attempts|
    ensures a < |s.attempts| ==>
              && Close(s).attempts[a].quic == s.attempts[a].quic
              && Close(s).attempts[a].quicClosed == (s.attempts[a].quicClosed || s.quicConnection == Some(a))
  {
  }

  /** What is up in an attempt stays as open, or as closed, as it was. */
  ghost predicate UpKept(at: Attempt, at': Attempt) {
    && (at.quic.Open? ==> at'.quicClosed == at.quicClosed)
    && |at.sockets| <= |at'.sockets|
    && (forall n :: 0 <= n < |at.sockets| && at.sockets[n].link.Up? ==> at'.sockets[n].closed == at.sockets[n].closed)
  }

  lemma QuicReportsKeep(s: State, a: nat, ev: Event)
    requires WellFormed(s) && Possible(s, ev) && a < |s.attempts| && s.attempts[a].generation != s.generation
    requires ev.QuicTimerFires? || ev.QuicResolves? || ev.QuicRejects? || ev.QuicClosed?
    ensures a < |Step(s, ev).attempts| && UpKept(s.attempts[a], Step(s, ev).attempts[a])
  {
    hide WellFormed, Connect, Close, OnToken, OnReconnectTimer, OnWsOpen, OnWsClose, WithJitter;
  }

  lemma WsReportsKeep(s: State, a: nat, ev: Event)
    requires WellFormed(s) && Possible(s, ev) && a < |s.attempts| && s.attempts[a].generation != s.generation
    requires ev.WsOpens? || ev.WsCloses?
    ensures a < |Step(s, ev).attempts| && UpKept(s.attempts[a], Step(s, ev).attempts[a])
  {
    hide WellFormed, Connect, Close, OnToken, OnReconnectTimer, OnQuicTimer, OnQuicResolved, OnQuicRejected, OnQuicClosed,
         WithJitter;
  }

  /** Nothing but `close` closes a connection of a superseded generation that is up already. */
  lemma SupersededKept(s: State, a: nat, ev: Event)
    requires WellFormed(s) && a < |s.attempts| && s.attempts[a].generation != s.generation && ev != Closes
    ensures a < |Step(s, ev).attempts| && UpKept(s.attempts[a], Step(s, ev).attempts[a])
  {
    hide WellFormed, Close, OnQuicTimer, OnQuicResolved, OnQuicRejected, OnQuicClosed, OnWsOpen, OnWsClose;
    if Possible(s, ev) {
      if ev.WsOpens? || ev.WsCloses? { WsReportsKeep(s, a, ev); }
      if ev.QuicTimerFires? || ev.QuicResolves? || ev.QuicRejects? || ev.QuicClosed? { QuicReportsKeep(s, a, ev); }
    }
  }

  /** A live socket of a superseded generation is told to close by `close` alone, and only while the
      store still holds it. */
  lemma SupersededSocketClosedIff(s: State, w: SocketName, ev: Event)
    requires WellFormed(s) && LiveSocket(s, w) && s.attempts[w.attempt].generation != s.generation
    ensures Dialled(Step(s, ev), w) && (SocketAt(Step(s, ev), w).closed <==> ev == Closes && s.socket == Some(w))
  {
    hide WellFormed, Close;
    if ev == Closes { CloseOnSocket(s, w); } else { hide Step; SupersededKept(s, w.attempt, ev); }
  }

  /** And so is a QUIC connection. */
  lemma SupersededQuicClosedIff(s: State, a: nat, ev: Event)
    requires WellFormed(s) && LiveQuic(s, a) && s.attempts[a].generation != s.generation
    ensures a < |Step(s, ev).attempts| && (Step(s, ev).attempts[a].quicClosed <==> ev == Closes && s.quicConnection == Some(a))
  {
    hide WellFormed, Close;
    if ev == Closes { CloseOnQuic(s, a); } else { hide Step; SupersededKept(s, a, ev); }
  }
}
