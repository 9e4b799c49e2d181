/** Who wins an attempt, and what a generation's attempts leave behind.

    All of this holds as long as every event is `Expected` where it happens, and no longer: two
    reports break it. One is a QUIC rejection for an undecided attempt that has dialled WS already.
    The other is a QUIC close that reaches the store for a connection it does not have yet, through
    a guard that compares null with null. SafeIff says that these are all there is.
 */
module TransportWinner {
  import opened Wrappers
  import opened Transport
  import opened TransportRuns

  predicate Resolved(at: Attempt) { at.quic.Open? || at.quic.Ended? }

  /** Something will report: a timer, a token call, or the attempt under way; or the store has a
      connection. */
  predicate Occupied(s: State) { Busy(s) || Waiting(s) || Fetching(s) }

  /** A close reported for a QUIC dial that has not resolved, which no guard stops. It does harm
      wherever there is something to disturb, and where the store has disconnected, unless it says
      what the store shows already. */
  predicate ClosesEarly(s: State, ev: Event) {
    match ev
    case QuicClosed(a, authFailed, _) =>
      && Possible(s, ev) && !Resolved(s.attempts[a]) && !Ignored(s, a)
      && (Occupied(s) || (s.status == Disconnected && !authFailed))
    case _ => false
  }

  predicate Expected(s: State, ev: Event) { !DialsAgain(s, ev) && !ClosesEarly(s, ev) }

  /** A run from s in which every event is expected where it happens. */
  predicate ExpectedFrom(s: State, events: seq<Event>)
    requires WellFormed(s)
  {
    if events == [] then true
    else
      ExpectedFrom(s, events[..|events| - 1]) && Expected(Exec(s, events[..|events| - 1]), events[|events| - 1])
  }

  predicate ExpectedRun(events: seq<Event>) { ExpectedFrom(START, events) }

  // ----- The invariant

  /** The attempt under way is of the current generation; a closed store has none. */
  predicate UnderWay(s: State) {
    s.attempts != [] && s.attempts[|s.attempts| - 1].generation == s.generation
  }

  function Last(s: State): Attempt
    requires s.attempts != []
  {
    s.attempts[|s.attempts| - 1]
  }

  predicate Trying(s: State) { UnderWay(s) && !Last(s).settled }

  predicate InUse(s: State, a: nat) {
    a + 1 == |s.attempts| && (Trying(s) || s.status == Connected)
  }

  /** An attempt with nothing left that is up or coming up unless told to close. */
  ghost predicate Finished(at: Attempt) {
    && at.settled && (at.quic.Open? ==> at.quicClosed)
    && forall n :: 0 <= n < |at.sockets| ==> at.sockets[n].link.Down? || (at.sockets[n].closed && at.wsDiscarded)
  }

  ghost predicate NotAhead(s: State) {
    && (forall a :: 0 <= a < |s.attempts| ==> Past(s, s.attempts[a].generation))
    && (forall k :: 0 <= k < |s.fetches| ==> Past(s, s.fetches[k].generation))
  }

  predicate Past(s: State, generation: nat) { generation < s.generation || (generation == s.generation && !s.closed) }

  ghost predicate OthersFinished(s: State) {
    forall a :: 0 <= a < |s.attempts| && s.attempts[a].generation == s.generation && !InUse(s, a) ==>
      Finished(s.attempts[a]) && s.quicConnection != Some(a)
  }

  ghost predicate TryingOk(s: State) {
    Trying(s) ==>
      var at := Last(s);
      && (s.status == Connecting || s.status == Reconnecting)
      && (at.quic.Pending? || (at.quic.Rejected? && at.sockets != []))
      && |at.sockets| <= 1 && !at.wsDiscarded && !at.quicClosed && s.quicConnection != Some(|s.attempts| - 1)
      && (at.sockets != [] ==> at.sockets[0] == Socket(Dialing, false) && s.socket == Some(SocketName(|s.attempts| - 1, 0)))
  }

  ghost predicate WsWon(s: State, at: Attempt, a: nat) {
    && |at.sockets| == 1 && at.sockets[0] == Socket(Up, false) && !at.wsDiscarded
    && s.socket == Some(SocketName(a, 0))
    && (at.quic.Open? ==> at.quicClosed) && s.quicConnection != Some(a)
  }

  ghost predicate QuicWon(s: State, at: Attempt, a: nat) {
    && at.quic.Open? && !at.quicClosed && s.quicConnection == Some(a)
    && |at.sockets| <= 1 && (at.sockets != [] ==> at.sockets[0].link.Down? || (at.sockets[0].closed && at.wsDiscarded))
  }

  /** While connected, the carrier shown is that of the attempt under way and holds its one live
      connection. */
  ghost predicate ConnectedOk(s: State) {
    if s.status == Connected then
      && UnderWay(s) && Last(s).settled
      && (match s.active
          case Some(Ws) => WsWon(s, Last(s), |s.attempts| - 1)
          case Some(Quic) => QuicWon(s, Last(s), |s.attempts| - 1)
          case None => false)
    else s.active == None
  }

  predicate Busy(s: State) { Trying(s) || s.status == Connected }

  predicate Fetching(s: State) {
    s.fetches != [] && s.fetches[|s.fetches| - 1] == Fetch(s.generation, Asked)
  }

  predicate Waiting(s: State) {
    s.reconnectTimer.Some? && s.reconnectTimer.value < |s.timers| && s.timers[s.reconnectTimer.value].due
  }

  ghost predicate TimersOk(s: State) {
    && (forall t :: 0 <= t < |s.timers| && s.timers[t].due ==> s.reconnectTimer == Some(t))
    && (Waiting(s) ==> s.timers[s.reconnectTimer.value].generation == s.generation
                       && !s.closed && s.status == Reconnecting && !Busy(s) && !Fetching(s))
  }

  /** The generation's latest token call was rejected. */
  predicate Abandoned(s: State) {
    s.fetches != [] && s.fetches[|s.fetches| - 1] == Fetch(s.generation, Thrown)
  }

  ghost predicate FetchesOk(s: State) {
    && (forall k :: 0 <= k < |s.fetches| && s.fetches[k] == Fetch(s.generation, Asked) ==> k + 1 == |s.fetches|)
    && (Fetching(s) ==> s.status == Connecting || s.status == Reconnecting)
    && (Fetching(s) || Abandoned(s) ==> !Busy(s))
  }

  /** A store that says it is connecting is waiting for something that will be reported, or for
      nothing after its latest token call was rejected. */
  ghost predicate Progress(s: State) {
    s.status == Connecting || s.status == Reconnecting ==>
      !s.closed && (Waiting(s) || Fetching(s) || Trying(s) || Abandoned(s))
  }

  ghost predicate Inv(s: State) {
    && AttemptsOk(s) && NotAhead(s) && OthersFinished(s) && TryingOk(s) && ConnectedOk(s)
    && TimersOk(s) && FetchesOk(s) && Progress(s)
  }

  // ----- Every handler keeps it

  /** What the invariant says of one attempt. */
  lemma AttemptFacts(s: State, a: nat)
    requires AttemptsOk(s) && NotAhead(s) && OthersFinished(s) && a < |s.attempts|
    ensures AttemptOk(s.attempts[a]) && Past(s, s.attempts[a].generation)
    ensures s.attempts[a].generation == s.generation && !InUse(s, a) ==>
              Finished(s.attempts[a]) && s.quicConnection != Some(a)
  {
    hide AttemptOk, Finished;
  }

  /** A step that changes one attempt leaves the others as they should be. */
  lemma AttemptChanged(s: State, s': State, a: nat)
    requires AttemptsOk(s) && NotAhead(s) && OthersFinished(s)
    requires a < |s.attempts| == |s'.attempts| && s'.attempts == s.attempts[a := s'.attempts[a]]
    requires s'.attempts[a].generation == s.attempts[a].generation
    requires s'.generation == s.generation && s'.closed == s.closed && s'.fetches == s.fetches
    requires a + 1 == |s.attempts| || s'.status == s.status
    requires s'.quicConnection in {s.quicConnection, None, Some(a)}
    requires AttemptOk(s'.attempts[a])
    requires s.attempts[a].generation == s.generation && !InUse(s', a) ==>
               Finished(s'.attempts[a]) && s'.quicConnection != Some(a)
    ensures AttemptsOk(s') && NotAhead(s') && OthersFinished(s')
  {
    hide AttemptOk, Finished;
  }

  predicate SetsTimer(s: State, s': State) {
    && |s'.timers| == |s.timers| + 1 && s'.timers[..|s.timers|] == s.timers
    && s'.timers[|s.timers|].generation == s.generation && s'.timers[|s.timers|].due
    && s'.reconnectTimer == Some(|s.timers|) && s'.status == Reconnecting
  }

  lemma BusyAlone(s: State)
    requires TimersOk(s) && FetchesOk(s) && Busy(s)
    ensures !Waiting(s) && !Fetching(s) && !Abandoned(s)
  {
  }

  /** A step that asks for no token leaves what is pending as it should be, if it sets a timer only
      when nothing is. */
  lemma PendingKept(s: State, s': State)
    requires TimersOk(s) && FetchesOk(s)
    requires s'.generation == s.generation && s'.closed == s.closed && s'.fetches == s.fetches
    requires Busy(s') ==> Busy(s)
    requires if s'.timers == s.timers then
               s'.reconnectTimer == s.reconnectTimer && (Waiting(s) || Fetching(s) ==> s'.status == s.status)
             else SetsTimer(s, s') && !Waiting(s) && !Fetching(s) && !s.closed && !Busy(s')
    ensures TimersOk(s') && FetchesOk(s')
    ensures s'.timers != s.timers ==> Waiting(s')
    ensures s'.timers == s.timers ==> Waiting(s') == Waiting(s)
    ensures Fetching(s') == Fetching(s) && Abandoned(s') == Abandoned(s)
  {
  }

  lemma ConnectInv(s: State)
    requires WellFormed(s) && Inv(s)
    ensures Inv(Connect(s))
  {
  }

  /** No timer is left due, and everything there was is of a generation gone by. */
  lemma CloseLeaves(s: State)
    requires WellFormed(s) && NotAhead(s) && TimersOk(s)
    ensures NotAhead(Close(s))
    ensures forall t :: 0 <= t < |s.timers| ==> !Close(s).timers[t].due
  {
    hide OthersFinished;
  }

  lemma CloseSets(s: State)
    requires WellFormed(s)
    ensures var s' := Close(s);
            && s'.status == Disconnected && s'.active == None && s'.closed && s'.generation == s.generation + 1
            && s'.fetches == s.fetches && s'.quicConnection == None && s'.reconnectTimer == None && s'.socket == None
            && |s'.timers| == |s.timers|
  {
  }

  lemma CloseInv(s: State)
    requires WellFormed(s) && Inv(s)
    ensures Inv(Close(s))
  {
    hide AttemptOk, Finished, WellFormed, AttemptsOk, TimersOk, Close, Advances;
    CloseSets(s);
    CloseKeeps(s);
    CloseLeaves(s);
    NothingDue(Close(s));
  }

  lemma NothingDue(s: State)
    requires forall t :: 0 <= t < |s.timers| ==> !s.timers[t].due
    ensures TimersOk(s)
  {
  }

  /** A token answered too late, or with null, leaves the attempts alone. */
  lemma NoAttemptInv(s: State, k: nat, token: bool)
    requires WellFormed(s) && Inv(s) && Possible(s, TokenArrives(k, token))
    requires s.closed || s.fetches[k].generation != s.generation || !token
    ensures Inv(OnToken(s, k, token))
  {
    hide AttemptOk, WellFormed, Finished;
  }

  lemma NewAttemptInv(s: State, k: nat)
    requires WellFormed(s) && Inv(s) && Possible(s, TokenArrives(k, true))
    requires !s.closed && s.fetches[k].generation == s.generation
    ensures Inv(OnToken(s, k, true))
  {
    hide AttemptOk, WellFormed, Finished;
    TokenKeeps(s, k, true);
    QuicConnectionNamed(s);
  }

  lemma TokenInv(s: State, k: nat, token: bool)
    requires WellFormed(s) && Inv(s) && Possible(s, TokenArrives(k, token))
    ensures Inv(OnToken(s, k, token))
  {
    hide Inv, OnToken, WellFormed;
    if s.closed || s.fetches[k].generation != s.generation || !token { NoAttemptInv(s, k, token); }
    else { NewAttemptInv(s, k); }
  }

  lemma TokenFailedInv(s: State, k: nat)
    requires WellFormed(s) && Inv(s) && Possible(s, TokenFails(k))
    ensures Inv(OnTokenFailed(s, k))
  {
    hide AttemptOk, Finished, WellFormed;
  }

  lemma QuicConnectionNamed(s: State)
    requires WellFormed(s)
    ensures s.quicConnection.Some? ==> s.quicConnection.value < |s.attempts|
  {
  }

  lemma TimerInv(s: State, t: nat)
    requires WellFormed(s) && Inv(s) && Possible(s, TimerFires(t))
    ensures Inv(OnReconnectTimer(s, t))
  {
  }

  lemma QuicTimerInv(s: State, a: nat)
    requires WellFormed(s) && Inv(s) && Possible(s, QuicTimerFires(a))
    ensures Inv(OnQuicTimer(s, a))
  {
    hide AttemptsOk, NotAhead, OthersFinished, WellFormed, TimersOk, FetchesOk, Waiting, Fetching, Abandoned;
    AttemptFacts(s, a);
    if Busy(s) { BusyAlone(s); }
    AttemptChanged(s, OnQuicTimer(s, a), a);
    PendingKept(s, OnQuicTimer(s, a));
  }

  lemma QuicResolvedInv(s: State, a: nat)
    requires WellFormed(s) && Inv(s) && Possible(s, QuicResolves(a))
    ensures Inv(OnQuicResolved(s, a))
  {
    hide AttemptsOk, NotAhead, OthersFinished, WellFormed, TimersOk, FetchesOk, Waiting, Fetching, Abandoned;
    AttemptFacts(s, a);
    if Busy(s) { BusyAlone(s); }
    AttemptChanged(s, OnQuicResolved(s, a), a);
    PendingKept(s, OnQuicResolved(s, a));
  }

  lemma QuicRejectedInv(s: State, a: nat)
    requires WellFormed(s) && Inv(s) && Possible(s, QuicRejects(a)) && Expected(s, QuicRejects(a))
    ensures Inv(OnQuicRejected(s, a))
  {
    hide AttemptsOk, NotAhead, OthersFinished, WellFormed, TimersOk, FetchesOk, Waiting, Fetching, Abandoned;
    AttemptFacts(s, a);
    if Busy(s) { BusyAlone(s); }
    AttemptChanged(s, OnQuicRejected(s, a), a);
    PendingKept(s, OnQuicRejected(s, a));
  }

  lemma ResolvedClosedInv(s: State, a: nat, authFailed: bool, random: real)
    requires WellFormed(s) && Inv(s) && Possible(s, QuicClosed(a, authFailed, random)) && Resolved(s.attempts[a])
    ensures Inv(OnQuicClosed(s, a, authFailed, random))
  {
    hide AttemptsOk, NotAhead, OthersFinished, WellFormed, TimersOk, FetchesOk, Waiting, Fetching, Abandoned;
    AttemptFacts(s, a);
    if Busy(s) { BusyAlone(s); }
    AttemptChanged(s, OnQuicClosed(s, a, authFailed, random), a);
    PendingKept(s, OnQuicClosed(s, a, authFailed, random));
  }

  /** An early close that is ignored, or says 'disconnected' again, changes nothing; one that reaches a
      store waiting for nothing sets it going again, or disconnects it. */
  lemma EarlyClosedInv(s: State, a: nat, authFailed: bool, random: real)
    requires WellFormed(s) && Inv(s) && Possible(s, QuicClosed(a, authFailed, random)) && !Resolved(s.attempts[a])
    requires Expected(s, QuicClosed(a, authFailed, random))
    ensures Inv(OnQuicClosed(s, a, authFailed, random))
    ensures Ignored(s, a) || s.status == Disconnected ==> OnQuicClosed(s, a, authFailed, random) == s
  {
    hide AttemptOk, Finished, AttemptsOk, NotAhead, WellFormed, TimersOk, FetchesOk, Abandoned, Waiting, Fetching;
    if !Ignored(s, a) {
      SameAttempts(s, OnQuicClosed(s, a, authFailed, random));
      PendingKept(s, OnQuicClosed(s, a, authFailed, random));
    }
  }

  lemma SameAttempts(s: State, s': State)
    requires AttemptsOk(s) && NotAhead(s) && OthersFinished(s)
    requires s'.attempts == s.attempts && s'.generation == s.generation && s'.closed == s.closed && s'.fetches == s.fetches
    requires s'.quicConnection == s.quicConnection && (Busy(s') <==> Busy(s))
    ensures AttemptsOk(s') && NotAhead(s') && OthersFinished(s')
  {
    hide AttemptOk, Finished;
  }

  lemma QuicClosedInv(s: State, a: nat, authFailed: bool, random: real)
    requires WellFormed(s) && Inv(s) && Possible(s, QuicClosed(a, authFailed, random))
    requires Expected(s, QuicClosed(a, authFailed, random))
    ensures Inv(OnQuicClosed(s, a, authFailed, random))
  {
    hide Inv, OnQuicClosed, Expected, WellFormed;
    if Resolved(s.attempts[a]) { ResolvedClosedInv(s, a, authFailed, random); }
    else { EarlyClosedInv(s, a, authFailed, random); }
  }

  lemma WsOpenInv(s: State, w: SocketName)
    requires WellFormed(s) && Inv(s) && Possible(s, WsOpens(w))
    ensures Inv(OnWsOpen(s, w))
  {
    hide AttemptsOk, NotAhead, OthersFinished, WellFormed, TimersOk, FetchesOk, Waiting, Fetching, Abandoned;
    AttemptFacts(s, w.attempt);
    if Busy(s) { BusyAlone(s); }
    AttemptChanged(s, OnWsOpen(s, w), w.attempt);
    PendingKept(s, OnWsOpen(s, w));
  }

  lemma IgnoredWsCloseInv(s: State, w: SocketName, code: int, random: real)
    requires WellFormed(s) && Inv(s) && Possible(s, WsCloses(w, code, random))
    requires Stale(s, w.attempt) || s.attempts[w.attempt].wsDiscarded
    ensures Inv(OnWsClose(s, w, code, random))
  {
    hide AttemptsOk, NotAhead, OthersFinished, WellFormed, TimersOk, FetchesOk, Waiting, Fetching, Abandoned;
    AttemptFacts(s, w.attempt);
    if Busy(s) { BusyAlone(s); }
    AttemptChanged(s, OnWsClose(s, w, code, random), w.attempt);
    PendingKept(s, OnWsClose(s, w, code, random));
  }

  lemma HeededWsCloseInv(s: State, w: SocketName, code: int, random: real)
    requires WellFormed(s) && Inv(s) && Possible(s, WsCloses(w, code, random))
    requires !Stale(s, w.attempt) && !s.attempts[w.attempt].wsDiscarded
    ensures Inv(OnWsClose(s, w, code, random))
  {
    hide AttemptsOk, NotAhead, OthersFinished, WellFormed, TimersOk, FetchesOk, Waiting, Fetching, Abandoned, WithJitter;
    AttemptFacts(s, w.attempt);
    if Busy(s) { BusyAlone(s); }
    AttemptChanged(s, OnWsClose(s, w, code, random), w.attempt);
    PendingKept(s, OnWsClose(s, w, code, random));
  }

  lemma WsCloseInv(s: State, w: SocketName, code: int, random: real)
    requires WellFormed(s) && Inv(s) && Possible(s, WsCloses(w, code, random))
    ensures Inv(OnWsClose(s, w, code, random))
  {
    hide Inv, OnWsClose;
    if Stale(s, w.attempt) || s.attempts[w.attempt].wsDiscarded { IgnoredWsCloseInv(s, w, code, random); }
    else { HeededWsCloseInv(s, w, code, random); }
  }

  lemma StepInv(s: State, ev: Event)
    requires WellFormed(s) && Inv(s) && Expected(s, ev)
    ensures Inv(Step(s, ev))
  {
    hide WellFormed, Inv, Expected, Connect, Close, OnToken, OnTokenFailed, OnReconnectTimer, OnQuicTimer, OnQuicResolved, OnQuicRejected,
         OnQuicClosed, OnWsOpen, OnWsClose;
    if Possible(s, ev) {
      match ev
      case Connects => ConnectInv(s);
      case Closes => CloseInv(s);
      case TokenArrives(k, token) => TokenInv(s, k, token);
      case TokenFails(k) => TokenFailedInv(s, k);
      case TimerFires(t) => TimerInv(s, t);
      case QuicTimerFires(a) => QuicTimerInv(s, a);
      case QuicResolves(a) => QuicResolvedInv(s, a);
      case QuicRejects(a) => QuicRejectedInv(s, a);
      case QuicFrame(a, frame) => FrameInv(s, OnQuicFrame(s, a, frame));
      case QuicClosed(a, authFailed, random) => QuicClosedInv(s, a, authFailed, random);
      case WsMessage(w, text) => FrameInv(s, OnWsMessage(s, w, text));
      case WsOpens(w) => WsOpenInv(s, w);
      case WsCloses(w, code, random) => WsCloseInv(s, w, code, random);
    }
  }

  lemma FrameInv(s: State, s': State)
    requires Inv(s) && s' == s.(lastFrame := s'.lastFrame)
    ensures Inv(s')
  {
    hide AttemptOk, Finished;
  }

  lemma StartInv()
    ensures Inv(START)
  {
  }

  lemma {:induction false} ExecInvFrom(s: State, events: seq<Event>)
    requires WellFormed(s) && Inv(s) && ExpectedFrom(s, events)
    ensures Inv(Exec(s, events))
  {
    hide Inv, Step, Expected, WellFormed;
    if events != [] {
      ExecInvFrom(s, events[..|events| - 1]);
      StepInv(Exec(s, events[..|events| - 1]), events[|events| - 1]);
    }
  }

  lemma ExecInv(events: seq<Event>)
    requires ExpectedRun(events)
    ensures Inv(Exec(START, events))
  {
    hide Inv, Exec;
    StartInv();
    ExecInvFrom(START, events);
  }

  // ----- What follows

  predicate LiveSocket(s: State, w: SocketName) {
    Dialled(s, w) && SocketAt(s, w).link.Up? && !SocketAt(s, w).closed
  }

  predicate LiveQuic(s: State, a: nat) {
    a < |s.attempts| && s.attempts[a].quic.Open? && !s.attempts[a].quicClosed
  }

  predicate OfGeneration(s: State, a: nat) {
    a < |s.attempts| && s.attempts[a].generation == s.generation
  }

  /** While connected, the current generation has one live connection, on the carrier shown, of the
      attempt under way, and a frame sent goes there; while not connected it has none. */
  ghost predicate WinnerIsLive(s: State) {
    && (s.status == Connected <==> s.active.Some?)
    && (forall w: SocketName :: OfGeneration(s, w.attempt) && LiveSocket(s, w) <==>
          s.active == Some(Ws) && w.attempt + 1 == |s.attempts| && w.nth == 0)
    && (forall a: nat :: OfGeneration(s, a) && LiveQuic(s, a) <==> s.active == Some(Quic) && a + 1 == |s.attempts|)
    && (s.active.Some? ==>
          && s.attempts != []
          && SendTarget(s) == if s.active.value == Ws then ToSocket(SocketName(|s.attempts| - 1, 0)) else ToQuic(|s.attempts| - 1))
  }

  /** With 'disconnected' shown, nothing is pending that could change it. */
  predicate IdleWhenDisconnected(s: State) {
    s.status == Disconnected ==> !Waiting(s) && !Fetching(s) && !Trying(s)
  }

  lemma WinnerIsLiveIn(s: State)
    requires Inv(s)
    ensures WinnerIsLive(s)
  {
    hide AttemptsOk, NotAhead, OthersFinished, TimersOk, FetchesOk, Progress;
    forall w: SocketName | OfGeneration(s, w.attempt) && LiveSocket(s, w)
      ensures s.active == Some(Ws) && w.attempt + 1 == |s.attempts| && w.nth == 0
    {
      AttemptFacts(s, w.attempt);
    }
    forall a: nat | OfGeneration(s, a) && LiveQuic(s, a) ensures s.active == Some(Quic) && a + 1 == |s.attempts| {
      AttemptFacts(s, a);
    }
  }

  lemma WinnerHolds(events: seq<Event>)
    requires ExpectedRun(events)
    ensures WinnerIsLive(Exec(START, events))
  {
    hide Exec, Inv, WinnerIsLive;
    ExecInv(events);
    WinnerIsLiveIn(Exec(START, events));
  }

  /** Nothing is pending, though the store says it is connecting. */
  predicate Stuck(s: State) {
    (s.status == Connecting || s.status == Reconnecting) && !Waiting(s) && !Fetching(s) && !Trying(s)
  }

  /** A reader who sees 'connecting' or 'reconnecting' is waiting for exactly one of a timer, a token
      and an attempt whose QUIC dial or socket has yet to report; or the generation's latest token
      call was rejected and nothing has set a timer since, and then for nothing. */
  lemma NeverStuck(events: seq<Event>)
    requires ExpectedRun(events)
    ensures var s := Exec(START, events);
            s.status == Connecting || s.status == Reconnecting ==>
              && (Stuck(s) <==> Abandoned(s) && !Waiting(s))
              && (Stuck(s)
                  || (Waiting(s) && !Fetching(s) && !Trying(s) && Possible(s, TimerFires(s.reconnectTimer.value)))
                  || (!Waiting(s) && Fetching(s) && !Trying(s) && Possible(s, TokenArrives(|s.fetches| - 1, true)))
                  || (!Waiting(s) && !Fetching(s) && Trying(s) &&
                      var a := |s.attempts| - 1; Possible(s, QuicResolves(a)) || Possible(s, WsOpens(SocketName(a, 0)))))
  {
    hide Exec, AttemptsOk, NotAhead, OthersFinished;
    ExecInv(events);
  }

  /** Once stuck, a generation stays stuck and begins nothing, short of `connect`, `close` and a close of
      a QUIC dial that never resolved. */
  lemma StuckStays(s: State, ev: Event)
    requires WellFormed(s) && Inv(s) && Expected(s, ev) && Stuck(s)
    requires ev != Connects && ev != Closes && !ev.QuicClosed?
    ensures Stuck(Step(s, ev)) && NothingBegun(s, Step(s, ev))
  {
    hide WellFormed, Inv, Connect, Close, OnQuicClosed;
    StuckIsIdle(s);
  }

  lemma StuckIsIdle(s: State)
    requires Inv(s) && Stuck(s)
    ensures forall t :: 0 <= t < |s.timers| ==> !s.timers[t].due
    ensures forall k :: 0 <= k < |s.fetches| ==> s.fetches[k] != Fetch(s.generation, Asked)
    ensures forall a: nat :: OfGeneration(s, a) ==> Finished(s.attempts[a]) && s.quicConnection != Some(a)
  {
    hide AttemptsOk, NotAhead, Finished;
  }

  /** The run that gets there: the first `getToken()` is rejected. */
  lemma RejectedTokenStrands()
    ensures var s := Exec(START, [Connects, TokenFails(0)]);
            Stuck(s) && s.status == Connecting && ExpectedRun([Connects, TokenFails(0)])
  {
    var events := [Connects, TokenFails(0)];
    assert events[..1] == [Connects] && [Connects][..0] == [];
    assert Step(START, Connects).fetches == [Fetch(1, Asked)];
  }

  lemma DisconnectedIsIdle(s: State)
    requires Inv(s) && s.status == Disconnected
    ensures forall t :: 0 <= t < |s.timers| ==> !s.timers[t].due
    ensures forall k :: 0 <= k < |s.fetches| ==> s.fetches[k] != Fetch(s.generation, Asked)
    ensures forall a: nat :: OfGeneration(s, a) ==> Finished(s.attempts[a]) && s.quicConnection != Some(a)
  {
    hide AttemptsOk, NotAhead, Finished;
    assert !Waiting(s) && !Fetching(s) && !Busy(s);
  }

  lemma StepDisconnected(s: State, ev: Event)
    requires WellFormed(s) && Inv(s) && Expected(s, ev) && s.status == Disconnected && ev != Connects
    ensures Step(s, ev).status == Disconnected && NothingBegun(s, Step(s, ev))
  {
    hide WellFormed, Inv, Close;
    DisconnectedIsIdle(s);
    if ev == Closes { CloseBeginsNothing(s); CloseDisconnects(s); }
  }

  lemma CloseDisconnects(s: State)
    requires WellFormed(s)
    ensures Close(s).status == Disconnected
  {
  }

  /** With 'disconnected' shown, whether the store was closed, refused as unauthorized or left without
      a token, only `connect` changes that: no token is asked for, no timer set, no attempt started
      and no socket dialled until then. */
  lemma {:induction false} DisconnectedUntilConnect(events: seq<Event>, more: seq<Event>)
    requires ExpectedRun(events + more) && Exec(START, events).status == Disconnected && Connects !in more
    ensures Exec(START, events + more).status == Disconnected
    ensures NothingBegun(Exec(START, events), Exec(START, events + more))
  {
    hide Step, Inv, Expected;
    if more == [] {
      assert events + more == events;
    } else {
      var init, last := more[..|more| - 1], more[|more| - 1];
      assert (events + more)[..|events + more| - 1] == events + init;
      DisconnectedUntilConnect(events, init);
      ExecInv(events + init);
      StepDisconnected(Exec(START, events + init), last);
    }
  }

  /** The connection in use is refused as unauthorized. */
  predicate Unauthorized(s: State, ev: Event) {
    match ev
    case WsCloses(w, code, _) =>
      Possible(s, ev) && code == CLOSE_UNAUTHORIZED && !Stale(s, w.attempt) && !s.attempts[w.attempt].wsDiscarded
    case QuicClosed(a, authFailed, _) => Possible(s, ev) && authFailed && !Ignored(s, a)
    case _ => false
  }

  /** An unauthorized close schedules nothing, and nothing happens after it until `connect`. */
  lemma UnauthorizedIsTerminal(events: seq<Event>, ev: Event, more: seq<Event>)
    requires ExpectedRun(events + [ev] + more) && Unauthorized(Exec(START, events), ev) && Connects !in more
    ensures NothingBegun(Exec(START, events), Exec(START, events + [ev] + more))
    ensures Exec(START, events + [ev] + more).status == Disconnected
  {
    var s := Exec(START, events);
    assert (events + [ev])[..|events|] == events;
    UnauthorizedStep(s, ev);
    DisconnectedUntilConnect(events + [ev], more);
  }

  lemma UnauthorizedStep(s: State, ev: Event)
    requires WellFormed(s) && Unauthorized(s, ev)
    ensures Step(s, ev).status == Disconnected && NothingBegun(s, Step(s, ev))
  {
    hide WellFormed;
  }

  // ----- Exactly which events are safe

  /** An event is safe if it does not take the store out of 'disconnected' by itself, and whatever
      expected events follow, there is never a winner that is not the one live connection, nor
      anything pending while the store shows 'disconnected'. */
  ghost predicate Safe(s: State, ev: Event)
    requires WellFormed(s)
  {
    && (s.status == Disconnected && ev != Connects ==> Step(s, ev).status == Disconnected)
    && forall more :: ExpectedFrom(Step(s, ev), more) ==>
         WinnerIsLive(Exec(Step(s, ev), more)) && IdleWhenDisconnected(Exec(Step(s, ev), more))
  }

  lemma ExpectedIsSafe(s: State, ev: Event)
    requires WellFormed(s) && Inv(s) && Expected(s, ev)
    ensures Safe(s, ev)
  {
    hide WellFormed, Inv, Expected, Step, Exec, ExpectedFrom, WinnerIsLive, IdleWhenDisconnected;
    StepInv(s, ev);
    if s.status == Disconnected && ev != Connects { StepDisconnected(s, ev); }
    forall more | ExpectedFrom(Step(s, ev), more)
      ensures WinnerIsLive(Exec(Step(s, ev), more)) && IdleWhenDisconnected(Exec(Step(s, ev), more))
    {
      ExecInvFrom(Step(s, ev), more);
      WinnerIsLiveIn(Exec(Step(s, ev), more));
      DisconnectedIdleIn(Exec(Step(s, ev), more));
    }
  }

  lemma DisconnectedIdleIn(s: State)
    requires Inv(s)
    ensures IdleWhenDisconnected(s)
  {
    hide AttemptsOk, NotAhead, OthersFinished;
  }

  lemma {:induction false} ExpectedFirst(s: State, ev: Event, more: seq<Event>)
    requires WellFormed(s)
    ensures Exec(s, [ev] + more) == Exec(Step(s, ev), more)
    ensures ExpectedFrom(s, [ev] + more) <==> Expected(s, ev) && ExpectedFrom(Step(s, ev), more)
  {
    hide Step, WellFormed, Expected;
    if more == [] {
      assert [ev] + more == [ev] && [ev][..0] == [];
    } else {
      ExpectedFirst(s, ev, more[..|more| - 1]);
      assert ([ev] + more)[..|more|] == [ev] + more[..|more| - 1];
    }
  }

  /** The attempt under way is open to decide, and its dial has yet to report. */
  predicate Deciding(s: State) {
    && !s.closed && UnderWay(s) && !Last(s).settled && !Last(s).quicClosed && !Last(s).wsDiscarded
    && (Last(s).quic.Pending? || (Last(s).sockets != [] && Last(s).sockets[0] == Socket(Dialing, false)))
  }

  /** The attempt under way has a live connection. */
  predicate Won(s: State) {
    !s.closed && UnderWay(s) && (LiveQuic(s, |s.attempts| - 1) || LiveSocket(s, SocketName(|s.attempts| - 1, 0)))
  }

  predicate TimerDue(s: State, t: nat) { t < |s.timers| && s.timers[t].due && s.timers[t].generation == s.generation }

  predicate TokenDue(s: State, k: nat) { k < |s.fetches| && s.fetches[k] == Fetch(s.generation, Asked) }

  lemma TokenOverrunsWinner(s: State, k: nat)
    requires WellFormed(s) && Won(s) && TokenDue(s, k)
    ensures !WinnerIsLive(Step(s, TokenArrives(k, true)))
  {
    hide WellFormed;
    var s' := Step(s, TokenArrives(k, true));
    var a := |s.attempts| - 1;
    if LiveQuic(s, a) { assert OfGeneration(s', a) && LiveQuic(s', a); }
    else { assert OfGeneration(s', a) && LiveSocket(s', SocketName(a, 0)); }
  }

  /** A reconnect that fires while there is a winner brings a second attempt about. */
  lemma TimerOverrunsWinner(s: State, t: nat) returns (more: seq<Event>)
    requires WellFormed(s) && Won(s) && TimerDue(s, t)
    ensures ExpectedFrom(s, more) && !WinnerIsLive(Exec(s, more))
  {
    hide WinnerIsLive;
    var s1 := Step(s, TimerFires(t));
    assert Won(s1) && TokenDue(s1, |s.fetches|);
    TokenOverrunsWinner(s1, |s.fetches|);
    more := [TimerFires(t)] + ([TokenArrives(|s.fetches|, true)] + []);
    ExpectedFirst(s, TimerFires(t), [TokenArrives(|s.fetches|, true)] + []);
    ExpectedFirst(s1, TokenArrives(|s.fetches|, true), []);
  }

  lemma Wins(s: State) returns (ev: Event)
    requires WellFormed(s) && Deciding(s)
    ensures Expected(s, ev) && Won(Step(s, ev)) && Step(s, ev).timers == s.timers && Step(s, ev).generation == s.generation
  {
    hide WellFormed;
    var a := |s.attempts| - 1;
    ev := if Last(s).quic.Pending? then QuicResolves(a) else WsOpens(SocketName(a, 0));
    if Last(s).quic.Pending? { assert LiveQuic(Step(s, ev), a); } else { assert LiveSocket(Step(s, ev), SocketName(a, 0)); }
  }

  /** A timer due while an attempt is deciding ends with one attempt too many. */
  lemma TimerOverrunsAttempt(s: State, t: nat) returns (more: seq<Event>)
    requires WellFormed(s) && Deciding(s) && TimerDue(s, t)
    ensures ExpectedFrom(s, more) && !WinnerIsLive(Exec(s, more))
  {
    hide WinnerIsLive, Won, Deciding, Step, Exec, ExpectedFrom, WellFormed;
    var ev := Wins(s);
    var rest := TimerOverrunsWinner(Step(s, ev), t);
    ExpectedFirst(s, ev, rest);
    more := [ev] + rest;
  }

  /** So does one due while a token is awaited. */
  lemma TimerOverrunsToken(s: State, k: nat, t: nat) returns (more: seq<Event>)
    requires WellFormed(s) && !s.closed && TokenDue(s, k) && TimerDue(s, t)
    ensures ExpectedFrom(s, more) && !WinnerIsLive(Exec(s, more))
  {
    hide WinnerIsLive, Exec, ExpectedFrom, WellFormed;
    var ev := TokenArrives(k, true);
    assert Deciding(Step(s, ev)) && TimerDue(Step(s, ev), t);
    var rest := TimerOverrunsAttempt(Step(s, ev), t);
    ExpectedFirst(s, ev, rest);
    more := [ev] + rest;
  }

  /** And one due beside another. */
  lemma TimerOverrunsTimer(s: State, t: nat, u: nat) returns (more: seq<Event>)
    requires WellFormed(s) && !s.closed && TimerDue(s, t) && TimerDue(s, u) && t != u
    ensures ExpectedFrom(s, more) && !WinnerIsLive(Exec(s, more))
  {
    hide WinnerIsLive, Exec, ExpectedFrom, WellFormed;
    var ev := TimerFires(t);
    assert TokenDue(Step(s, ev), |s.fetches|) && TimerDue(Step(s, ev), u);
    var rest := TimerOverrunsToken(Step(s, ev), |s.fetches|, u);
    ExpectedFirst(s, ev, rest);
    more := [ev] + rest;
  }

  /** After a second dial, the first socket to open wins, and frames go to the other. */
  lemma SecondDialIsUnsafe(s: State, a: nat) returns (more: seq<Event>)
    requires WellFormed(s) && Inv(s) && DialsAgain(s, QuicRejects(a))
    ensures ExpectedFrom(Step(s, QuicRejects(a)), more) && !WinnerIsLive(Exec(Step(s, QuicRejects(a)), more))
  {
    hide WellFormed, AttemptsOk, NotAhead, OthersFinished, TimersOk, FetchesOk;
    var s1 := Step(s, QuicRejects(a));
    var w := SocketName(a, 0);
    assert SocketAt(s1, w) == Socket(Dialing, false) && s1.socket == Some(SocketName(a, 1));
    assert Step(s1, WsOpens(w)).active == Some(Ws) && SendTarget(Step(s1, WsOpens(w))) == ToSocket(SocketName(a, 1));
    more := [WsOpens(w)] + [];
    ExpectedFirst(s1, WsOpens(w), []);
  }

  /** An early close of a store that has a connection takes the connection out of view, not down. */
  lemma EarlyCloseHidesWinner(s: State, a: nat, authFailed: bool, random: real)
    requires WellFormed(s) && Inv(s) && ClosesEarly(s, QuicClosed(a, authFailed, random)) && s.status == Connected
    ensures !WinnerIsLive(Step(s, QuicClosed(a, authFailed, random)))
  {
    hide WellFormed, AttemptsOk, NotAhead, OthersFinished, TimersOk, FetchesOk;
    var s1, w := Step(s, QuicClosed(a, authFailed, random)), SocketName(|s.attempts| - 1, 0);
    assert OfGeneration(s1, w.attempt) && LiveSocket(s1, w) && s1.active == None;
  }

  /** What an early close leaves of a store that is waiting for something. */
  lemma EarlyCloseKeeps(s: State, a: nat, authFailed: bool, random: real)
    requires WellFormed(s) && Inv(s) && ClosesEarly(s, QuicClosed(a, authFailed, random))
    ensures var s' := Step(s, QuicClosed(a, authFailed, random));
            && s'.attempts == s.attempts && s'.fetches == s.fetches && s'.generation == s.generation && !s'.closed
            && (if authFailed then s'.status == Disconnected && s'.timers == s.timers && s'.reconnectTimer == s.reconnectTimer
                else TimerDue(s', |s.timers|) && s'.status == Reconnecting && forall t :: TimerDue(s, t) ==> TimerDue(s', t))
  {
    hide WellFormed, AttemptsOk, NotAhead, OthersFinished, TimersOk, FetchesOk, WithJitter;
  }

  lemma PendingIs(s: State)
    requires Inv(s)
    ensures Trying(s) ==> Deciding(s)
    ensures Waiting(s) ==> TimerDue(s, s.reconnectTimer.value) && !s.closed
    ensures Fetching(s) ==> TokenDue(s, |s.fetches| - 1)
  {
    hide AttemptsOk, OthersFinished;
  }

  lemma EarlyCloseIsUnsafe(s: State, a: nat, authFailed: bool, random: real) returns (more: seq<Event>)
    requires WellFormed(s) && Inv(s) && ClosesEarly(s, QuicClosed(a, authFailed, random)) && Occupied(s)
    ensures var s' := Step(s, QuicClosed(a, authFailed, random));
            ExpectedFrom(s', more) && !(WinnerIsLive(Exec(s', more)) && IdleWhenDisconnected(Exec(s', more)))
  {
    hide WellFormed, Inv, Step, WinnerIsLive, Expected, ClosesEarly;
    var s' := Step(s, QuicClosed(a, authFailed, random));
    EarlyCloseKeeps(s, a, authFailed, random);
    PendingIs(s);
    more := [];
    if s.status == Connected {
      EarlyCloseHidesWinner(s, a, authFailed, random);
    } else if !authFailed {
      var t := |s.timers|;
      if Trying(s) { more := TimerOverrunsAttempt(s', t); }
      else if Fetching(s) { more := TimerOverrunsToken(s', |s.fetches| - 1, t); }
      else { more := TimerOverrunsTimer(s', s.reconnectTimer.value, t); }
    }
  }

  /** Exactly the expected events are safe. */
  lemma SafeIff(s: State, ev: Event)
    requires WellFormed(s) && Inv(s)
    ensures Safe(s, ev) <==> Expected(s, ev)
  {
    hide WellFormed, Inv, Step, WinnerIsLive, Exec, ExpectedFrom, IdleWhenDisconnected, DialsAgain, ClosesEarly, Occupied;
    if Expected(s, ev) {
      ExpectedIsSafe(s, ev);
    } else if DialsAgain(s, ev) {
      RejectsWhenDialsAgain(s, ev);
      var more := SecondDialIsUnsafe(s, ev.attempt);
    } else {
      EarlyIsClose(s, ev);
      if Occupied(s) { var more := EarlyCloseIsUnsafe(s, ev.attempt, ev.authFailed, ev.random); }
      else { EarlyCloseKeeps(s, ev.attempt, ev.authFailed, ev.random); }
    }
  }

  lemma RejectsWhenDialsAgain(s: State, ev: Event)
    requires DialsAgain(s, ev)
    ensures ev == QuicRejects(ev.attempt)
  {
  }

  lemma EarlyIsClose(s: State, ev: Event)
    requires ClosesEarly(s, ev)
    ensures ev == QuicClosed(ev.attempt, ev.authFailed, ev.random)
    ensures !Occupied(s) ==> s.status == Disconnected && !ev.authFailed
  {
  }

  ghost predicate AllSafe(events: seq<Event>) {
    forall n :: 0 <= n < |events| ==> Safe(Exec(START, events[..n]), events[n])
  }

  lemma AllSafeSplits(init: seq<Event>, last: Event)
    ensures AllSafe(init + [last]) <==> AllSafe(init) && Safe(Exec(START, init), last)
  {
    hide Exec, Safe;
    var events := init + [last];
    assert forall n :: 0 <= n < |init| ==> events[..n] == init[..n] && events[n] == init[n];
    assert events[..|init|] == init && events[|init|] == last;
  }

  /** Every step of a run is safe if and only if every event of it is expected. */
  lemma {:induction false} RunIsSafeIff(events: seq<Event>)
    ensures ExpectedRun(events) <==> AllSafe(events)
  {
    hide Step, Inv, Safe, Expected;
    if events != [] {
      hide AllSafe;
      var init, last := events[..|events| - 1], events[|events| - 1];
      RunIsSafeIff(init);
      AllSafeSplits(init, last);
      assert events == init + [last];
      if ExpectedRun(init) {
        ExecInv(init);
        SafeIff(Exec(START, init), last);
      }
    }
  }

  // ----- The two reports it cannot stand

  lemma ExecNext(s: State, events: seq<Event>, n: nat)
    requires WellFormed(s) && n < |events|
    ensures Exec(s, events[..n + 1]) == Step(Exec(s, events[..n]), events[n])
  {
    hide Step, WellFormed;
    assert events[..n + 1][..n] == events[..n];
  }

  /** The store once it has connected from the start, got its token and begun an attempt. */
  const BEGUN: State :=
    State(Connecting, None, None, None, None, None, 1000, false, 1, [Fetch(1, Given)], [],
          [Attempt(1, false, [], false, true, Pending, false)])

  lemma BegunIsReached()
    ensures WellFormed(BEGUN) && Exec(START, [Connects, TokenArrives(0, true)]) == BEGUN
  {
    var events := [Connects, TokenArrives(0, true)];
    assert events[..1] == [Connects] && [Connects][..0] == [] && events[..2] == events;
    assert Step(START, Connects).fetches == [Fetch(1, Asked)];
    assert Step(Step(START, Connects), TokenArrives(0, true)) == BEGUN;
  }

  /** One attempt, of generation 1, with nothing pending but its own connections. */
  predicate Alone(s: State, sockets: seq<Socket>, settled: bool, wsDiscarded: bool, quic: QuicDial) {
    && WellFormed(s) && !s.closed && s.generation == 1 && s.lastFrame == None
    && s.timers == [] && s.fetches == [Fetch(1, Given)]
    && |s.attempts| == 1 && s.attempts[0] == Attempt(1, settled, sockets, wsDiscarded, false, quic, false)
  }

  lemma DialsTwice()
    ensures var s := Step(Step(BEGUN, QuicTimerFires(0)), QuicRejects(0));
            Alone(s, [Socket(Dialing, false), Socket(Dialing, false)], false, false, Rejected)
  {
    var s1 := Step(BEGUN, QuicTimerFires(0));
    assert Alone(s1, [Socket(Dialing, false)], false, false, Pending);
    var s2 := Step(s1, QuicRejects(0));
    assert s2.attempts[0].sockets == [Socket(Dialing, false), Socket(Dialing, false)];
  }

  lemma BothOpen(s: State)
    requires Alone(s, [Socket(Dialing, false), Socket(Dialing, false)], false, false, Rejected)
    ensures var s' := Step(Step(s, WsOpens(SocketName(0, 0))), WsOpens(SocketName(0, 1)));
            && Alone(s', [Socket(Up, false), Socket(Up, true)], true, true, Rejected)
            && s'.status == Connected && s'.active == Some(Ws)
  {
    var s1 := Step(s, WsOpens(SocketName(0, 0)));
    assert s1.attempts[0].sockets == [Socket(Up, false), Socket(Dialing, false)];
    var s2 := Step(s1, WsOpens(SocketName(0, 1)));
    assert s2.attempts[0].sockets == [Socket(Up, false), Socket(Up, true)];
  }

  lemma DropsUnnoticed(s: State, random: real)
    requires Alone(s, [Socket(Up, false), Socket(Up, true)], true, true, Rejected) && 0.0 <= random < 1.0
    ensures var s' := Step(Step(s, WsMessage(SocketName(0, 0), Some("hi"))), WsCloses(SocketName(0, 0), 1006, random));
            && Alone(s', [Socket(Down, false), Socket(Up, true)], true, true, Rejected)
            && s'.status == s.status && s'.active == s.active
  {
    assert Step(s, WsMessage(SocketName(0, 0), Some("hi"))) == s;
    var s' := Step(s, WsCloses(SocketName(0, 0), 1006, random));
    assert s'.attempts[0].sockets == [Socket(Down, false), Socket(Up, true)];
  }

  /** A QUIC rejection after WS was dialled on the timer dials a second socket. When the first opens
      and wins, the second opens as a loser and marks the attempt's sockets discarded, the winner
      with them: its frames are dropped and its close goes unnoticed. The store ends showing a
      connection it does not have, with nothing pending that could change that. */
  lemma RejectionStrandsTheStore(random: real)
    requires 0.0 <= random < 1.0
    ensures var s := Exec(BEGUN, [QuicTimerFires(0), QuicRejects(0), WsOpens(SocketName(0, 0)), WsOpens(SocketName(0, 1)),
                                  WsMessage(SocketName(0, 0), Some("hi")), WsCloses(SocketName(0, 0), 1006, random)]);
            && s.status == Connected && s.active == Some(Ws) && !WinnerIsLive(s)
            && Alone(s, [Socket(Down, false), Socket(Up, true)], true, true, Rejected)
  {
    hide Exec, Step, WinnerIsLive;
    var events := [QuicTimerFires(0), QuicRejects(0), WsOpens(SocketName(0, 0)), WsOpens(SocketName(0, 1)),
                   WsMessage(SocketName(0, 0), Some("hi")), WsCloses(SocketName(0, 0), 1006, random)];
    BegunIsReached();
    ExecNothing(BEGUN, events);
    DialsTwice();
    ExecNext(BEGUN, events, 0);
    ExecNext(BEGUN, events, 1);
    BothOpen(Exec(BEGUN, events[..2]));
    ExecNext(BEGUN, events, 2);
    ExecNext(BEGUN, events, 3);
    DropsUnnoticed(Exec(BEGUN, events[..4]), random);
    ExecNext(BEGUN, events, 4);
    ExecNext(BEGUN, events, 5);
    assert events[..6] == events;
    NoLiveWinner(Exec(BEGUN, events));
  }

  lemma ExecNothing(s: State, events: seq<Event>)
    requires WellFormed(s)
    ensures Exec(s, events[..0]) == s
  {
  }

  lemma NoLiveWinner(s: State)
    requires s.active == Some(Ws) && Alone(s, [Socket(Down, false), Socket(Up, true)], true, true, Rejected)
    ensures !WinnerIsLive(s)
  {
    assert !LiveSocket(s, SocketName(0, 0));
  }

  /** A generation 1 store with the given attempts open over QUIC. */
  predicate Opened(s: State, attempts: nat) {
    && WellFormed(s) && !s.closed && s.generation == 1 && attempts <= |s.attempts|
    && forall a :: 0 <= a < attempts ==> s.attempts[a].generation == 1 && s.attempts[a].quic.Open? && !s.attempts[a].quicClosed
  }

  lemma FirstFork(random: real)
    requires 0.0 <= random < 1.0
    ensures var s := Step(Step(BEGUN, QuicClosed(0, false, random)), QuicResolves(0));
            Opened(s, 1) && |s.attempts| == 1 && |s.timers| == 1 && s.timers[0].due && s.timers[0].generation == 1 && |s.fetches| == 1
  {
  }

  lemma SecondFork(s: State)
    requires Opened(s, 1) && |s.attempts| == 1 && |s.timers| == 1 && s.timers[0].due && s.timers[0].generation == 1
    requires |s.fetches| == 1
    ensures Opened(Step(Step(Step(s, TimerFires(0)), TokenArrives(1, true)), QuicResolves(1)), 2)
  {
    var s1 := Step(s, TimerFires(0));
    assert s1.fetches[1] == Fetch(1, Asked) && s1.attempts == s.attempts;
    var s2 := Step(s1, TokenArrives(1, true));
    assert s2.attempts == s.attempts + [Attempt(1, false, [], false, true, Pending, false)];
  }

  /** A QUIC close reported before `connectQuic` has resolved meets `null === null`: it schedules a
      reconnect while its attempt goes on, and the generation ends up with two live connections. */
  lemma EarlyCallbackForks(random: real)
    requires 0.0 <= random < 1.0
    ensures var s := Exec(BEGUN, [QuicClosed(0, false, random), QuicResolves(0), TimerFires(0), TokenArrives(1, true),
                                  QuicResolves(1)]);
            OfGeneration(s, 0) && LiveQuic(s, 0) && OfGeneration(s, 1) && LiveQuic(s, 1) && !WinnerIsLive(s)
  {
    hide Exec, Step;
    var events := [QuicClosed(0, false, random), QuicResolves(0), TimerFires(0), TokenArrives(1, true), QuicResolves(1)];
    BegunIsReached();
    ExecNothing(BEGUN, events);
    FirstFork(random);
    ExecNext(BEGUN, events, 0);
    ExecNext(BEGUN, events, 1);
    SecondFork(Exec(BEGUN, events[..2]));
    ExecNext(BEGUN, events, 2);
    ExecNext(BEGUN, events, 3);
    ExecNext(BEGUN, events, 4);
    assert events[..5] == events;
  }
}
