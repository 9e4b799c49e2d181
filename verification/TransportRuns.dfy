/** What holds of every run of the transport, whatever the drivers report and in whatever order. */
module TransportRuns {
  import opened Wrappers
  import opened Transport

  // ----- Superseded events

  /** The generation of the call an event answers; `connect` and `close` answer none. */
  function GenerationOf(s: State, ev: Event): Option<nat>
    requires WellFormed(s) && Possible(s, ev)
  {
    match ev
    case Connects | Closes => None
    case TokenArrives(k, _) => Some(s.fetches[k].generation)
    case TokenFails(k) => Some(s.fetches[k].generation)
    case TimerFires(t) => Some(s.timers[t].generation)
    case QuicTimerFires(a) => Some(s.attempts[a].generation)
    case QuicResolves(a) => Some(s.attempts[a].generation)
    case QuicRejects(a) => Some(s.attempts[a].generation)
    case QuicFrame(a, _) => Some(s.attempts[a].generation)
    case QuicClosed(a, _, _) => Some(s.attempts[a].generation)
    case WsMessage(w, _) => Some(s.attempts[w.attempt].generation)
    case WsOpens(w) => Some(s.attempts[w.attempt].generation)
    case WsCloses(w, _, _) => Some(s.attempts[w.attempt].generation)
  }

  /** The attempt an event belongs to, where the handler checks it: QUIC listeners do not. */
  function AttemptOf(s: State, ev: Event): Option<nat>
    requires WellFormed(s) && Possible(s, ev)
  {
    match ev
    case QuicTimerFires(a) => Some(a)
    case QuicResolves(a) => Some(a)
    case QuicRejects(a) => Some(a)
    case WsMessage(w, _) => Some(w.attempt)
    case WsOpens(w) => Some(w.attempt)
    case WsCloses(w, _, _) => Some(w.attempt)
    case _ => None
  }

  predicate Superseded(s: State, ev: Event)
    requires WellFormed(s)
  {
    && Possible(s, ev)
    && var g := GenerationOf(s, ev);
    && g.Some?
    && (s.closed || g.value != s.generation || (AttemptOf(s, ev).Some? && AttemptOf(s, ev).value + 1 != |s.attempts|))
  }

  /** What a reader of the store sees, with the backoff. */
  predicate SameView(s: State, s': State) {
    && s'.status == s.status && s'.active == s.active && s'.lastFrame == s.lastFrame && s'.backoffMs == s.backoffMs
    && s'.closed == s.closed && s'.generation == s.generation
  }

  /** The same sockets dialled in every attempt, and no further attempt. */
  ghost predicate SameDials(s: State, s': State) {
    && |s'.attempts| == |s.attempts|
    && forall a :: 0 <= a < |s.attempts| ==> |s'.attempts[a].sockets| == |s.attempts[a].sockets|
  }

  /** No token asked for, no timer set, no attempt started, no socket dialled. */
  ghost predicate NothingBegun(s: State, s': State) {
    |s'.fetches| == |s.fetches| && |s'.timers| == |s.timers| && SameDials(s, s')
  }

  /** The connection an event brings up was told to close by the handler of that very event. */
  predicate ClosedByItsHandler(s': State, ev: Event) {
    && (ev.WsOpens? ==> Dialled(s', ev.socket) && SocketAt(s', ev.socket).closed)
    && (ev.QuicResolves? ==> ev.attempt < |s'.attempts| && s'.attempts[ev.attempt].quicClosed)
  }

  /** No event of a superseded generation or attempt changes what the store shows or starts
      anything, and a connection that comes up late is closed at once. */
  lemma StaleIsolation(s: State, ev: Event)
    requires WellFormed(s) && Superseded(s, ev)
    ensures SameView(s, Step(s, ev)) && NothingBegun(s, Step(s, ev)) && ClosedByItsHandler(Step(s, ev), ev)
  {
    hide WellFormed;
  }

  lemma CloseBeginsNothing(s: State)
    requires WellFormed(s)
    ensures NothingBegun(s, Close(s))
  {
  }

  /** After `close()`, whatever happens short of `connect` leaves the store disconnected, starts
      nothing, and closes every connection that still comes up. */
  lemma {:induction false} ClosedUntilConnect(s: State, events: seq<Event>)
    requires WellFormed(s) && Connects !in events
    ensures Exec(Close(s), events).closed && Exec(Close(s), events).status == Disconnected
    ensures Exec(Close(s), events).active == None
    ensures NothingBegun(s, Exec(Close(s), events))
    ensures forall ev :: Possible(Exec(Close(s), events), ev) && ev != Connects
              ==> ClosedByItsHandler(Step(Exec(Close(s), events), ev), ev)
  {
    hide WellFormed, OnToken, OnTokenFailed, OnReconnectTimer, OnQuicTimer, OnQuicResolved, OnQuicRejected, OnQuicFrame, OnQuicClosed, OnWsMessage,
         OnWsOpen, OnWsClose, AttemptConnect;
    CloseBeginsNothing(s);
    if events != [] {
      var init, last := events[..|events| - 1], events[|events| - 1];
      ClosedUntilConnect(s, init);
      var before := Exec(Close(s), init);
      if last == Closes { CloseBeginsNothing(before); } else if Possible(before, last) { StaleIsolation(before, last); }
    }
    var after := Exec(Close(s), events);
    forall ev | Possible(after, ev) && ev != Connects ensures ClosedByItsHandler(Step(after, ev), ev) {
      if ev != Closes { StaleIsolation(after, ev); }
    }
  }

  // ----- One attempt

  /** At most one of an attempt's connections is live: of two sockets that are up, or of a socket that
      is up and a QUIC connection that is open, this module has closed one. */
  ghost predicate OneLive(at: Attempt) {
    && (forall m, n :: 0 <= m < n < |at.sockets| && at.sockets[m].link.Up? && at.sockets[n].link.Up? ==>
          at.sockets[m].closed || at.sockets[n].closed)
    && (at.quic.Open? && !at.quicClosed ==>
          forall n :: 0 <= n < |at.sockets| && at.sockets[n].link.Up? ==> at.sockets[n].closed)
  }

  /** What holds of every attempt: QUIC's timer is spent before WS is dialled, only a rejection of
      QUIC lets WS be dialled twice, and whatever is up and wanted has settled the attempt. */
  ghost predicate AttemptOk(at: Attempt) {
    && (at.sockets != [] ==> !at.timerArmed)
    && (!at.quic.Rejected? ==> |at.sockets| <= 1)
    && (at.wsDiscarded ==> at.settled)
    && (at.quic.Open? ==> at.settled || at.quicClosed)
    && (!at.settled ==> forall n :: 0 <= n < |at.sockets| && at.sockets[n].link.Up? ==> at.sockets[n].closed)
    && OneLive(at)
  }

  ghost predicate AttemptsOk(s: State) {
    forall a :: 0 <= a < |s.attempts| ==> AttemptOk(s.attempts[a])
  }

  /** The attempt a step dials WS for: the undecided one under way, whose QUIC has just failed or
      timed out. */
  function Dials(s: State, ev: Event): Option<nat> {
    if Possible(s, ev) && (ev.QuicTimerFires? || ev.QuicRejects?)
       && !Stale(s, ev.attempt) && !s.attempts[ev.attempt].settled
    then Some(ev.attempt) else None
  }

  /** How an attempt may change in one step. */
  ghost predicate Onward(at: Attempt, at': Attempt, dialled: bool) {
    && at'.generation == at.generation && (at.settled ==> at'.settled)
    && |at'.sockets| == |at.sockets| + if dialled then 1 else 0
  }

  /** Attempts stay settled once settled, and at most the given one dials, a single socket. */
  ghost predicate Advances(s: State, s': State, dials: Option<nat>) {
    && |s.attempts| <= |s'.attempts|
    && (forall a :: 0 <= a < |s.attempts| ==> Onward(s.attempts[a], s'.attempts[a], dials == Some(a)))
    && (forall a :: |s.attempts| <= a < |s'.attempts| ==> s'.attempts[a].sockets == [])
  }

  ghost predicate Keeps(s: State, s': State, dials: Option<nat>) {
    WellFormed(s') && AttemptsOk(s') && Advances(s, s', dials)
  }

  /** A step that touches one attempt only. */
  lemma OneChanged(s: State, s': State, a: nat, dialled: bool)
    requires WellFormed(s') && AttemptsOk(s) && a < |s.attempts| == |s'.attempts|
    requires s'.attempts == s.attempts[a := s'.attempts[a]]
    requires AttemptOk(s'.attempts[a]) && Onward(s.attempts[a], s'.attempts[a], dialled)
    ensures Keeps(s, s', if dialled then Some(a) else None)
  {
    hide AttemptOk, WellFormed;
  }

  lemma DropSocketKeeps(s: State)
    requires WellFormed(s) && AttemptsOk(s)
    ensures Keeps(s, DropSocket(s), None)
  {
    hide WellFormed, Keeps;
    SocketDialled(s);
    match s.socket
    case None => Unchanged(s, s);
    case Some(w) => OneChanged(s, DropSocket(s), w.attempt, false);
  }

  lemma SocketDialled(s: State)
    requires WellFormed(s)
    ensures s.socket.Some? ==> Dialled(s, s.socket.value)
    ensures s.quicConnection.Some? ==> s.quicConnection.value < |s.attempts|
  {
  }

  lemma DropQuicKeeps(s: State)
    requires WellFormed(s) && AttemptsOk(s)
    ensures Keeps(s, DropQuic(s), None)
  {
    hide WellFormed, Keeps;
    SocketDialled(s);
    match s.quicConnection
    case None => Unchanged(s, s);
    case Some(a) => OneChanged(s, DropQuic(s), a, false);
  }

  lemma Unchanged(s: State, s': State)
    requires WellFormed(s') && AttemptsOk(s) && s'.attempts == s.attempts
    ensures Keeps(s, s', None)
  {
    hide AttemptOk, WellFormed;
  }

  lemma CloseKeeps(s: State)
    requires WellFormed(s) && AttemptsOk(s)
    ensures Keeps(s, Close(s), None)
  {
    hide AttemptOk, DropSocket, DropQuic;
    var s1 := ClearReconnectTimer(s.(closed := true, generation := s.generation + 1));
    var s2 := DropSocket(s1);
    Unchanged(s, s1);
    DropSocketKeeps(s1);
    DropQuicKeeps(s2);
    assert Advances(s1, s2, None) && Advances(s2, DropQuic(s2), None);
  }

  lemma TokenKeeps(s: State, k: nat, token: bool)
    requires WellFormed(s) && AttemptsOk(s) && Possible(s, TokenArrives(k, token))
    ensures Keeps(s, OnToken(s, k, token), None)
  {
  }

  lemma QuicTimerKeeps(s: State, a: nat)
    requires WellFormed(s) && AttemptsOk(s) && Possible(s, QuicTimerFires(a))
    ensures Keeps(s, OnQuicTimer(s, a), Dials(s, QuicTimerFires(a)))
  {
    hide WellFormed, Keeps;
    OneChanged(s, OnQuicTimer(s, a), a, Dials(s, QuicTimerFires(a)).Some?);
  }

  lemma QuicResolvedKeeps(s: State, a: nat)
    requires WellFormed(s) && AttemptsOk(s) && Possible(s, QuicResolves(a))
    ensures Keeps(s, OnQuicResolved(s, a), None)
  {
    hide WellFormed, Keeps;
    OneChanged(s, OnQuicResolved(s, a), a, false);
  }

  lemma QuicRejectedKeeps(s: State, a: nat)
    requires WellFormed(s) && AttemptsOk(s) && Possible(s, QuicRejects(a))
    ensures Keeps(s, OnQuicRejected(s, a), Dials(s, QuicRejects(a)))
  {
    hide WellFormed, Keeps;
    OneChanged(s, OnQuicRejected(s, a), a, Dials(s, QuicRejects(a)).Some?);
  }

  lemma QuicClosedKeeps(s: State, a: nat, authFailed: bool, random: real)
    requires WellFormed(s) && AttemptsOk(s) && Possible(s, QuicClosed(a, authFailed, random))
    ensures Keeps(s, OnQuicClosed(s, a, authFailed, random), None)
  {
    hide WellFormed, Keeps;
    OneChanged(s, OnQuicClosed(s, a, authFailed, random), a, false);
  }

  lemma WsOpenKeeps(s: State, w: SocketName)
    requires WellFormed(s) && AttemptsOk(s) && Possible(s, WsOpens(w))
    ensures Keeps(s, OnWsOpen(s, w), None)
  {
    hide WellFormed, Keeps;
    OneChanged(s, OnWsOpen(s, w), w.attempt, false);
  }

  lemma DownIsOk(at: Attempt, n: nat)
    requires AttemptOk(at) && n < |at.sockets|
    ensures AttemptOk(SetLink(at, n, Down)) && AttemptOk(SetLink(at, n, Down).(settled := true))
  {
  }

  lemma WsCloseKeeps(s: State, w: SocketName, code: int, random: real)
    requires WellFormed(s) && AttemptsOk(s) && Possible(s, WsCloses(w, code, random))
    ensures Keeps(s, OnWsClose(s, w, code, random), None)
  {
    hide WellFormed, Keeps, AttemptOk;
    DownIsOk(s.attempts[w.attempt], w.nth);
    OneChanged(s, OnWsClose(s, w, code, random), w.attempt, false);
  }

  /** Every step keeps every attempt in order and settled attempts settled, and dials WS once for the
      undecided attempt whose QUIC it saw fail or time out, or not at all. */
  lemma StepKeeps(s: State, ev: Event)
    requires WellFormed(s) && AttemptsOk(s)
    ensures Keeps(s, Step(s, ev), Dials(s, ev))
  {
    hide AttemptOk, WellFormed, Close, OnToken, OnQuicTimer, OnQuicResolved, OnQuicRejected, OnQuicClosed, OnWsOpen, OnWsClose;
    if Possible(s, ev) {
      match ev
      case Closes => CloseKeeps(s);
      case TokenArrives(k, token) => TokenKeeps(s, k, token);
      case QuicTimerFires(a) => QuicTimerKeeps(s, a);
      case QuicResolves(a) => QuicResolvedKeeps(s, a);
      case QuicRejects(a) => QuicRejectedKeeps(s, a);
      case QuicClosed(a, authFailed, random) => QuicClosedKeeps(s, a, authFailed, random);
      case WsOpens(w) => WsOpenKeeps(s, w);
      case WsCloses(w, code, random) => WsCloseKeeps(s, w, code, random);
      case _ =>
    }
  }

  /** Whatever is reported and in whatever order, no attempt ever has two live connections. */
  lemma {:induction false} NeverTwoLive(events: seq<Event>)
    ensures AttemptsOk(Exec(START, events))
    ensures forall a :: 0 <= a < |Exec(START, events).attempts| ==> OneLive(Exec(START, events).attempts[a])
  {
    hide Step, OneLive;
    if events != [] {
      NeverTwoLive(events[..|events| - 1]);
      StepKeeps(Exec(START, events[..|events| - 1]), events[|events| - 1]);
    }
  }

  /** The store becomes connected only in the step that settles the attempt under way. */
  lemma ConnectedBySettling(s: State, ev: Event)
    requires WellFormed(s) && Step(s, ev).status == Connected && s.status != Connected
    ensures |Step(s, ev).attempts| == |s.attempts| > 0
    ensures !s.attempts[|s.attempts| - 1].settled && Step(s, ev).attempts[|s.attempts| - 1].settled
    ensures Succeeds(s, ev)
  {
    hide WellFormed;
  }

  /** An attempt wins: the step calls finishWithQuic or finishWithWs. */
  predicate Succeeds(s: State, ev: Event)
    requires WellFormed(s)
  {
    && Possible(s, ev)
    && ((ev.QuicResolves? && !Stale(s, ev.attempt) && !s.attempts[ev.attempt].settled) ||
        (ev.WsOpens? && !Stale(s, ev.socket.attempt) && !s.attempts[ev.socket.attempt].settled))
  }

  // ----- Dialling once

  ghost predicate NeverDialsAgain(events: seq<Event>) {
    forall n :: 0 <= n < |events| ==> !DialsAgain(Exec(START, events[..n]), events[n])
  }

  lemma NeverSplits(init: seq<Event>, last: Event)
    ensures NeverDialsAgain(init + [last]) <==> NeverDialsAgain(init) && !DialsAgain(Exec(START, init), last)
  {
    hide Exec, DialsAgain;
    var events := init + [last];
    assert forall n :: 0 <= n < |init| ==> events[..n] == init[..n] && events[n] == init[n];
    assert events[..|init|] == init && events[|init|] == last;
  }

  /** A QUIC rejection that reaches `startWs` although this attempt has dialled WS already. */
  predicate DialsAgain(s: State, ev: Event) {
    && Possible(s, ev) && ev.QuicRejects?
    && !Stale(s, ev.attempt) && !s.attempts[ev.attempt].settled && s.attempts[ev.attempt].sockets != []
  }

  ghost predicate DialledOnce(s: State) {
    forall a :: 0 <= a < |s.attempts| ==> |s.attempts[a].sockets| <= 1
  }

  lemma StepDialledOnce(s: State, ev: Event)
    requires WellFormed(s) && AttemptsOk(s)
    ensures DialledOnce(Step(s, ev)) <==> DialledOnce(s) && !DialsAgain(s, ev)
  {
    hide Step, OneLive, WellFormed;
    StepKeeps(s, ev);
    var s', d := Step(s, ev), Dials(s, ev);
    assert forall a :: 0 <= a < |s.attempts| ==> Onward(s.attempts[a], s'.attempts[a], d == Some(a));
    if d.Some? { assert s'.attempts[d.value] == s'.attempts[d.value]; }
  }

  /** Each attempt dials WS at most once exactly when no QUIC rejection arrives for an undecided
      attempt that has dialled WS on its timer. */
  lemma {:induction false} DialsOnceIff(events: seq<Event>)
    ensures DialledOnce(Exec(START, events)) <==> NeverDialsAgain(events)
  {
    hide Step, AttemptOk, DialsAgain;
    if events != [] {
      hide NeverDialsAgain;
      var init, last := events[..|events| - 1], events[|events| - 1];
      DialsOnceIff(init);
      NeverTwoLive(init);
      StepDialledOnce(Exec(START, init), last);
      assert events == init + [last];
      NeverSplits(init, last);
    }
  }

  // ----- Backoff

  function Pow2(k: nat): (r: nat)
    ensures r >= 1
  {
    if k == 0 then 1 else 2 * Pow2(k - 1)
  }

  /** Reconnects scheduled since the last success or `connect`. */
  function Reconnects(events: seq<Event>): nat {
    if events == [] then 0
    else
      var init, last := events[..|events| - 1], events[|events| - 1];
      var s := Exec(START, init);
      if last == Connects || Succeeds(s, last) then 0
      else if |Step(s, last).timers| > |s.timers| then Reconnects(init) + 1
      else Reconnects(init)
  }

  predicate WithinAFifth(delay: real, backoffMs: nat) {
    0.8 * backoffMs as real <= delay < 1.2 * backoffMs as real
  }

  /** A success or `connect` resets the backoff; a timer, with a delay within a fifth of the backoff
      it was set from, doubles it up to the maximum; nothing else moves it. */
  ghost predicate BackoffMoves(s: State, s': State, resets: bool) {
    && (forall t :: 0 <= t < |s.timers| <= |s'.timers| ==> s'.timers[t].delay == s.timers[t].delay)
    && (if resets then |s'.timers| == |s.timers| && s'.backoffMs == INITIAL_BACKOFF_MS
        else if s'.backoffMs == s.backoffMs && |s'.timers| == |s.timers| then true
        else
          && s'.backoffMs == Min(s.backoffMs * 2, MAX_BACKOFF_MS)
          && |s'.timers| == |s.timers| + 1
          && WithinAFifth(s'.timers[|s.timers|].delay, s.backoffMs))
  }

  lemma QuicClosedBackoff(s: State, a: nat, authFailed: bool, random: real)
    requires WellFormed(s) && s.backoffMs > 0 && a < |s.attempts| && 0.0 <= random < 1.0
    ensures BackoffMoves(s, OnQuicClosed(s, a, authFailed, random), false)
  {
    hide WellFormed, WithJitter, WithinAFifth;
    Jittered(s.backoffMs, random);
  }

  lemma WsCloseBackoff(s: State, w: SocketName, code: int, random: real)
    requires WellFormed(s) && s.backoffMs > 0 && Dialled(s, w) && 0.0 <= random < 1.0
    ensures BackoffMoves(s, OnWsClose(s, w, code, random), false)
  {
    hide WellFormed, WithJitter, WithinAFifth;
    Jittered(s.backoffMs, random);
  }

  lemma StepBackoff(s: State, ev: Event)
    requires WellFormed(s) && s.backoffMs > 0
    ensures BackoffMoves(s, Step(s, ev), ev == Connects || Succeeds(s, ev))
  {
    hide WellFormed, WithJitter, WithinAFifth, OnQuicClosed, OnWsClose;
    if Possible(s, ev) {
      match ev
      case QuicClosed(a, authFailed, random) => QuicClosedBackoff(s, a, authFailed, random);
      case WsCloses(w, code, random) => WsCloseBackoff(s, w, code, random);
      case _ =>
    }
  }

  lemma Scaled(x: real, unit: real)
    requires 0.0 <= x && -1.0 <= unit < 1.0
    ensures -x <= unit * x && (0.0 < x ==> unit * x < x)
  {
    assert 0.0 <= (unit + 1.0) * x;
    assert 0.0 < x ==> (1.0 - unit) * x > 0.0;
  }

  lemma Jittered(b: nat, random: real)
    requires b > 0 && 0.0 <= random < 1.0
    ensures WithinAFifth(WithJitter(b, random), b)
  {
    Scaled(b as real * JITTER_RATIO, random * 2.0 - 1.0);
  }

  /** The backoff after k reconnects. */
  function Backoff(k: nat): nat { Min(INITIAL_BACKOFF_MS * Pow2(k), MAX_BACKOFF_MS) }

  ghost predicate SetFromABackoff(delay: real) {
    exists k :: WithinAFifth(delay, Backoff(k))
  }

  lemma BackoffGrows(k: nat)
    ensures Backoff(0) == INITIAL_BACKOFF_MS && Backoff(k) > 0 && Backoff(k + 1) == Min(Backoff(k) * 2, MAX_BACKOFF_MS)
  {
    assert Pow2(0) == 1 && Pow2(k + 1) == 2 * Pow2(k);
  }

  /** In every run the backoff is the initial second doubled once for each reconnect scheduled since
      the last success or `connect`, up to half a minute, and every timer's delay was within a fifth
      of the backoff it was set from. */
  lemma {:induction false} BackoffIsExact(events: seq<Event>)
    ensures Exec(START, events).backoffMs == Backoff(Reconnects(events))
    ensures forall t :: 0 <= t < |Exec(START, events).timers| ==> SetFromABackoff(Exec(START, events).timers[t].delay)
  {
    hide Step, WithinAFifth, Backoff;
    if events == [] {
      BackoffGrows(0);
    } else {
      var init, last := events[..|events| - 1], events[|events| - 1];
      BackoffIsExact(init);
      BackoffGrows(Reconnects(init));
      StepBackoff(Exec(START, init), last);
    }
  }
}
