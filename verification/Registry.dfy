/** The registry of live connections and the life of a connection in it, over either transport
    (apps/api/src/registry.rs:56-81, apps/api/src/ws.rs:96-148, apps/api/src/quic.rs:284-327). */
module Registry {
  import opened Wrappers

  type UserId = nat
  /** A connection's outbound channel; connections are numbered in the order of their `insert`. */
  type Channel = nat

  type Entries = map<UserId, Channel>

  function Lookup(entries: Entries, user: UserId): Option<Channel> {
    if user in entries then Some(entries[user]) else None
  }

  function Without(entries: Entries, user: UserId, sender: Channel): Entries {
    if Lookup(entries, user) == Some(sender) then entries - {user} else entries
  }

  class ConnectionRegistry {
    var entries: Entries

    constructor ()
      ensures entries == map[]
    {
      entries := map[];
    }

    method Insert(user: UserId, sender: Channel) returns (previous: Option<Channel>)
      modifies this
      ensures previous == Lookup(old(entries), user)
      ensures Lookup(entries, user) == Some(sender)
      ensures forall u :: u != user ==> Lookup(entries, u) == Lookup(old(entries), u)
      ensures entries == old(entries)[user := sender]
    {
      previous := if user in entries then Some(entries[user]) else None;
      entries := entries[user := sender];
    }

    method Get(user: UserId) returns (sender: Option<Channel>)
      ensures sender == Lookup(entries, user)
    {
      sender := if user in entries then Some(entries[user]) else None;
    }

    /** The entry goes only if it is still the sender's own; nobody else's is touched. */
    method RemoveIfCurrent(user: UserId, sender: Channel)
      modifies this
      ensures Lookup(entries, user) == if Lookup(old(entries), user) == Some(sender) then None else Lookup(old(entries), user)
      ensures forall u :: u != user ==> Lookup(entries, u) == Lookup(old(entries), u)
      ensures entries == Without(old(entries), user, sender)
    {
      if user in entries {
        var existing := entries[user];
        if existing == sender {
          entries := entries - {user};
        }
      }
    }
  }

  // ----- The life of a connection

  datatype Transport = WebSocket | Quic

  /** Inserted, with the replaced connection still to be told; then serving; then cleaned up. */
  datatype Phase = Replacing | Serving | CleanedUp

  /** `previous` is what `insert` returned to this connection. */
  datatype Connection = Connection(user: UserId, transport: Transport, previous: Option<Channel>, phase: Phase)

  /** A `CLOSE_REPLACED` (4002) frame handed to a channel. */
  datatype ReplacedClose = ReplacedClose(replacer: Channel, replaced: Channel)

  datatype Server = Server(entries: Entries, connections: seq<Connection>, closes: seq<ReplacedClose>)

  const EMPTY: Server := Server(map[], [], [])

  datatype Event =
    | Accept(user: UserId, transport: Transport)
    | ClosePrevious(connection: Channel)
    | CleanUp(connection: Channel)

  function Step(s: Server, ev: Event): Server {
    match ev
    case Accept(user, transport) =>
      var c := |s.connections|;
      s.(entries := s.entries[user := c],
         connections := s.connections + [Connection(user, transport, Lookup(s.entries, user), Replacing)])
    case ClosePrevious(c) =>
      if c < |s.connections| && s.connections[c].phase == Replacing then
        var conn := s.connections[c];
        s.(connections := s.connections[c := conn.(phase := Serving)],
           closes := if conn.previous.Some? then s.closes + [ReplacedClose(c, conn.previous.value)] else s.closes)
      else s
    case CleanUp(c) =>
      if c < |s.connections| && s.connections[c].phase == Serving then
        var conn := s.connections[c];
        s.(entries := Without(s.entries, conn.user, c), connections := s.connections[c := conn.(phase := CleanedUp)])
      else s
  }

  function Exec(events: seq<Event>): Server {
    if events == [] then EMPTY else Step(Exec(events[..|events| - 1]), events[|events| - 1])
  }

  /** The user's connection inserted last. */
  function LastOf(connections: seq<Connection>, user: UserId): Option<Channel> {
    if connections == [] then None
    else
      var c := |connections| - 1;
      if connections[c].user == user then Some(c) else LastOf(connections[..c], user)
  }

  /** The user's connection inserted last among those that have not cleaned up. */
  function LatestLive(connections: seq<Connection>, user: UserId): Option<Channel> {
    if connections == [] then None
    else
      var c := |connections| - 1;
      if connections[c].user == user && connections[c].phase != CleanedUp then Some(c)
      else LatestLive(connections[..c], user)
  }

  predicate CleanedAt(connections: seq<Connection>, c: Channel) {
    c < |connections| && connections[c].phase == CleanedUp
  }

  /** A user is registered exactly while the connection inserted last has not cleaned up, and is
      registered by that connection. */
  ghost predicate EntriesOk(s: Server) {
    forall u: UserId :: Lookup(s.entries, u) ==
      match LastOf(s.connections, u)
      case Some(c) => if CleanedAt(s.connections, c) then None else Some(c)
      case None => None
  }

  lemma {:induction false} LastOfIsLast(connections: seq<Connection>, user: UserId)
    ensures LastOf(connections, user).Some? ==>
              LastOf(connections, user).value < |connections| && connections[LastOf(connections, user).value].user == user
    ensures forall c :: 0 <= c < |connections| && connections[c].user == user ==>
              LastOf(connections, user).Some? && c <= LastOf(connections, user).value
  {
    if connections != [] { LastOfIsLast(connections[..|connections| - 1], user); }
  }

  /** Who was inserted last does not depend on the connections' phases. */
  lemma {:induction false} LastOfIgnoresPhase(connections: seq<Connection>, connections': seq<Connection>, user: UserId)
    requires |connections'| == |connections|
    requires forall c :: 0 <= c < |connections| ==> connections'[c].user == connections[c].user
    ensures LastOf(connections', user) == LastOf(connections, user)
  {
    if connections != [] {
      var n := |connections| - 1;
      LastOfIgnoresPhase(connections[..n], connections'[..n], user);
    }
  }

  lemma StepEntries(s: Server, ev: Event)
    requires EntriesOk(s)
    ensures EntriesOk(Step(s, ev))
  {
    var s' := Step(s, ev);
    forall u: UserId
      ensures Lookup(s'.entries, u) ==
              match LastOf(s'.connections, u)
              case Some(c) => if CleanedAt(s'.connections, c) then None else Some(c)
              case None => None
    {
      LastOfIsLast(s.connections, u);
      if ev.Accept? {
        assert s'.connections[..|s.connections|] == s.connections;
      } else {
        LastOfIgnoresPhase(s.connections, s'.connections, u);
      }
    }
  }

  // ----- Replaced connections

  /** Who replaces whom: the connection inserted next for the same user, if its predecessor had not
      cleaned up by then. */
  ghost predicate PreviousOk(s: Server) {
    forall c :: 0 <= c < |s.connections| ==>
      var before := LastOf(s.connections[..c], s.connections[c].user);
      if s.connections[c].previous.Some? then s.connections[c].previous == before
      else before.Some? ==> CleanedAt(s.connections, before.value)
  }

  ghost predicate ClosesOk(s: Server) {
    && (forall i :: 0 <= i < |s.closes| ==>
          && s.closes[i].replacer < |s.connections|
          && s.connections[s.closes[i].replacer].phase != Replacing
          && s.connections[s.closes[i].replacer].previous == Some(s.closes[i].replaced))
    && (forall c :: 0 <= c < |s.connections| && s.connections[c].phase != Replacing && s.connections[c].previous.Some? ==>
          ReplacedClose(c, s.connections[c].previous.value) in s.closes)
    && (forall i, j :: 0 <= i < j < |s.closes| ==> s.closes[i].replacer != s.closes[j].replacer)
  }

  ghost predicate Inv(s: Server) { EntriesOk(s) && PreviousOk(s) && ClosesOk(s) }

  lemma StepPrevious(s: Server, ev: Event)
    requires EntriesOk(s) && PreviousOk(s)
    ensures PreviousOk(Step(s, ev))
  {
    var s' := Step(s, ev);
    forall c | 0 <= c < |s'.connections|
      ensures var before := LastOf(s'.connections[..c], s'.connections[c].user);
              if s'.connections[c].previous.Some? then s'.connections[c].previous == before
              else before.Some? ==> CleanedAt(s'.connections, before.value)
    {
      var u := s'.connections[c].user;
      if ev.Accept? {
        assert s'.connections[..c] == s.connections[..c];
        if c == |s.connections| {
          assert s.connections[..c] == s.connections;
          LastOfIsLast(s.connections, u);
        } else {
          LastOfIsLast(s.connections[..c], u);
        }
      } else {
        LastOfIgnoresPhase(s.connections[..c], s'.connections[..c], u);
        LastOfIsLast(s.connections[..c], u);
      }
    }
  }

  lemma StepCloses(s: Server, ev: Event)
    requires ClosesOk(s)
    ensures ClosesOk(Step(s, ev))
  {
  }

  lemma {:induction false} ExecInv(events: seq<Event>)
    ensures Inv(Exec(events))
  {
    hide Step, EntriesOk, PreviousOk, ClosesOk;
    if events == [] {
      EmptyInv();
    } else {
      var s := Exec(events[..|events| - 1]);
      ExecInv(events[..|events| - 1]);
      StepEntries(s, events[|events| - 1]);
      StepPrevious(s, events[|events| - 1]);
      StepCloses(s, events[|events| - 1]);
    }
  }

  lemma EmptyInv()
    ensures Inv(EMPTY)
  {
  }

  // ----- What follows

  /** In every run, over both transports, an entry is the user's connection inserted last, and is
      there exactly until that connection cleans up. */
  lemma EntryIsLastInserted(events: seq<Event>, user: UserId, c: Channel)
    ensures var s := Exec(events);
            Lookup(s.entries, user) == Some(c)
            <==> LastOf(s.connections, user) == Some(c) && !CleanedAt(s.connections, c)
  {
    hide Exec;
    ExecInv(events);
  }

  lemma {:induction false} LatestLiveIsLatest(connections: seq<Connection>, user: UserId)
    ensures forall c :: 0 <= c < |connections| && connections[c].user == user && connections[c].phase != CleanedUp ==>
              LatestLive(connections, user).Some? && c <= LatestLive(connections, user).value
    ensures LatestLive(connections, user).Some? ==>
              var c := LatestLive(connections, user).value;
              c < |connections| && connections[c].user == user && connections[c].phase != CleanedUp
  {
    if connections != [] { LatestLiveIsLatest(connections[..|connections| - 1], user); }
  }

  /** The entry is the latest connection that has not cleaned up exactly when the one inserted last
      has not cleaned up, or all of the user's have. */
  lemma EntryIsLatestLiveIff(events: seq<Event>, user: UserId)
    ensures var s := Exec(events);
            Lookup(s.entries, user) == LatestLive(s.connections, user)
            <==> (LastOf(s.connections, user).Some? && CleanedAt(s.connections, LastOf(s.connections, user).value) ==>
                    forall c :: 0 <= c < |s.connections| && s.connections[c].user == user ==> CleanedAt(s.connections, c))
  {
    hide Exec;
    var s := Exec(events);
    ExecInv(events);
    LastOfIsLast(s.connections, user);
    LatestLiveIsLatest(s.connections, user);
  }

  /** A replaced connection that outlives its replacer is not registered again: the user has a
      connection that has not cleaned up and no entry. */
  lemma OutlivedReplacerLeavesNoEntry(user: UserId)
    ensures var s := Exec([Accept(user, WebSocket), Accept(user, Quic), ClosePrevious(1), CleanUp(1)]);
            Lookup(s.entries, user) == None && LatestLive(s.connections, user) == Some(0)
  {
    hide LatestLive;
    var e1 := [Accept(user, WebSocket)];
    var e2 := e1 + [Accept(user, Quic)];
    var e3 := e2 + [ClosePrevious(1)];
    var e4 := e3 + [CleanUp(1)];
    assert e4[..3] == e3 && e3[..2] == e2 && e2[..1] == e1 && e1[..0] == [];
    assert Exec(e1).connections == [Connection(user, WebSocket, None, Replacing)];
    assert Exec(e2).connections == [Connection(user, WebSocket, None, Replacing), Connection(user, Quic, Some(0), Replacing)];
    assert Exec(e3).connections == [Connection(user, WebSocket, None, Replacing), Connection(user, Quic, Some(0), Serving)];
    assert Exec(e3).entries == map[user := 1];
    assert Exec(e4).connections == [Connection(user, WebSocket, None, Replacing), Connection(user, Quic, Some(0), CleanedUp)];
    assert e4 == [Accept(user, WebSocket), Accept(user, Quic), ClosePrevious(1), CleanUp(1)];
    LatestLiveIsLatest(Exec(e4).connections, user);
    assert Exec(e4).connections[0].phase != CleanedUp && Exec(e4).connections[1].phase == CleanedUp;
  }

  /** Cleaning up touches nobody's entry but the cleaner's own: a replaced connection's changes
      nothing. */
  lemma CleanUpSparesOthers(events: seq<Event>, c: Channel)
    requires c < |Exec(events).connections| && Exec(events).connections[c].phase == Serving
    ensures var s, s' := Exec(events), Step(Exec(events), CleanUp(c));
            && CleanedAt(s'.connections, c)
            && (forall u :: Lookup(s'.entries, u) == Some(c) ==> false)
            && (forall u, d :: d != c && Lookup(s.entries, u) == Some(d) ==> Lookup(s'.entries, u) == Some(d))
            && (LastOf(s.connections, s.connections[c].user) != Some(c) ==> s'.entries == s.entries)
  {
    hide Exec;
    var s := Exec(events);
    ExecInv(events);
    forall u | Lookup(Step(s, CleanUp(c)).entries, u) == Some(c) ensures false {
      LastOfIsLast(s.connections, u);
    }
  }

  /** Every replaced connection is sent one 4002 close, by the connection that replaced it: the one
      inserted next for the same user. It is replaced exactly if it had not cleaned up by then. */
  lemma ReplacedClosedOnce(events: seq<Event>)
    ensures var s := Exec(events);
            && (forall i, j :: 0 <= i < j < |s.closes| ==> s.closes[i].replaced != s.closes[j].replaced)
            && (forall c: Channel, d: Channel :: ReplacedClose(c, d) in s.closes <==>
                  c < |s.connections| && s.connections[c].previous == Some(d) && s.connections[c].phase != Replacing)
            && (forall c: Channel, d: Channel :: c < |s.connections| && s.connections[c].previous == Some(d) ==>
                  LastOf(s.connections[..c], s.connections[c].user) == Some(d))
            && (forall c: Channel :: c < |s.connections| && s.connections[c].previous == None ==>
                  var before := LastOf(s.connections[..c], s.connections[c].user);
                  before.Some? ==> CleanedAt(s.connections, before.value))
  {
    hide Exec;
    var s := Exec(events);
    ExecInv(events);
    forall i, j | 0 <= i < j < |s.closes| ensures s.closes[i].replaced != s.closes[j].replaced {
      if s.closes[i].replaced == s.closes[j].replaced { ReplacerIsUnique(s, s.closes[i].replacer, s.closes[j].replacer, s.closes[i].replaced); }
    }
  }

  lemma ReplacerIsUnique(s: Server, b: Channel, c: Channel, d: Channel)
    requires PreviousOk(s) && b < |s.connections| && c < |s.connections|
    requires s.connections[b].previous == s.connections[c].previous == Some(d)
    ensures b == c
  {
    LastOfIsLast(s.connections[..b], s.connections[b].user);
    LastOfIsLast(s.connections[..c], s.connections[c].user);
  }
}
