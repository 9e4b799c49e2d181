/** The same tables with statements interleaved: each transaction on a request reads it, then deletes
    or updates it `WHERE status = 'pending'`, which takes its row lock until commit or rollback; a
    create's two checks and its insert are three statements
    (apps/api/src/contacts.rs:378-446, 605-676, 719-796). */
module ContactRaces {
  import opened Wrappers
  import opened Contacts

  datatype Kind = Accepting | Declining | Cancelling

  /** `Committing` holds the request's row lock, with the changes not yet visible. */
  datatype Point = Loading | Resolving | Committing | Ended(response: Response) | Failed
  datatype Transaction = Transaction(kind: Kind, caller: UserId, id: RequestId, at: Point)

  datatype CreatePoint = CheckingContact | CheckingIncoming | Inserting | Answered(response: Response)
  datatype Creation = Creation(caller: UserId, other: UserId, at: CreatePoint)

  datatype World = World(tables: Tables, transactions: seq<Transaction>, creations: seq<Creation>)

  /** `fails` is a database error, which rolls the transaction back. */
  datatype Event =
    | Begin(kind: Kind, caller: UserId, id: RequestId)
    | Advance(transaction: nat, fails: bool)
    | Ask(caller: UserId, other: UserId)
    | AdvanceAsk(creation: nat)

  predicate IsPending(t: Tables, id: RequestId) { id in t.requests && t.requests[id].status == Pending }

  /** Somebody else holds the row lock of this transaction's request. */
  predicate Locked(w: World, i: nat)
    requires i < |w.transactions|
  {
    exists j :: 0 <= j < |w.transactions| && j != i && w.transactions[j].id == w.transactions[i].id && w.transactions[j].at.Committing?
  }

  function Commit(t: Tables, tx: Transaction): Tables
    requires IsPending(t, tx.id)
  {
    match tx.kind
    case Accepting =>
      var r := t.requests[tx.id];
      t.(contacts := t.contacts + {(r.requester, r.recipient), (r.recipient, r.requester)}, requests := t.requests - {tx.id})
    case Declining => t.(requests := t.requests[tx.id := t.requests[tx.id].(status := Declined)])
    case Cancelling => t.(requests := t.requests - {tx.id})
  }

  /** A statement that finds the row locked waits, and looks at the row again when it is free. */
  function NextPoint(w: World, i: nat, fails: bool): Point
    requires i < |w.transactions|
  {
    var tx := w.transactions[i];
    match tx.at
    case Loading =>
      var loaded := LoadPending(w.tables, tx.id, tx.caller, !tx.kind.Cancelling?);
      if fails then Failed else if loaded.NoContent? then Resolving else Ended(loaded)
    case Resolving =>
      if fails then Failed
      else if Locked(w, i) then Resolving
      else if IsPending(w.tables, tx.id) then Committing
      else Ended(NotFound("request_not_found"))
    case Committing => if fails then Failed else Ended(NoContent)
    case done => done
  }

  predicate Commits(w: World, ev: Event) {
    ev.Advance? && ev.transaction < |w.transactions| && w.transactions[ev.transaction].at.Committing? && !ev.fails
  }

  /** The insert does nothing where the index on pending pairs already has the row. */
  function AskNext(t: Tables, c: Creation): (Tables, CreatePoint) {
    match c.at
    case CheckingContact =>
      (t, if (c.caller, c.other) in t.contacts || (c.other, c.caller) in t.contacts
          then Answered(Conflict("already_contact")) else CheckingIncoming)
    case CheckingIncoming =>
      (t, if HasPending(t.requests, c.other, c.caller) then Answered(Conflict("incoming_request_exists")) else Inserting)
    case Inserting =>
      if HasPending(t.requests, c.caller, c.other) then (t, Answered(Conflict("already_pending")))
      else (t.(requests := t.requests[t.nextId := Request(c.caller, c.other, Pending)], nextId := t.nextId + 1),
            Answered(Created(t.nextId)))
    case Answered(response) => (t, c.at)
  }

  function Step(w: World, ev: Event): World {
    match ev
    case Begin(kind, caller, id) => w.(transactions := w.transactions + [Transaction(kind, caller, id, Loading)])
    case Advance(i, fails) =>
      if i >= |w.transactions| then w
      else
        var tx := w.transactions[i];
        w.(transactions := w.transactions[i := tx.(at := NextPoint(w, i, fails))],
           tables := if Commits(w, ev) && IsPending(w.tables, tx.id) then Commit(w.tables, tx) else w.tables)
    case Ask(caller, other) =>
      if caller == other then w else w.(creations := w.creations + [Creation(caller, other, CheckingContact)])
    case AdvanceAsk(c) =>
      if c >= |w.creations| then w
      else
        var (tables, at) := AskNext(w.tables, w.creations[c]);
        w.(tables := tables, creations := w.creations[c := w.creations[c].(at := at)])
  }

  function Exec(w: World, events: seq<Event>): World {
    if events == [] then w else Step(Exec(w, events[..|events| - 1]), events[|events| - 1])
  }

  predicate Committed(tx: Transaction) { tx.at == Ended(NoContent) }

  ghost predicate IdsOk(t: Tables) { forall id :: id in t.requests ==> id < t.nextId }

  /** The holder of a row lock is alone with a pending row, and a request once resolved stays so. */
  ghost predicate LocksOk(w: World) {
    && (forall i :: 0 <= i < |w.transactions| && w.transactions[i].at.Committing? ==> IsPending(w.tables, w.transactions[i].id))
    && (forall i, j :: 0 <= i < j < |w.transactions| && w.transactions[i].at.Committing? && w.transactions[j].at.Committing? ==>
          w.transactions[i].id != w.transactions[j].id)
    && (forall i :: 0 <= i < |w.transactions| && Committed(w.transactions[i]) ==>
          w.transactions[i].id < w.tables.nextId && !IsPending(w.tables, w.transactions[i].id))
    && (forall i, j :: 0 <= i < j < |w.transactions| && Committed(w.transactions[i]) && Committed(w.transactions[j]) ==>
          w.transactions[i].id != w.transactions[j].id)
  }

  /** What any change of the tables but a commit may do. */
  ghost predicate OnlyAdds(t: Tables, t': Tables) {
    && t.nextId <= t'.nextId && IdsOk(t')
    && forall id: RequestId :: id < t.nextId ==> IsPending(t', id) == IsPending(t, id)
  }

  lemma AskOnlyAdds(t: Tables, c: Creation)
    requires IdsOk(t)
    ensures OnlyAdds(t, AskNext(t, c).0)
  {
    hide HasPending;
  }

  lemma TablesLocks(w: World, t: Tables, creations: seq<Creation>)
    requires IdsOk(w.tables) && LocksOk(w) && (t == w.tables || OnlyAdds(w.tables, t))
    ensures LocksOk(w.(tables := t, creations := creations))
  {
  }

  lemma BeginLocks(w: World, tx: Transaction)
    requires LocksOk(w) && tx.at == Loading
    ensures LocksOk(w.(transactions := w.transactions + [tx]))
  {
    hide IsPending;
  }

  /** A transaction that commits gives up its lock on a row it found pending. */
  lemma CommitLocks(w: World, i: nat)
    requires IdsOk(w.tables) && LocksOk(w) && i < |w.transactions| && w.transactions[i].at.Committing?
    requires IsPending(w.tables, w.transactions[i].id)
    ensures var tx := w.transactions[i];
            var t := Commit(w.tables, tx);
            IdsOk(t) && LocksOk(w.(tables := t, transactions := w.transactions[i := tx.(at := Ended(NoContent))]))
  {
    var tx := w.transactions[i];
    var t := Commit(w.tables, tx);
    assert !IsPending(t, tx.id) && t.nextId == w.tables.nextId;
    assert forall id: RequestId :: id != tx.id ==> IsPending(t, id) == IsPending(w.tables, id);
    CommitKeepsOthers(w, t, i);
  }

  lemma CommitKeepsOthers(w: World, t: Tables, i: nat)
    requires IdsOk(w.tables) && LocksOk(w) && i < |w.transactions| && w.transactions[i].at.Committing?
    requires t.nextId == w.tables.nextId && !IsPending(t, w.transactions[i].id) && w.transactions[i].id < t.nextId
    requires forall id: RequestId :: id != w.transactions[i].id ==> IsPending(t, id) == IsPending(w.tables, id)
    ensures LocksOk(w.(tables := t, transactions := w.transactions[i := w.transactions[i].(at := Ended(NoContent))]))
  {
    hide IsPending, IdsOk;
  }

  lemma AdvanceLocks(w: World, i: nat, fails: bool)
    requires LocksOk(w) && i < |w.transactions| && (fails || !w.transactions[i].at.Committing?)
    ensures LocksOk(w.(transactions := w.transactions[i := w.transactions[i].(at := NextPoint(w, i, fails))]))
  {
    hide IsPending;
    var tx := w.transactions[i];
    if tx.at.Loading? { LoadedNotCommitted(w, i, fails); }
    if tx.at.Resolving? && !Locked(w, i) { Alone(w, i); }
  }

  lemma LoadedNotCommitted(w: World, i: nat, fails: bool)
    requires i < |w.transactions| && w.transactions[i].at.Loading?
    ensures NextPoint(w, i, fails) != Ended(NoContent) && !NextPoint(w, i, fails).Committing?
  {
  }

  lemma Alone(w: World, i: nat)
    requires i < |w.transactions| && !Locked(w, i)
    ensures forall j :: 0 <= j < |w.transactions| && j != i && w.transactions[j].at.Committing? ==>
              w.transactions[j].id != w.transactions[i].id
  {
  }

  lemma StepLocks(w: World, ev: Event)
    requires IdsOk(w.tables) && LocksOk(w)
    ensures IdsOk(Step(w, ev).tables) && LocksOk(Step(w, ev))
  {
    hide LocksOk, IdsOk, NextPoint, AskNext, Commit, LoadPending;
    match ev
    case Begin(kind, caller, id) => BeginLocks(w, Transaction(kind, caller, id, Loading));
    case Advance(i, fails) =>
      if i < |w.transactions| {
        if Commits(w, ev) {
          HolderPending(w, i);
          CommitLocks(w, i);
          CommitEnds(w, i);
        } else {
          AdvanceLocks(w, i, fails);
        }
      }
    case Ask(_, _) => TablesLocks(w, w.tables, Step(w, ev).creations);
    case AdvanceAsk(c) =>
      if c < |w.creations| {
        AskOnlyAdds(w.tables, w.creations[c]);
        TablesLocks(w, Step(w, ev).tables, Step(w, ev).creations);
      }
  }

  lemma HolderPending(w: World, i: nat)
    requires LocksOk(w) && i < |w.transactions| && w.transactions[i].at.Committing?
    ensures IsPending(w.tables, w.transactions[i].id)
  {
  }

  lemma CommitEnds(w: World, i: nat)
    requires i < |w.transactions| && w.transactions[i].at.Committing?
    ensures NextPoint(w, i, false) == Ended(NoContent)
  {
  }

  /** Under any interleaving, and with any statement or commit failing, at most one accept, decline or
      cancel of a request commits, and a request it committed for is pending no more. */
  lemma {:induction false} OneResolutionCommits(t: Tables, events: seq<Event>)
    requires IdsOk(t)
    ensures var w := Exec(World(t, [], []), events);
            && IdsOk(w.tables) && LocksOk(w)
            && (forall i, j :: 0 <= i < j < |w.transactions| && Committed(w.transactions[i]) && Committed(w.transactions[j]) ==>
                  w.transactions[i].id != w.transactions[j].id)
            && (forall i :: 0 <= i < |w.transactions| && Committed(w.transactions[i]) ==>
                  !IsPending(w.tables, w.transactions[i].id))
  {
    hide Step, IdsOk;
    if events != [] {
      OneResolutionCommits(t, events[..|events| - 1]);
      StepLocks(Exec(World(t, [], []), events[..|events| - 1]), events[|events| - 1]);
    }
  }

  // ----- When the serial invariants survive interleaving

  /** A create's insert goes through. */
  predicate Inserts(w: World, ev: Event) {
    && ev.AdvanceAsk? && ev.creation < |w.creations| && w.creations[ev.creation].at.Inserting?
    && !HasPending(w.tables.requests, w.creations[ev.creation].caller, w.creations[ev.creation].other)
  }

  /** It does so while the other user's request is pending. */
  predicate CrossedInsert(w: World, ev: Event) {
    Inserts(w, ev) && HasPending(w.tables.requests, w.creations[ev.creation].other, w.creations[ev.creation].caller)
  }

  lemma InsertKeepsOneIff(t: Tables, c: Creation)
    requires IdsOk(t) && OnePendingPerPair(t) && c.at.Inserting? && !HasPending(t.requests, c.caller, c.other)
    ensures OnePendingPerPair(AskNext(t, c).0) <==> !HasPending(t.requests, c.other, c.caller)
  {
    var t' := AskNext(t, c).0;
    if HasPending(t.requests, c.other, c.caller) {
      var id :| id in t.requests && t.requests[id] == Request(c.other, c.caller, Pending);
      assert t'.requests[id] == t.requests[id] && Joins(t'.requests[id], t'.requests[t.nextId].requester, t'.requests[t.nextId].recipient);
    }
  }

  lemma CommitKeepsOne(t: Tables, tx: Transaction)
    requires OnePendingPerPair(t) && IsPending(t, tx.id)
    ensures OnePendingPerPair(Commit(t, tx))
  {
  }

  /** One step breaks 'one pending request per pair' exactly if it inserts a crossed request. */
  lemma StepOnePendingIff(w: World, ev: Event)
    requires IdsOk(w.tables) && OnePendingPerPair(w.tables)
    ensures OnePendingPerPair(Step(w, ev).tables) <==> !CrossedInsert(w, ev)
  {
    hide OnePendingPerPair, IdsOk, HasPending, NextPoint, Commit, LoadPending;
    match ev
    case Advance(i, _) =>
      if i < |w.transactions| && IsPending(w.tables, w.transactions[i].id) { CommitKeepsOne(w.tables, w.transactions[i]); }
    case AdvanceAsk(c) => if Inserts(w, ev) { InsertKeepsOneIff(w.tables, w.creations[c]); }
    case _ =>
  }

  ghost predicate OnePendingThroughout(w: World, events: seq<Event>) {
    && OnePendingPerPair(Exec(w, events).tables)
    && (events != [] ==> OnePendingThroughout(w, events[..|events| - 1]))
  }

  predicate NoCrossedInsert(w: World, events: seq<Event>) {
    events != [] ==>
      && NoCrossedInsert(w, events[..|events| - 1])
      && !CrossedInsert(Exec(w, events[..|events| - 1]), events[|events| - 1])
  }

  /** At every point of a run at most one pending request joins two users, if and only if no create
      inserts its request while the other user's is pending. */
  lemma {:induction false} OnePendingIff(t: Tables, events: seq<Event>)
    requires IdsOk(t) && OnePendingPerPair(t)
    ensures OnePendingThroughout(World(t, [], []), events) <==> NoCrossedInsert(World(t, [], []), events)
  {
    hide Step, IdsOk, OnePendingPerPair, CrossedInsert;
    if events != [] {
      var w, init := World(t, [], []), events[..|events| - 1];
      OnePendingIff(t, init);
      OneResolutionCommits(t, init);
      if OnePendingThroughout(w, init) { StepOnePendingIff(Exec(w, init), events[|events| - 1]); }
    }
  }

  /** A create's insert goes through although the two are contacts by now. */
  predicate LateInsert(w: World, ev: Event) {
    Inserts(w, ev) && (w.creations[ev.creation].caller, w.creations[ev.creation].other) in w.tables.contacts
  }

  /** An accept commits while another request between the two users is pending. */
  predicate AcceptsBeside(w: World, ev: Event) {
    && Commits(w, ev) && w.transactions[ev.transaction].kind.Accepting?
    && var id := w.transactions[ev.transaction].id;
    && IsPending(w.tables, id)
    && exists j :: j in w.tables.requests && j != id && w.tables.requests[j].status == Pending
                   && Joins(w.tables.requests[j], w.tables.requests[id].requester, w.tables.requests[id].recipient)
  }

  /** Nobody asks themselves. */
  ghost predicate AsksOthers(w: World) {
    forall c :: 0 <= c < |w.creations| ==> w.creations[c].caller != w.creations[c].other
  }

  lemma InsertApartIff(t: Tables, c: Creation)
    requires IdsOk(t) && PendingApart(t) && c.at.Inserting? && !HasPending(t.requests, c.caller, c.other) && c.caller != c.other
    ensures PendingApart(AskNext(t, c).0) <==> (c.caller, c.other) !in t.contacts
  {
    hide HasPending;
    var t' := AskNext(t, c).0;
    assert t'.requests[t.nextId] == Request(c.caller, c.other, Pending);
    assert forall i :: i in t.requests ==> t'.requests[i] == t.requests[i];
  }

  lemma CommitApartIff(t: Tables, tx: Transaction)
    requires PendingApart(t) && IsPending(t, tx.id)
    ensures PendingApart(Commit(t, tx)) <==>
            !(tx.kind.Accepting?
              && exists j :: j in t.requests && j != tx.id && t.requests[j].status == Pending
                             && Joins(t.requests[j], t.requests[tx.id].requester, t.requests[tx.id].recipient))
  {
    var t' := Commit(t, tx);
    assert forall j :: j in t'.requests && j != tx.id ==> j in t.requests && t'.requests[j] == t.requests[j];
    if exists j :: j in t.requests && j != tx.id && t.requests[j].status == Pending
                   && Joins(t.requests[j], t.requests[tx.id].requester, t.requests[tx.id].recipient) {
      var j :| j in t.requests && j != tx.id && t.requests[j].status == Pending
               && Joins(t.requests[j], t.requests[tx.id].requester, t.requests[tx.id].recipient);
      assert j in t'.requests;
    }
  }

  /** One step leaves a pending request between contacts exactly if it inserts one late or accepts one of
      two. */
  lemma StepApartIff(w: World, ev: Event)
    requires IdsOk(w.tables) && PendingApart(w.tables) && AsksOthers(w)
    ensures PendingApart(Step(w, ev).tables) <==> !LateInsert(w, ev) && !AcceptsBeside(w, ev)
  {
    hide PendingApart, IdsOk, HasPending, NextPoint, Commit, LoadPending;
    match ev
    case Advance(i, _) =>
      if i < |w.transactions| && IsPending(w.tables, w.transactions[i].id) { CommitApartIff(w.tables, w.transactions[i]); }
    case AdvanceAsk(c) => if Inserts(w, ev) { InsertApartIff(w.tables, w.creations[c]); }
    case _ =>
  }

  lemma {:induction false} RunAsksOthers(t: Tables, events: seq<Event>)
    ensures AsksOthers(Exec(World(t, [], []), events))
  {
    if events != [] {
      RunAsksOthers(t, events[..|events| - 1]);
      StepAsksOthers(Exec(World(t, [], []), events[..|events| - 1]), events[|events| - 1]);
    }
  }

  lemma StepAsksOthers(w: World, ev: Event)
    requires AsksOthers(w)
    ensures AsksOthers(Step(w, ev))
  {
    hide NextPoint, Commit, AskNext;
  }

  ghost predicate ApartThroughout(w: World, events: seq<Event>) {
    PendingApart(Exec(w, events).tables) && (events != [] ==> ApartThroughout(w, events[..|events| - 1]))
  }

  predicate NoLateRequest(w: World, events: seq<Event>) {
    events != [] ==>
      && NoLateRequest(w, events[..|events| - 1])
      && !LateInsert(Exec(w, events[..|events| - 1]), events[|events| - 1])
      && !AcceptsBeside(Exec(w, events[..|events| - 1]), events[|events| - 1])
  }

  /** At every point of a run no pending request joins two contacts, if and only if no create inserts one
      between users who have become contacts since it looked, and no accept commits beside another
      pending request of the pair. */
  lemma {:induction false} ApartIff(t: Tables, events: seq<Event>)
    requires IdsOk(t) && PendingApart(t)
    ensures ApartThroughout(World(t, [], []), events) <==> NoLateRequest(World(t, [], []), events)
  {
    hide Step, IdsOk, PendingApart, LateInsert, AcceptsBeside;
    if events != [] {
      var w, init := World(t, [], []), events[..|events| - 1];
      ApartIff(t, init);
      OneResolutionCommits(t, init);
      RunAsksOthers(t, init);
      if ApartThroughout(w, init) { StepApartIff(Exec(w, init), events[|events| - 1]); }
    }
  }

  // ----- Why the serial invariants need serial runs

  lemma ExecFour(w: World, e: seq<Event>)
    requires |e| == 4
    ensures Exec(w, e) == Step(Step(Step(Step(w, e[0]), e[1]), e[2]), e[3])
  {
    hide Step;
    assert e[..3][..2] == e[..2] && e[..3][..2][..1] == e[..1] && e[..3][..2][..1][..0] == [];
    assert Exec(w, e[..1]) == Step(w, e[0]) by { assert e[..1][..0] == []; }
    assert Exec(w, e[..2]) == Step(Exec(w, e[..1]), e[1]) by { assert e[..2][..1] == e[..1]; }
    assert Exec(w, e[..3]) == Step(Exec(w, e[..2]), e[2]);
    assert e[..4] == e && e[..|e| - 1] == e[..3];
  }

  lemma {:induction false} ExecConcat(w: World, first: seq<Event>, more: seq<Event>)
    ensures Exec(w, first + more) == Exec(Exec(w, first), more)
  {
    hide Step;
    if more == [] {
      assert first + more == first;
    } else {
      ExecConcat(w, first, more[..|more| - 1]);
      assert (first + more)[..|first + more| - 1] == first + more[..|more| - 1];
    }
  }

  /** Two users who ask each other at the same time, each past the check for a crossed request before
      the other's insert, leave two pending requests between them: the index on pending pairs is
      directed. */
  lemma CrossedAsksLeaveTwoPending(a: UserId, b: UserId)
    requires a != b
    ensures var t := Exec(World(EMPTY, [], []), [Ask(a, b), Ask(b, a), AdvanceAsk(0), AdvanceAsk(1)]
                                                + [AdvanceAsk(0), AdvanceAsk(1), AdvanceAsk(0), AdvanceAsk(1)]).tables;
            t.requests == map[0 := Request(a, b, Pending), 1 := Request(b, a, Pending)] && !OnePendingPerPair(t)
  {
    var w := World(EMPTY, [], []);
    var asks := [Ask(a, b), Ask(b, a), AdvanceAsk(0), AdvanceAsk(1)];
    var rest := [AdvanceAsk(0), AdvanceAsk(1), AdvanceAsk(0), AdvanceAsk(1)];
    ExecConcat(w, asks, rest);
    ExecFour(w, asks);
    var w1 := Step(Step(w, asks[0]), asks[1]);
    assert w1.creations == [Creation(a, b, CheckingContact), Creation(b, a, CheckingContact)];
    var w2 := Step(Step(w1, asks[2]), asks[3]);
    assert w2 == World(EMPTY, [], [Creation(a, b, CheckingIncoming), Creation(b, a, CheckingIncoming)]);
    ExecFour(w2, rest);
    CrossedInserts(a, b);
  }

  lemma CrossedInserts(a: UserId, b: UserId)
    requires a != b
    ensures var w := World(EMPTY, [], [Creation(a, b, CheckingIncoming), Creation(b, a, CheckingIncoming)]);
            var t := Step(Step(Step(Step(w, AdvanceAsk(0)), AdvanceAsk(1)), AdvanceAsk(0)), AdvanceAsk(1)).tables;
            t.requests == map[0 := Request(a, b, Pending), 1 := Request(b, a, Pending)] && !OnePendingPerPair(t)
  {
    var w := World(EMPTY, [], [Creation(a, b, CheckingIncoming), Creation(b, a, CheckingIncoming)]);
    assert !HasPending(map[], b, a) && !HasPending(map[], a, b);
    var w2 := Step(Step(w, AdvanceAsk(0)), AdvanceAsk(1));
    assert w2 == World(EMPTY, [], [Creation(a, b, Inserting), Creation(b, a, Inserting)]);
    var w3 := Step(w2, AdvanceAsk(0));
    assert w3.tables.requests == map[0 := Request(a, b, Pending)] && w3.tables.nextId == 1;
    assert !HasPending(w3.tables.requests, b, a);
    var t := Step(w3, AdvanceAsk(1)).tables;
    assert t.requests == map[0 := Request(a, b, Pending), 1 := Request(b, a, Pending)];
    assert Joins(t.requests[0], t.requests[1].requester, t.requests[1].recipient);
  }

  lemma AskedTwice(a: UserId, b: UserId)
    requires a != b
    ensures var w := Step(Step(Step(Step(World(EMPTY, [], []), Ask(a, b)), Ask(a, b)), AdvanceAsk(0)), AdvanceAsk(0));
            w == World(EMPTY, [], [Creation(a, b, Inserting), Creation(a, b, CheckingContact)])
  {
    var w1 := Step(Step(World(EMPTY, [], []), Ask(a, b)), Ask(a, b));
    assert w1.creations == [Creation(a, b, CheckingContact), Creation(a, b, CheckingContact)];
    var w2 := Step(w1, AdvanceAsk(0));
    assert w2.creations == [Creation(a, b, CheckingIncoming), Creation(a, b, CheckingContact)];
    var w3 := Step(w2, AdvanceAsk(0));
    assert w3.creations == [Creation(a, b, Inserting), Creation(a, b, CheckingContact)];
  }

  lemma BothPastChecks(a: UserId, b: UserId)
    requires a != b
    ensures var w := World(EMPTY, [], [Creation(a, b, Inserting), Creation(a, b, CheckingContact)]);
            var w' := Step(Step(Step(Step(w, AdvanceAsk(0)), AdvanceAsk(1)), AdvanceAsk(1)), Begin(Accepting, b, 0));
            w' == World(Tables({}, map[0 := Request(a, b, Pending)], 1), [Transaction(Accepting, b, 0, Loading)],
                        [Creation(a, b, Answered(Created(0))), Creation(a, b, Inserting)])
  {
    var w := World(EMPTY, [], [Creation(a, b, Inserting), Creation(a, b, CheckingContact)]);
    assert !HasPending(map[], a, b);
    var w1 := Step(w, AdvanceAsk(0));
    assert w1.tables == Tables({}, map[0 := Request(a, b, Pending)], 1);
    assert w1.creations == [Creation(a, b, Answered(Created(0))), Creation(a, b, CheckingContact)];
    var w2 := Step(w1, AdvanceAsk(1));
    assert w2.creations == [Creation(a, b, Answered(Created(0))), Creation(a, b, CheckingIncoming)];
    assert !HasPending(w2.tables.requests, b, a);
    var w3 := Step(w2, AdvanceAsk(1));
    assert w3.creations == [Creation(a, b, Answered(Created(0))), Creation(a, b, Inserting)];
  }

  lemma AcceptsFirst(a: UserId, b: UserId)
    requires a != b
    ensures var w := World(Tables({}, map[0 := Request(a, b, Pending)], 1), [Transaction(Accepting, b, 0, Loading)],
                           [Creation(a, b, Answered(Created(0))), Creation(a, b, Inserting)]);
            var t := Step(Step(Step(Step(w, Advance(0, false)), Advance(0, false)), Advance(0, false)), AdvanceAsk(1)).tables;
            t.contacts == {(a, b), (b, a)} && t.requests == map[1 := Request(a, b, Pending)] && !PendingApart(t)
  {
    var w := World(Tables({}, map[0 := Request(a, b, Pending)], 1), [Transaction(Accepting, b, 0, Loading)],
                   [Creation(a, b, Answered(Created(0))), Creation(a, b, Inserting)]);
    var w1 := Step(w, Advance(0, false));
    assert w1.transactions == [Transaction(Accepting, b, 0, Resolving)];
    var w2 := Step(w1, Advance(0, false));
    assert w2.transactions == [Transaction(Accepting, b, 0, Committing)];
    var w3 := Step(w2, Advance(0, false));
    assert w3.tables.requests == map[] && w3.tables.contacts == {(a, b), (b, a)};
    assert !HasPending(w3.tables.requests, a, b);
    var t := Step(w3, AdvanceAsk(1)).tables;
    assert t.requests == map[1 := Request(a, b, Pending)];
    assert t.requests[1].status == Pending;
  }

  /** A user who asks twice, with the first request accepted while the second waits to be inserted, ends
      up a contact with a request pending. */
  lemma AskedTwiceLeavesRequestBetweenContacts(a: UserId, b: UserId)
    requires a != b
    ensures var t := Exec(World(EMPTY, [], []), [Ask(a, b), Ask(a, b), AdvanceAsk(0), AdvanceAsk(0)]
                            + [AdvanceAsk(0), AdvanceAsk(1), AdvanceAsk(1), Begin(Accepting, b, 0)]
                            + [Advance(0, false), Advance(0, false), Advance(0, false), AdvanceAsk(1)]).tables;
            t.contacts == {(a, b), (b, a)} && t.requests == map[1 := Request(a, b, Pending)] && !PendingApart(t)
  {
    hide Step, PendingApart;
    var w := World(EMPTY, [], []);
    var e1 := [Ask(a, b), Ask(a, b), AdvanceAsk(0), AdvanceAsk(0)];
    var e2 := [AdvanceAsk(0), AdvanceAsk(1), AdvanceAsk(1), Begin(Accepting, b, 0)];
    var e3 := [Advance(0, false), Advance(0, false), Advance(0, false), AdvanceAsk(1)];
    ExecConcat(w, e1 + e2, e3);
    ExecConcat(w, e1, e2);
    ExecFour(w, e1);
    AskedTwice(a, b);
    ExecFour(Exec(w, e1), e2);
    BothPastChecks(a, b);
    ExecFour(Exec(w, e1 + e2), e3);
    AcceptsFirst(a, b);
  }

  // ----- Without interleaving

  /** A transaction that nobody steps into, on a row nobody has locked, does to the tables and answers what
      the request alone does. */
  lemma TransactionAlone(w: World, kind: Kind, caller: UserId, id: RequestId)
    requires forall j :: 0 <= j < |w.transactions| && w.transactions[j].id == id ==> !w.transactions[j].at.Committing?
    ensures var n := |w.transactions|;
            var w' := Exec(w, [Begin(kind, caller, id), Advance(n, false), Advance(n, false), Advance(n, false)]);
            && w'.tables == (match kind
                             case Accepting => AfterAccept(w.tables, caller, id)
                             case Declining => AfterDecline(w.tables, caller, id)
                             case Cancelling => AfterCancel(w.tables, caller, id))
            && w'.creations == w.creations
            && w'.transactions == w.transactions + [Transaction(kind, caller, id,
                                                                Ended(LoadPending(w.tables, id, caller, !kind.Cancelling?)))]
  {
    hide Step, Exec;
    var n := |w.transactions|;
    var begin, go := Begin(kind, caller, id), Advance(n, false);
    ExecFour(w, [begin, go, go, go]);
    BeginsLast(w, kind, caller, id);
    LoadsAlone(Step(w, begin), kind, caller, id);
    ResolvesAlone(Step(Step(w, begin), go), kind, caller, id);
    CommitsAlone(Step(Step(Step(w, begin), go), go), kind, caller, id);
    var w' := Exec(w, [begin, go, go, go]);
    assert w'.transactions == w'.transactions[..n] + [w'.transactions[n]];
  }

  /** The last transaction is this one, at this point, and all others leave its row alone. */
  ghost predicate LastAt(w: World, kind: Kind, caller: UserId, id: RequestId, at: Point) {
    && w.transactions != [] && w.transactions[|w.transactions| - 1] == Transaction(kind, caller, id, at)
    && forall j :: 0 <= j < |w.transactions| - 1 && w.transactions[j].id == id ==> !w.transactions[j].at.Committing?
  }

  predicate Moved(w: World, w': World) {
    w.transactions != [] && |w'.transactions| == |w.transactions|
    && w'.transactions[..|w.transactions| - 1] == w.transactions[..|w.transactions| - 1] && w'.creations == w.creations
  }

  lemma BeginsLast(w: World, kind: Kind, caller: UserId, id: RequestId)
    requires forall j :: 0 <= j < |w.transactions| && w.transactions[j].id == id ==> !w.transactions[j].at.Committing?
    ensures var w' := Step(w, Begin(kind, caller, id));
            && LastAt(w', kind, caller, id, Loading) && |w'.transactions| == |w.transactions| + 1
            && w'.transactions[..|w.transactions|] == w.transactions && w'.tables == w.tables && w'.creations == w.creations
  {
  }

  lemma LoadsAlone(w: World, kind: Kind, caller: UserId, id: RequestId)
    requires LastAt(w, kind, caller, id, Loading)
    ensures var w', loaded := Step(w, Advance(|w.transactions| - 1, false)), LoadPending(w.tables, id, caller, !kind.Cancelling?);
            && Moved(w, w') && w'.tables == w.tables
            && LastAt(w', kind, caller, id, if loaded.NoContent? then Resolving else Ended(loaded))
  {
    hide LoadPending;
  }

  lemma ResolvesAlone(w: World, kind: Kind, caller: UserId, id: RequestId)
    requires exists at :: LastAt(w, kind, caller, id, at) && (at.Resolving? || at.Ended?)
    ensures var w', at := Step(w, Advance(|w.transactions| - 1, false)), w.transactions[|w.transactions| - 1].at;
            && Moved(w, w') && w'.tables == w.tables
            && LastAt(w', kind, caller, id, if at.Ended? then at
                                            else if IsPending(w.tables, id) then Committing
                                            else Ended(NotFound("request_not_found")))
  {
  }

  lemma CommitsAlone(w: World, kind: Kind, caller: UserId, id: RequestId)
    requires exists at :: LastAt(w, kind, caller, id, at) && (at.Committing? || at.Ended?)
    requires LastAt(w, kind, caller, id, Committing) ==> IsPending(w.tables, id)
    ensures var w', at := Step(w, Advance(|w.transactions| - 1, false)), w.transactions[|w.transactions| - 1].at;
            && Moved(w, w')
            && w'.tables == (if at.Ended? then w.tables else Commit(w.tables, Transaction(kind, caller, id, at)))
            && LastAt(w', kind, caller, id, if at.Ended? then at else Ended(NoContent))
  {
  }

  /** The three statements of a create, one after the other. */
  lemma AskedInTurn(t: Tables, caller: UserId, other: UserId)
    requires caller != other
    ensures var (t1, at1) := AskNext(t, Creation(caller, other, CheckingContact));
            var (t2, at2) := AskNext(t1, Creation(caller, other, at1));
            AskNext(t2, Creation(caller, other, at2))
            == (AfterCreate(t, caller, User(other)), Answered(CreateResponse(t, caller, User(other))))
  {
    hide HasPending;
  }

  lemma AskStep(w: World, c: nat)
    requires c < |w.creations|
    ensures var (tables, at) := AskNext(w.tables, w.creations[c]);
            Step(w, AdvanceAsk(c)) == w.(tables := tables, creations := w.creations[c := w.creations[c].(at := at)])
  {
    hide AskNext;
  }

  /** So does a create. */
  lemma CreationAlone(w: World, caller: UserId, other: UserId)
    requires caller != other
    ensures var n := |w.creations|;
            var w' := Exec(w, [Ask(caller, other), AdvanceAsk(n), AdvanceAsk(n), AdvanceAsk(n)]);
            && w'.tables == AfterCreate(w.tables, caller, User(other))
            && w'.transactions == w.transactions
            && w'.creations == w.creations + [Creation(caller, other, Answered(CreateResponse(w.tables, caller, User(other))))]
  {
    hide AskNext, AfterCreate, CreateResponse, HasPending;
    var n := |w.creations|;
    var ask, go := Ask(caller, other), AdvanceAsk(n);
    ExecFour(w, [ask, go, go, go]);
    var w1 := Step(w, ask);
    hide Step;
    AskStep(w1, n);
    AskStep(Step(w1, go), n);
    AskStep(Step(Step(w1, go), go), n);
    AskedInTurn(w.tables, caller, other);
  }
}
