/** Contacts and contact requests, one request at a time (apps/api/src/contacts.rs). What happens
    when their statements interleave is in `ContactRaces`. */
module Contacts {
  import opened Wrappers

  type UserId = nat
  type RequestId = nat

  datatype Status = Pending | Declined

  datatype Request = Request(requester: UserId, recipient: UserId, status: Status)

  /** The two tables: `contacts` rows as (owner, contact), and `contact_requests` by id. Ids are never
      used twice. */
  datatype Tables = Tables(contacts: set<(UserId, UserId)>, requests: map<RequestId, Request>, nextId: RequestId)

  const EMPTY: Tables := Tables({}, map[], 0)

  /** What the payload of a create names: both an email and a username, nobody, or a user. */
  datatype Target = BothGiven | Unknown | User(id: UserId)

  datatype Response =
    | Created(id: RequestId)
    | NoContent
    | BadRequest(error: string)
    | Forbidden(error: string)
    | NotFound(error: string)
    | Conflict(error: string)
    | InternalError

  datatype Payload = Payload(email: Option<string>, username: Option<string>)

  /** The users, by the columns a create looks them up by. */
  datatype Directory = Directory(byEmail: map<string, UserId>, byUsername: map<string, UserId>)

  function Find(index: map<string, UserId>, key: string): Target {
    if key in index then User(index[key]) else Unknown
  }

  /** `lower` is the database's; a payload without either is an empty email. */
  function TargetOf(payload: Payload, users: Directory, lower: string -> string): Target {
    match (payload.email, payload.username)
    case (Some(_), Some(_)) => BothGiven
    case (None, Some(username)) => Find(users.byUsername, lower(username))
    case (Some(email), None) => Find(users.byEmail, email)
    case (None, None) => Find(users.byEmail, "")
  }

  /** The payload names user u. */
  predicate Names(payload: Payload, users: Directory, lower: string -> string, u: UserId) {
    if payload.username.Some? then
      var key := lower(payload.username.value);
      payload.email.None? && key in users.byUsername && users.byUsername[key] == u
    else
      var key := if payload.email.Some? then payload.email.value else "";
      key in users.byEmail && users.byEmail[key] == u
  }

  predicate Befriended(t: Tables, a: UserId, b: UserId) { (a, b) in t.contacts || (b, a) in t.contacts }

  /** The statements of a create. */
  datatype Statement = LookUp | CheckContact | CheckIncoming | Insert

  predicate HasPending(requests: map<RequestId, Request>, requester: UserId, recipient: UserId) {
    exists id :: id in requests && requests[id] == Request(requester, recipient, Pending)
  }

  function CreateResponse(t: Tables, caller: UserId, target: Target): Response {
    match target
    case BothGiven => BadRequest("invalid_request")
    case Unknown => NotFound("user_not_found")
    case User(id) =>
      if id == caller then BadRequest("cannot_add_self")
      else if (caller, id) in t.contacts || (id, caller) in t.contacts then Conflict("already_contact")
      else if HasPending(t.requests, id, caller) then Conflict("incoming_request_exists")
      else if HasPending(t.requests, caller, id) then Conflict("already_pending")
      else Created(t.nextId)
  }

  function AfterCreate(t: Tables, caller: UserId, target: Target): Tables {
    if CreateResponse(t, caller, target).Created?
    then t.(requests := t.requests[t.nextId := Request(caller, target.id, Pending)], nextId := t.nextId + 1)
    else t
  }

  /** The two `load_pending_request_*` checks: who is asking comes before the status. */
  function LoadPending(t: Tables, id: RequestId, caller: UserId, asRecipient: bool): Response {
    if id !in t.requests then NotFound("request_not_found")
    else
      var r := t.requests[id];
      if (if asRecipient then r.recipient else r.requester) != caller
      then Forbidden(if asRecipient then "not_recipient" else "not_requester")
      else if r.status != Pending then NotFound("request_not_found")
      else NoContent
  }

  function AfterAccept(t: Tables, caller: UserId, id: RequestId): Tables {
    if LoadPending(t, id, caller, true).NoContent? then
      var r := t.requests[id];
      t.(contacts := t.contacts + {(r.requester, r.recipient), (r.recipient, r.requester)}, requests := t.requests - {id})
    else t
  }

  function AfterDecline(t: Tables, caller: UserId, id: RequestId): Tables {
    if LoadPending(t, id, caller, true).NoContent?
    then t.(requests := t.requests[id := t.requests[id].(status := Declined)])
    else t
  }

  function AfterCancel(t: Tables, caller: UserId, id: RequestId): Tables {
    if LoadPending(t, id, caller, false).NoContent? then t.(requests := t.requests - {id}) else t
  }

  function RemoveResponse(t: Tables, caller: UserId, other: UserId): Response {
    if (caller, other) in t.contacts then NoContent else NotFound("not_found")
  }

  function AfterRemove(t: Tables, caller: UserId, other: UserId): Tables {
    if RemoveResponse(t, caller, other).NoContent?
    then t.(contacts := t.contacts - {(caller, other), (other, caller)})
    else t
  }

  class Service {
    var contacts: set<(UserId, UserId)>
    var requests: map<RequestId, Request>
    var nextId: RequestId

    function View(): Tables
      reads this
    {
      Tables(contacts, requests, nextId)
    }

    constructor ()
      ensures View() == EMPTY
    {
      contacts, requests, nextId := {}, map[], 0;
    }

    /** `incoming` is the crossed request a conflict points to; `failing` are the statements the database
        would refuse. */
    method CreateContactRequest(caller: UserId, payload: Payload, users: Directory, lower: string -> string,
                                failing: set<Statement>)
      returns (response: Response, incoming: Option<RequestId>)
      modifies this
      ensures var target := TargetOf(payload, users, lower);
              && (response == InternalError ==> View() == old(View()))
              && (response != InternalError ==>
                    response == CreateResponse(old(View()), caller, target) && View() == AfterCreate(old(View()), caller, target))
              && (response == Conflict("incoming_request_exists") <==> incoming.Some?)
              && (incoming.Some? ==>
                    && incoming.value in old(requests) && target.User?
                    && old(requests)[incoming.value] == Request(target.id, caller, Pending))
      ensures response == InternalError <==>
                && !(payload.email.Some? && payload.username.Some?)
                && (LookUp in failing
                    || exists u :: Names(payload, users, lower, u) && u != caller
                                   && (CheckContact in failing
                                       || (!Befriended(old(View()), caller, u)
                                           && (CheckIncoming in failing
                                               || (Insert in failing && Request(u, caller, Pending) !in old(requests).Values)))))
      ensures response != InternalError ==>
                && (response == BadRequest("invalid_request") <==> payload.email.Some? && payload.username.Some?)
                && (response == NotFound("user_not_found") <==>
                      !(payload.email.Some? && payload.username.Some?) && forall u :: !Names(payload, users, lower, u))
                && (response == BadRequest("cannot_add_self") <==> Names(payload, users, lower, caller))
      ensures forall u :: response != InternalError && Names(payload, users, lower, u) && u != caller ==>
                && (response == Conflict("already_contact") <==> Befriended(old(View()), caller, u))
                && (response == Conflict("incoming_request_exists") <==>
                      !Befriended(old(View()), caller, u) && Request(u, caller, Pending) in old(requests).Values)
                && (response == Conflict("already_pending") <==>
                      !Befriended(old(View()), caller, u) && Request(u, caller, Pending) !in old(requests).Values
                      && Request(caller, u, Pending) in old(requests).Values)
                && (response == Created(old(nextId)) <==>
                      !Befriended(old(View()), caller, u) && Request(u, caller, Pending) !in old(requests).Values
                      && Request(caller, u, Pending) !in old(requests).Values)
                && (response.Created? ==> View() == Tables(old(contacts), old(requests)[old(nextId) := Request(caller, u, Pending)],
                                                           old(nextId) + 1))
      ensures !response.Created? ==> View() == old(View())
    {
      assert forall r :: r in requests.Values <==> exists id :: id in requests && requests[id] == r;

      incoming := None;
      if payload.email.Some? && payload.username.Some? {
        return BadRequest("invalid_request"), None;
      }
      if LookUp in failing {
        return InternalError, None;
      }
      var target: Target;
      if payload.username.Some? {
        target := Find(users.byUsername, lower(payload.username.value));
      } else {
        target := Find(users.byEmail, if payload.email.Some? then payload.email.value else "");
      }
      if target.Unknown? {
        return NotFound("user_not_found"), None;
      }
      var id := target.id;
      assert Names(payload, users, lower, id);
      if id == caller {
        return BadRequest("cannot_add_self"), None;
      }
      if CheckContact in failing {
        return InternalError, None;
      }
      if (caller, id) in contacts || (id, caller) in contacts {
        return Conflict("already_contact"), None;
      }
      if CheckIncoming in failing {
        return InternalError, None;
      }
      if HasPending(requests, id, caller) {
        var crossed :| crossed in requests && requests[crossed] == Request(id, caller, Pending);
        return Conflict("incoming_request_exists"), Some(crossed);
      }
      if Insert in failing {
        return InternalError, None;
      }
      if HasPending(requests, caller, id) {
        return Conflict("already_pending"), None;
      }
      requests := requests[nextId := Request(caller, id, Pending)];
      nextId := nextId + 1;
      response := Created(nextId - 1);
    }

    method AcceptContactRequest(caller: UserId, id: RequestId) returns (response: Response)
      modifies this
      ensures response == LoadPending(old(View()), id, caller, true)
      ensures View() == AfterAccept(old(View()), caller, id)
      ensures response == NoContent <==>
                id in old(requests) && old(requests)[id].recipient == caller && old(requests)[id].status == Pending
      ensures response == Forbidden("not_recipient") <==> id in old(requests) && old(requests)[id].recipient != caller
      ensures response == NotFound("request_not_found") <==>
                id !in old(requests) || (old(requests)[id].recipient == caller && old(requests)[id].status == Declined)
      ensures if response == NoContent then
                var r := old(requests)[id];
                && contacts == old(contacts) + {(r.requester, r.recipient), (r.recipient, r.requester)}
                && requests == old(requests) - {id} && nextId == old(nextId)
              else View() == old(View())
    {
      response := LoadPending(View(), id, caller, true);
      if !response.NoContent? {
        return;
      }
      var requester, recipient := requests[id].requester, requests[id].recipient;
      contacts := contacts + {(requester, recipient)} + {(recipient, requester)};
      requests := requests - {id};
    }

    method DeclineContactRequest(caller: UserId, id: RequestId) returns (response: Response)
      modifies this
      ensures response == LoadPending(old(View()), id, caller, true)
      ensures View() == AfterDecline(old(View()), caller, id)
      ensures response == NoContent <==>
                id in old(requests) && old(requests)[id].recipient == caller && old(requests)[id].status == Pending
      ensures response == Forbidden("not_recipient") <==> id in old(requests) && old(requests)[id].recipient != caller
      ensures response == NotFound("request_not_found") <==>
                id !in old(requests) || (old(requests)[id].recipient == caller && old(requests)[id].status == Declined)
      ensures if response == NoContent then
                && contacts == old(contacts) && nextId == old(nextId)
                && requests == old(requests)[id := Request(old(requests)[id].requester, caller, Declined)]
              else View() == old(View())
    {
      response := LoadPending(View(), id, caller, true);
      if !response.NoContent? {
        return;
      }
      requests := requests[id := requests[id].(status := Declined)];
    }

    method CancelContactRequest(caller: UserId, id: RequestId) returns (response: Response)
      modifies this
      ensures response == LoadPending(old(View()), id, caller, false)
      ensures View() == AfterCancel(old(View()), caller, id)
      ensures response == NoContent <==>
                id in old(requests) && old(requests)[id].requester == caller && old(requests)[id].status == Pending
      ensures response == Forbidden("not_requester") <==> id in old(requests) && old(requests)[id].requester != caller
      ensures response == NotFound("request_not_found") <==>
                id !in old(requests) || (old(requests)[id].requester == caller && old(requests)[id].status == Declined)
      ensures if response == NoContent then
                contacts == old(contacts) && requests == old(requests) - {id} && nextId == old(nextId)
              else View() == old(View())
    {
      response := LoadPending(View(), id, caller, false);
      if !response.NoContent? {
        return;
      }
      requests := requests - {id};
    }

    method RemoveContact(caller: UserId, other: UserId) returns (response: Response)
      modifies this
      ensures response == RemoveResponse(old(View()), caller, other)
      ensures View() == AfterRemove(old(View()), caller, other)
      ensures response == if (caller, other) in old(contacts) then NoContent else NotFound("not_found")
      ensures response == NoContent ==> contacts == old(contacts) - {(caller, other), (other, caller)}
      ensures response != NoContent ==> contacts == old(contacts)
      ensures requests == old(requests) && nextId == old(nextId)
    {
      if (caller, other) !in contacts {
        return NotFound("not_found");
      }
      contacts := contacts - {(caller, other)};
      contacts := contacts - {(other, caller)};
      response := NoContent;
    }
  }

  // ----- Serial runs

  datatype Event =
    | Create(caller: UserId, target: Target)
    | Accept(caller: UserId, id: RequestId)
    | Decline(caller: UserId, id: RequestId)
    | Cancel(caller: UserId, id: RequestId)
    | Remove(caller: UserId, other: UserId)

  function Step(t: Tables, ev: Event): Tables {
    match ev
    case Create(caller, target) => AfterCreate(t, caller, target)
    case Accept(caller, id) => AfterAccept(t, caller, id)
    case Decline(caller, id) => AfterDecline(t, caller, id)
    case Cancel(caller, id) => AfterCancel(t, caller, id)
    case Remove(caller, other) => AfterRemove(t, caller, other)
  }

  function Exec(events: seq<Event>): Tables {
    if events == [] then EMPTY else Step(Exec(events[..|events| - 1]), events[|events| - 1])
  }

  predicate Joins(r: Request, a: UserId, b: UserId) {
    (r.requester == a && r.recipient == b) || (r.requester == b && r.recipient == a)
  }

  ghost predicate SymmetricIrreflexive(contacts: set<(UserId, UserId)>) {
    forall a, b :: (a, b) in contacts ==> (b, a) in contacts && a != b
  }

  /** At most one pending request joins two users, in either direction. */
  ghost predicate OnePendingPerPair(t: Tables) {
    forall i, j :: i in t.requests && j in t.requests && t.requests[i].status == t.requests[j].status == Pending ==>
      Joins(t.requests[i], t.requests[j].requester, t.requests[j].recipient) ==> i == j
  }

  /** No pending request joins two contacts, or a user to themselves. */
  ghost predicate PendingApart(t: Tables) {
    forall i :: i in t.requests && t.requests[i].status == Pending ==>
      t.requests[i].requester != t.requests[i].recipient && (t.requests[i].requester, t.requests[i].recipient) !in t.contacts
  }

  ghost predicate Inv(t: Tables) {
    && SymmetricIrreflexive(t.contacts) && OnePendingPerPair(t) && PendingApart(t)
    && (forall i :: i in t.requests ==> i < t.nextId)
  }

  lemma CreateInv(t: Tables, caller: UserId, target: Target)
    requires Inv(t)
    ensures Inv(AfterCreate(t, caller, target))
  {
  }

  lemma AcceptInv(t: Tables, caller: UserId, id: RequestId)
    requires Inv(t)
    ensures Inv(AfterAccept(t, caller, id))
  {
  }

  lemma DeclineInv(t: Tables, caller: UserId, id: RequestId)
    requires Inv(t)
    ensures Inv(AfterDecline(t, caller, id))
  {
  }

  lemma CancelInv(t: Tables, caller: UserId, id: RequestId)
    requires Inv(t)
    ensures Inv(AfterCancel(t, caller, id))
  {
  }

  lemma RemoveInv(t: Tables, caller: UserId, other: UserId)
    requires Inv(t)
    ensures Inv(AfterRemove(t, caller, other))
  {
  }

  /** In every serial run contacts are symmetric and irreflexive, at most one pending request joins
      two users, and none joins two contacts. */
  lemma {:induction false} SerialRunsKeep(events: seq<Event>)
    ensures Inv(Exec(events))
  {
    hide Inv, AfterCreate, AfterAccept, AfterDecline, AfterCancel, AfterRemove;
    if events == [] {
      EmptyInv();
    } else {
      var t := Exec(events[..|events| - 1]);
      SerialRunsKeep(events[..|events| - 1]);
      match events[|events| - 1]
      case Create(caller, target) => CreateInv(t, caller, target);
      case Accept(caller, id) => AcceptInv(t, caller, id);
      case Decline(caller, id) => DeclineInv(t, caller, id);
      case Cancel(caller, id) => CancelInv(t, caller, id);
      case Remove(caller, other) => RemoveInv(t, caller, other);
    }
  }

  lemma EmptyInv()
    ensures Inv(EMPTY)
  {
  }

  /** Every stored request was created by its requester, with the answer carrying its id. */
  lemma {:induction false} RequestWasCreated(events: seq<Event>, id: RequestId) returns (m: nat)
    requires id in Exec(events).requests
    ensures m < |events|
    ensures var r := Exec(events).requests[id];
            && events[m] == Create(r.requester, User(r.recipient))
            && CreateResponse(Exec(events[..m]), r.requester, User(r.recipient)) == Created(id)
  {
    hide CreateResponse;
    var n := |events| - 1;
    var t, ev := Exec(events[..n]), events[n];
    if id in t.requests && Exec(events).requests[id] == t.requests[id].(status := Exec(events).requests[id].status) {
      m := RequestWasCreated(events[..n], id);
      assert events[..n][..m] == events[..m];
    } else {
      CreatedIdIsNext(t, ev.caller, ev.target);
      SerialRunsKeep(events[..n]);
      m := n;
    }
  }

  lemma CreatedIdIsNext(t: Tables, caller: UserId, target: Target)
    requires CreateResponse(t, caller, target).Created?
    ensures CreateResponse(t, caller, target).id == t.nextId && target.User?
  {
  }

  /** Nobody becomes anybody's contact without both agreeing: one asked, and the other accepted what
      was asked. */
  lemma {:induction false} ContactsConsented(events: seq<Event>, a: UserId, b: UserId) returns (m: nat, n: nat, id: RequestId)
    requires (a, b) in Exec(events).contacts
    ensures m < n < |events|
    ensures events[m] in {Create(a, User(b)), Create(b, User(a))}
    ensures CreateResponse(Exec(events[..m]), events[m].caller, events[m].target) == Created(id)
    ensures events[n] == Accept(if events[m].caller == a then b else a, id)
    ensures LoadPending(Exec(events[..n]), id, events[n].caller, true) == NoContent
  {
    hide CreateResponse;
    var k := |events| - 1;
    var t, ev := Exec(events[..k]), events[k];
    if (a, b) in t.contacts {
      m, n, id := ContactsConsented(events[..k], a, b);
      assert events[..k][..m] == events[..m] && events[..k][..n] == events[..n];
    } else {
      n, id := k, ev.id;
      m := RequestWasCreated(events[..k], id);
      assert events[..k][..m] == events[..m];
      SerialRunsKeep(events[..k]);
    }
  }

  /** An accept of a request between a and b that succeeds. */
  predicate Accepts(t: Tables, ev: Event, a: UserId, b: UserId) {
    && ev.Accept? && ev.id in t.requests && t.requests[ev.id].status == Pending
    && t.requests[ev.id].recipient == ev.caller && Joins(t.requests[ev.id], a, b)
  }

  /** A remove between a and b that succeeds. */
  predicate Removes(t: Tables, ev: Event, a: UserId, b: UserId) {
    (ev == Remove(a, b) && (a, b) in t.contacts) || (ev == Remove(b, a) && (b, a) in t.contacts)
  }

  predicate AcceptedAt(events: seq<Event>, n: nat, a: UserId, b: UserId) {
    n < |events| && Accepts(Exec(events[..n]), events[n], a, b)
  }

  predicate RemovedAt(events: seq<Event>, n: nat, a: UserId, b: UserId) {
    n < |events| && Removes(Exec(events[..n]), events[n], a, b)
  }

  /** An accept between them succeeded at n, and no remove between them has since. */
  ghost predicate JoinedAt(events: seq<Event>, n: nat, a: UserId, b: UserId) {
    AcceptedAt(events, n, a, b) && forall m: nat :: n < m ==> !RemovedAt(events, m, a, b)
  }

  /** Two users are contacts, in both directions, exactly if an accept of a request between them succeeded
      after the last remove between them that did. */
  lemma {:induction false} ContactsIff(events: seq<Event>, a: UserId, b: UserId)
    ensures (a, b) in Exec(events).contacts <==> exists n: nat :: JoinedAt(events, n, a, b)
    ensures (b, a) in Exec(events).contacts <==> (a, b) in Exec(events).contacts
  {
    hide Step, Accepts, Removes;
    SerialRunsKeep(events);
    if events != [] {
      var k: nat := |events| - 1;
      var init := events[..k];
      ContactsIff(init, a, b);
      SerialRunsKeep(init);
      StepContacts(Exec(init), events[k], a, b);
      forall n: nat | n < k
        ensures AcceptedAt(init, n, a, b) <==> AcceptedAt(events, n, a, b)
        ensures RemovedAt(init, n, a, b) <==> RemovedAt(events, n, a, b)
      {
        assert init[..n] == events[..n];
      }
      assert AcceptedAt(events, k, a, b) <==> Accepts(Exec(init), events[k], a, b);
      assert RemovedAt(events, k, a, b) <==> Removes(Exec(init), events[k], a, b);
      if AcceptedAt(events, k, a, b) {
        assert JoinedAt(events, k, a, b);
      } else {
        forall n: nat | JoinedAt(init, n, a, b) && !RemovedAt(events, k, a, b) ensures JoinedAt(events, n, a, b) {
        }
        forall n: nat | JoinedAt(events, n, a, b) ensures JoinedAt(init, n, a, b) && !RemovedAt(events, k, a, b) {
        }
      }
    }
  }

  lemma StepContacts(t: Tables, ev: Event, a: UserId, b: UserId)
    requires Inv(t)
    ensures (a, b) in Step(t, ev).contacts <==> Accepts(t, ev, a, b) || ((a, b) in t.contacts && !Removes(t, ev, a, b))
    ensures Accepts(t, ev, a, b) ==> !Removes(t, ev, a, b)
  {
    hide CreateResponse, OnePendingPerPair, PendingApart;
  }

  /** Asking, accepting and removing again leaves the contacts, and the requests, as they were; so does
      asking and cancelling. */
  lemma RequestCanBeUndone(t: Tables, caller: UserId, other: UserId)
    requires Inv(t) && CreateResponse(t, caller, User(other)).Created?
    ensures var asked := AfterCreate(t, caller, User(other));
            && AfterCancel(asked, caller, t.nextId) == t.(nextId := t.nextId + 1)
            && AfterRemove(AfterAccept(asked, other, t.nextId), caller, other) == t.(nextId := t.nextId + 1)
            && AfterRemove(AfterAccept(asked, other, t.nextId), other, caller) == t.(nextId := t.nextId + 1)
  {
    var asked := AfterCreate(t, caller, User(other));
    assert asked.requests - {t.nextId} == t.requests;
    var accepted := AfterAccept(asked, other, t.nextId);
    assert accepted.contacts - {(caller, other), (other, caller)} == t.contacts;
    assert {(caller, other), (other, caller)} == {(other, caller), (caller, other)};
  }

  /** A resolved request cannot be resolved again: after an accept or cancel it is not found by
      anyone, after a decline by either of its two users. */
  lemma ResolvedOnce(t: Tables, caller: UserId, id: RequestId, who: UserId, asRecipient: bool)
    ensures LoadPending(t, id, caller, true).NoContent? ==>
              && LoadPending(AfterAccept(t, caller, id), id, who, asRecipient) == NotFound("request_not_found")
              && !LoadPending(AfterDecline(t, caller, id), id, who, asRecipient).NoContent?
    ensures LoadPending(t, id, caller, false).NoContent? ==>
              LoadPending(AfterCancel(t, caller, id), id, who, asRecipient) == NotFound("request_not_found")
  {
  }
}
