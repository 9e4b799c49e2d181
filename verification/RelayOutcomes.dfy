/** What the answers a sender gets say about the message: an ack stands for one message each, and
    `queue_unavailable` leaves one case open (apps/api/src/relay.rs:158-297). */
module RelayOutcomes {
  import opened Wrappers
  import R = Registry
  import opened Relay

  // ----- Acks

  /** How many acks for a user were pushed to a channel, and how many of its sends to that user ended acked. */
  function Acks(frames: seq<Frame>, addressee: UserId): nat {
    if frames == [] then 0
    else Acks(frames[..|frames| - 1], addressee) + if frames[|frames| - 1] == Ack(addressee) then 1 else 0
  }

  predicate CountsAs(send: Send, c: ChannelId, addressee: UserId) {
    send.channel == c && send.addressee == addressee && send.at == Acked
  }

  function AckedSends(sends: seq<Send>, c: ChannelId, addressee: UserId): nat {
    if sends == [] then 0
    else
      AckedSends(sends[..|sends| - 1], c, addressee) + if CountsAs(sends[|sends| - 1], c, addressee) then 1 else 0
  }

  lemma {:induction false} OneSendChanged(sends: seq<Send>, i: nat, send: Send, c: ChannelId, addressee: UserId)
    requires i < |sends|
    ensures AckedSends(sends[i := send], c, addressee) + (if CountsAs(sends[i], c, addressee) then 1 else 0)
            == AckedSends(sends, c, addressee) + if CountsAs(send, c, addressee) then 1 else 0
  {
    var n := |sends| - 1;
    if i < n {
      OneSendChanged(sends[..n], i, send, c, addressee);
      assert sends[i := send][..n] == sends[..n][i := send];
    } else {
      assert sends[i := send][..n] == sends[..n];
    }
  }

  ghost predicate AcksMatch(s: State) {
    forall c: ChannelId, u: UserId :: c < |s.channels| ==> Acks(s.channels[c].pushed, u) == AckedSends(s.sends, c, u)
  }

  /** A step pushes an ack to a channel exactly when it ends a send of that channel acked. */
  lemma StepAcks(s: State, ev: Event, c: ChannelId, u: UserId)
    requires Inv(s) && AcksMatch(s) && c < |s.channels|
    ensures c < |Step(s, ev).channels|
    ensures Acks(Step(s, ev).channels[c].pushed, u) == AckedSends(Step(s, ev).sends, c, u)
  {
    hide Step, Inv, EffectOf, Acks, AckedSends;
    StepPerforms(s, ev);
    PushedAcks(s, ev, c, u);
    SentAcks(s, ev, c, u);
  }

  predicate PushesAck(s: State, ev: Event, c: ChannelId, u: UserId) {
    EffectOf(s, ev) == Pushes(c, Ack(u)) && Alive(s, c)
  }

  lemma PushedAcks(s: State, ev: Event, c: ChannelId, u: UserId)
    requires c < |s.channels|
    ensures c < |Step(s, ev).channels|
    ensures Acks(Step(s, ev).channels[c].pushed, u) == Acks(s.channels[c].pushed, u) + if PushesAck(s, ev, c, u) then 1 else 0
  {
    hide Step, EffectOf;
    StepPerforms(s, ev);
    var pushed, pushed' := s.channels[c].pushed, Step(s, ev).channels[c].pushed;
    if |pushed'| > |pushed| { assert pushed'[..|pushed|] == pushed; }
  }

  lemma SentAcks(s: State, ev: Event, c: ChannelId, u: UserId)
    ensures AckedSends(Step(s, ev).sends, c, u) == AckedSends(s.sends, c, u) + if PushesAck(s, ev, c, u) then 1 else 0
  {
    hide Perform, Fetchable, R.Lookup, R.Without;
    match ev
    case SendAdvances(i, isContact, published) =>
      if i < |s.sends| {
        OneSendChanged(s.sends, i, s.sends[i].(at := NextSend(s, i, isContact, published).0), c, u);
      }
    case SendFrame(d, addressee, body) =>
      if d < |s.channels| { assert Step(s, ev).sends[..|s.sends|] == s.sends; }
    case RedeliveryAdvances(_, _) => NoAckOf(s, ev, c, u);
    case CatchUpAdvances(_, _) => NoAckOf(s, ev, c, u);
    case _ =>
  }

  lemma NoAckOf(s: State, ev: Event, c: ChannelId, u: UserId)
    requires !ev.SendAdvances?
    ensures !PushesAck(s, ev, c, u)
  {
  }

  /** A send's channel is there when it is made, so a channel not yet open has no sends. */
  lemma {:induction false} NoSendsYet(sends: seq<Send>, c: ChannelId, u: UserId)
    requires forall i :: 0 <= i < |sends| ==> sends[i].channel < c
    ensures AckedSends(sends, c, u) == 0
  {
    if sends != [] { NoSendsYet(sends[..|sends| - 1], c, u); }
  }

  /** A channel carries as many acks for a user as it has acked sends to that user, so no two acks
      stand for one message. */
  lemma {:induction false} AcksAreCounted(events: seq<Event>)
    ensures AcksMatch(Exec(START, events))
  {
    hide Step, Inv;
    if events != [] {
      hide AcksMatch, Exec;
      var init, ev := events[..|events| - 1], events[|events| - 1];
      AcksAreCounted(init);
      ExecInv(init);
      ExecLast(events);
      StepAcksMatch(Exec(START, init), ev);
    }
  }

  lemma ExecLast(events: seq<Event>)
    requires events != []
    ensures Exec(START, events) == Step(Exec(START, events[..|events| - 1]), events[|events| - 1])
  {
    hide Step;
  }

  lemma StepAcksMatch(s: State, ev: Event)
    requires Inv(s) && AcksMatch(s)
    ensures AcksMatch(Step(s, ev))
  {
    hide Step, Inv, Acks, AckedSends;
    var s' := Step(s, ev);
    forall c: ChannelId, u: UserId | c < |s'.channels| ensures Acks(s'.channels[c].pushed, u) == AckedSends(s'.sends, c, u) {
      if c < |s.channels| { StepAcks(s, ev, c, u); } else { NewChannelAcks(s, ev, c, u); }
    }
  }

  lemma NewChannelAcks(s: State, ev: Event, c: ChannelId, u: UserId)
    requires Inv(s) && |s.channels| <= c < |Step(s, ev).channels|
    ensures Acks(Step(s, ev).channels[c].pushed, u) == AckedSends(Step(s, ev).sends, c, u)
  {
    hide EffectOf, AdvanceSend, AdvanceRedelivery, AdvanceCatchUp, Fetchable, RegistryOk, ChannelsOk, QueueOk, RedeliveriesOk,
         CatchUpsOk, R.Without;
    StepPerforms(s, ev);
    forall i | 0 <= i < |s.sends| ensures s.sends[i].channel < |s.channels| { assert SendOk(s, i); }
    NoSendsYet(s.sends, c, u);
  }

  // ----- What `queue_unavailable` means

  /** No copy of the message in any channel, in the queue, or in the hands of any task. */
  ghost predicate Uncopied(s: State, mail: Mail) {
    && !Pushed(s, mail) && !InQueue(s, mail)
    && (forall r :: 0 <= r < |s.redeliveries| ==> s.redeliveries[r].mail != mail)
    && (forall c, f :: 0 <= c < |s.catchUps| && f in s.catchUps[c].fetched ==> f.mail != mail)
  }

  /** The publish of send i is stored and its confirmation lost. */
  predicate LosesConfirmation(s: State, ev: Event, i: nat) {
    ev.SendAdvances? && ev.send == i && i < |s.sends| && s.sends[i].at.Publishing? && ev.published.Unconfirmed?
  }

  predicate LostConfirmation(events: seq<Event>, i: nat) {
    events != []
    && (LostConfirmation(events[..|events| - 1], i)
        || LosesConfirmation(Exec(START, events[..|events| - 1]), events[|events| - 1], i))
  }

  /** Before its ack a send has copies exactly if its confirmation was lost, and then it is on its way to
      `queue_unavailable`. */
  ghost predicate CopiesOk(s: State, i: nat, lost: bool)
    requires i < |s.sends|
  {
    var send, mail := s.sends[i], MailOf(s.sends, i);
    if lost then (send.at == Refusing(QueueUnavailable) || send.at == Refused(QueueUnavailable)) && Safe(s, mail)
    else send.at.Acking? || send.at.Acked? || send.at.SenderGone? || Uncopied(s, mail)
  }

  /** Only its own send makes the first copy of a message. */
  lemma OthersCopyNothing(s: State, ev: Event, mail: Mail)
    requires Uncopied(s, mail) && !(ev.SendAdvances? && ev.send == mail.send)
    ensures Uncopied(Step(s, ev), mail)
  {
    hide Step, EffectOf, Pushed, InQueue;
    ForeignEffect(s, ev, mail);
    EffectCopies(s, ev, mail);
    TasksCopyNothing(s, ev, mail);
  }

  predicate Copies(effect: Effect, mail: Mail) {
    match effect
    case Pushes(_, Message(m)) => m == mail
    case Stores(queued) => queued.mail == mail
    case _ => false
  }

  lemma ForeignEffect(s: State, ev: Event, mail: Mail)
    requires Uncopied(s, mail) && !(ev.SendAdvances? && ev.send == mail.send)
    ensures !Copies(EffectOf(s, ev), mail)
  {
    hide Pushed, InQueue, R.Lookup;
    if ev.CatchUpAdvances? && ev.catchUp < |s.catchUps| && s.catchUps[ev.catchUp].fetched != [] {
      assert s.catchUps[ev.catchUp].fetched[0] in s.catchUps[ev.catchUp].fetched;
    }
  }

  lemma EffectCopies(s: State, ev: Event, mail: Mail)
    requires !Pushed(s, mail) && !InQueue(s, mail) && !Copies(EffectOf(s, ev), mail)
    ensures !Pushed(Step(s, ev), mail) && !InQueue(Step(s, ev), mail)
  {
    hide Step, EffectOf;
    StepPerforms(s, ev);
    var s' := Step(s, ev);
    assert forall c :: 0 <= c < |s.channels| ==> Message(mail) !in s.channels[c].pushed;
    forall c | 0 <= c < |s'.channels| ensures Message(mail) !in s'.channels[c].pushed {
      if c < |s.channels| { assert Message(mail) !in s.channels[c].pushed; }
    }
    forall k | k in s'.queue ensures s'.queue[k].mail != mail {
      if k in s.queue { assert s.queue[k].mail != mail; }
    }
  }

  lemma TasksCopyNothing(s: State, ev: Event, mail: Mail)
    requires Uncopied(s, mail) && !(ev.SendAdvances? && ev.send == mail.send)
    ensures forall r :: 0 <= r < |Step(s, ev).redeliveries| ==> Step(s, ev).redeliveries[r].mail != mail
    ensures forall c, f :: 0 <= c < |Step(s, ev).catchUps| && f in Step(s, ev).catchUps[c].fetched ==> f.mail != mail
  {
    hide Pushed, R.Lookup, R.Without;
  }

  /** A send that does not relay or store its message copies nothing. */
  lemma OwnCopiesNothing(s: State, i: nat, isContact: bool, published: Published)
    requires i < |s.sends| && Uncopied(s, MailOf(s.sends, i))
    requires !Copies(NextSend(s, i, isContact, published).1, MailOf(s.sends, i)) || s.sends[i].at.Relaying?
    requires s.sends[i].at.Relaying? ==> !Alive(s, s.sends[i].at.recipient)
    ensures Uncopied(AdvanceSend(s, i, isContact, published), MailOf(s.sends, i))
  {
    hide R.Lookup;
    var s', mail := AdvanceSend(s, i, isContact, published), MailOf(s.sends, i);
    assert forall c :: 0 <= c < |s.channels| ==> Message(mail) !in s.channels[c].pushed;
    forall c | 0 <= c < |s'.channels| ensures Message(mail) !in s'.channels[c].pushed {
      assert Message(mail) !in s.channels[c].pushed;
    }
    assert s'.queue == s.queue;
  }

  lemma OwnCopies(s: State, i: nat, isContact: bool, published: Published, lost: bool)
    requires RegistryOk(s) && i < |s.sends| && CopiesOk(s, i, lost)
    requires Moves(s, AdvanceSend(s, i, isContact, published))
    ensures var ev := SendAdvances(i, isContact, published);
            CopiesOk(AdvanceSend(s, i, isContact, published), i, lost || LosesConfirmation(s, ev, i))
  {
    hide Uncopied, Moves, R.Lookup;
    var s', mail := AdvanceSend(s, i, isContact, published), MailOf(s.sends, i);
    if lost {
      SafeKept(s, s', mail);
    } else {
      match s.sends[i].at
      case Relaying(c) => if !Alive(s, c) { OwnCopiesNothing(s, i, isContact, published); }
      case Publishing =>
        if published.NotStored? { OwnCopiesNothing(s, i, isContact, published); }
        if published.Unconfirmed? { assert s'.queue[s.nextSequence].mail == mail; }
      case Acking =>
      case Acked =>
      case SenderGone =>
      case _ => OwnCopiesNothing(s, i, isContact, published);
    }
  }

  /** A message has no copy before its send is made. */
  lemma NoCopyBefore(s: State, mail: Mail)
    requires Inv(s) && mail.send >= |s.sends|
    ensures Uncopied(s, mail)
  {
    forall c | 0 <= c < |s.channels| ensures Message(mail) !in s.channels[c].pushed {
      assert Message(mail) in s.channels[c].pushed ==> FrameOk(s, c, Message(mail));
    }
    forall r | 0 <= r < |s.redeliveries| ensures s.redeliveries[r].mail != mail {
      assert RedeliveryOk(s, s.redeliveries[r]);
    }
    forall c, f | 0 <= c < |s.catchUps| && f in s.catchUps[c].fetched ensures f.mail != mail {
      assert CatchUpOk(s, s.catchUps[c]);
    }
  }

  lemma {:induction false} LostIsMade(events: seq<Event>, i: nat)
    requires LostConfirmation(events, i)
    ensures i < |Exec(START, events).sends|
  {
    hide Step;
    var init, ev := events[..|events| - 1], events[|events| - 1];
    StepSends(Exec(START, init), ev);
    if LostConfirmation(init, i) { LostIsMade(init, i); }
  }

  lemma {:induction false} RunCopies(events: seq<Event>, i: nat)
    requires i < |Exec(START, events).sends|
    ensures CopiesOk(Exec(START, events), i, LostConfirmation(events, i))
  {
    hide Step, Inv, CopiesOk, Moves, SendsGrow;
    var init, ev := events[..|events| - 1], events[|events| - 1];
    var s := Exec(START, init);
    ExecInv(init);
    StepInv(s, ev);
    if i < |s.sends| {
      RunCopies(init, i);
      StepCopies(s, ev, i, LostConfirmation(init, i));
    } else {
      if LostConfirmation(init, i) { LostIsMade(init, i); }
      NewSendCopies(s, ev, i);
    }
  }

  lemma StepCopies(s: State, ev: Event, i: nat, lost: bool)
    requires Inv(s) && i < |s.sends| && CopiesOk(s, i, lost) && Moves(s, Step(s, ev))
    ensures i < |Step(s, ev).sends|
    ensures CopiesOk(Step(s, ev), i, lost || LosesConfirmation(s, ev, i))
  {
    hide AdvanceSend, AdvanceRedelivery, AdvanceCatchUp, Perform, Fetchable, Uncopied, Safe, Moves, ChannelsOk, QueueOk, SendsOk,
         RedeliveriesOk, CatchUpsOk;
    if ev.SendAdvances? && ev.send == i {
      OwnCopies(s, i, ev.isContact, ev.published, lost);
      AdvanceKeepsSends(s, i, ev.isContact, ev.published);
    } else {
      var mail := MailOf(s.sends, i);
      SendUntouched(s, ev, i);
      if Uncopied(s, mail) { OthersCopyNothing(s, ev, mail); }
      if Safe(s, mail) { SafeKept(s, Step(s, ev), mail); }
    }
  }

  lemma AdvanceKeepsSends(s: State, i: nat, isContact: bool, published: Published)
    requires i < |s.sends|
    ensures |AdvanceSend(s, i, isContact, published).sends| == |s.sends|
  {
  }

  lemma NewSendCopies(s: State, ev: Event, i: nat)
    requires Inv(s) && |s.sends| <= i < |Step(s, ev).sends|
    ensures CopiesOk(Step(s, ev), i, false) && !LosesConfirmation(s, ev, i)
  {
    hide Inv, Uncopied, NextSend, NextRedelivery, NextCatchUp, Fetchable, R.Without;
    var mail := MailOf(Step(s, ev).sends, i);
    NoCopyBefore(s, mail);
    SameCopies(s, Step(s, ev), mail);
  }

  lemma SameCopies(s: State, s': State, mail: Mail)
    requires Uncopied(s, mail) && s'.channels == s.channels && s'.queue == s.queue
    requires s'.redeliveries == s.redeliveries && s'.catchUps == s.catchUps
    ensures Uncopied(s', mail)
  {
  }

  /** A message reported as `queue_unavailable` is in the queue or has been pushed if and only if its
      publish was stored and the confirmation lost. */
  lemma UnavailableCopiedIff(events: seq<Event>, i: nat)
    requires i < |Exec(START, events).sends| && Exec(START, events).sends[i].at == Refused(QueueUnavailable)
    ensures var s := Exec(START, events);
            Pushed(s, MailOf(s.sends, i)) || InQueue(s, MailOf(s.sends, i)) <==> LostConfirmation(events, i)
  {
    hide Exec, Pushed, InQueue, LostConfirmation;
    RunCopies(events, i);
  }

  // ----- The input

  lemma ExecNext(s: State, events: seq<Event>, n: nat)
    requires n < |events|
    ensures Exec(s, events[..n + 1]) == Step(Exec(s, events[..n]), events[n])
  {
    hide Step;
    assert events[..n + 1][..n] == events[..n];
  }

  /** A relay with nothing queued and one send, on a live channel of its sender. */
  predicate OneSend(s: State, send: Send) {
    && s.registry == map[send.from := 0] && s.queue == map[] && s.nextSequence == 0
    && |s.channels| == 1 && s.channels[0].owner == send.from && s.channels[0].alive
    && s.sends == [send] && send.channel == 0 && |s.catchUps| == 1
  }

  lemma AsksToSend(user: UserId, peer: UserId, body: string)
    ensures OneSend(Step(Step(START, Connects(user)), SendFrame(0, peer, body)), Send(user, peer, body, 0, Checking))
  {
    var s := Step(START, Connects(user));
    assert s.sends == [] && s.channels == [Channel(user, true, [])];
  }

  lemma FindsNobody(s: State, send: Send)
    requires OneSend(s, send) && send.at == Checking && send.addressee != send.from
    ensures OneSend(Step(Step(s, SendAdvances(0, true, NotStored)), SendAdvances(0, true, NotStored)), send.(at := Publishing))
  {
    var s1 := Step(s, SendAdvances(0, true, NotStored));
    assert OneSend(s1, send.(at := Looking));
  }

  lemma StoresUnconfirmed(s: State, send: Send)
    requires OneSend(s, send) && send.at == Publishing
    ensures var s' := Step(Step(s, SendAdvances(0, true, Unconfirmed)), SendAdvances(0, true, NotStored));
            && s'.sends == [send.(at := Refused(QueueUnavailable))] && |s'.channels| == 1 && |s'.catchUps| == 1
            && s'.queue == map[0 := Queued(send.addressee, Mail(0, send.from, send.body))]
  {
    var s1 := Step(s, SendAdvances(0, true, Unconfirmed));
    assert s1.sends == [send.(at := Refusing(QueueUnavailable))];
    assert s1.queue == map[0 := Queued(send.addressee, Mail(0, send.from, send.body))];
  }

  /** The addressee connects, and their catch-up delivers what is queued. */
  lemma CatchesUp(s: State, peer: UserId, mail: Mail)
    requires |s.channels| == 1 && |s.catchUps| == 1 && s.queue == map[0 := Queued(peer, mail)]
    ensures var s' := Step(Step(Step(s, Connects(peer)), CatchUpFetches(1, [0])), CatchUpAdvances(1, true));
            && |s'.channels| == 2 && s'.channels[1] == Channel(peer, true, [Message(mail)]) && s'.sends == s.sends
  {
    var s1 := Step(s, Connects(peer));
    assert s1.catchUps[1] == CatchUp(peer, 1, [], Fetching) && s1.channels[1] == Channel(peer, true, []);
    assert Fetchable(s1, peer, [0]);
    var s2 := Step(s1, CatchUpFetches(1, [0]));
    assert s2.catchUps[1] == CatchUp(peer, 1, [Fetched(0, mail)], Delivering);
  }

  /** A send answered with `queue_unavailable` whose message is then delivered to its addressee. */
  lemma UnavailableYetDelivered(user: UserId, peer: UserId, body: string)
    requires user != peer
    ensures var s := Exec(START, [Connects(user), SendFrame(0, peer, body), SendAdvances(0, true, NotStored),
                                  SendAdvances(0, true, NotStored), SendAdvances(0, true, Unconfirmed),
                                  SendAdvances(0, true, NotStored), Connects(peer), CatchUpFetches(1, [0]),
                                  CatchUpAdvances(1, true)]);
            && s.sends == [Send(user, peer, body, 0, Refused(QueueUnavailable))]
            && |s.channels| == 2 && s.channels[1] == Channel(peer, true, [Message(Mail(0, user, body))])
  {
    hide Step, OneSend;
    var events := [Connects(user), SendFrame(0, peer, body), SendAdvances(0, true, NotStored),
                   SendAdvances(0, true, NotStored), SendAdvances(0, true, Unconfirmed), SendAdvances(0, true, NotStored),
                   Connects(peer), CatchUpFetches(1, [0]), CatchUpAdvances(1, true)];
    assert events[..0] == [];
    ExecNext(START, events, 0);
    ExecNext(START, events, 1);
    AsksToSend(user, peer, body);
    ExecNext(START, events, 2);
    ExecNext(START, events, 3);
    FindsNobody(Exec(START, events[..2]), Send(user, peer, body, 0, Checking));
    ExecNext(START, events, 4);
    ExecNext(START, events, 5);
    StoresUnconfirmed(Exec(START, events[..4]), Send(user, peer, body, 0, Publishing));
    ExecNext(START, events, 6);
    ExecNext(START, events, 7);
    ExecNext(START, events, 8);
    CatchesUp(Exec(START, events[..6]), peer, Mail(0, user, body));
    assert events[..9] == events;
  }
}
