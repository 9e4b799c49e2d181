/** What each task of the relay comes to when nothing steps in between its awaits
    (apps/api/src/relay.rs:82-348): the whole effect of a send, of a redelivery and of a catch-up,
    from the state it starts in.
 */
module RelayAlone {
  import opened Wrappers
  import opened Relay

  /** The channels after a frame was sent on one of them. */
  function Sent(channels: seq<Channel>, c: ChannelId, frame: Frame): (r: seq<Channel>)
    ensures |r| == |channels|
    ensures forall d :: 0 <= d < |channels| ==>
              && r[d].owner == channels[d].owner && r[d].alive == channels[d].alive
              && r[d].pushed == channels[d].pushed + if d == c && channels[c].alive then [frame] else []
  {
    if c < |channels| && channels[c].alive then channels[c := channels[c].(pushed := channels[c].pushed + [frame])] else channels
  }

  /** The user's channel, if they are registered with one that is there. */
  function Reachable(s: State, user: UserId): Option<ChannelId> {
    if user in s.registry && s.registry[user] < |s.channels| && s.channels[s.registry[user]].alive
    then Some(s.registry[user]) else None
  }

  lemma ExecFive(s: State, a: Event, b: Event, c: Event, d: Event, e: Event)
    ensures Exec(s, [a, b, c]) == Step(Step(Step(s, a), b), c)
    ensures Exec(s, [a, b, c, d, e]) == Step(Step(Step(Step(Step(s, a), b), c), d), e)
  {
    hide Step;
    assert Exec(s, [a]) == Step(s, a) by { assert [a][..0] == []; }
    assert [a, b][..1] == [a] && [a, b, c][..2] == [a, b] && [a, b, c, d][..3] == [a, b, c];
    assert [a, b, c, d, e][..4] == [a, b, c, d];
  }

  /** Where a send ends: nothing is said to the sender once their channel is gone. */
  function Told(s: State, i: nat, answer: Frame): State
    requires i < |s.sends|
  {
    var send := s.sends[i];
    s.(channels := Sent(s.channels, send.channel, answer),
       sends := s.sends[i := send.(at := match answer
                                         case Error(code) => Refused(code)
                                         case _ => if Alive(s, send.channel) then Acked else SenderGone)])
  }

  /** The send at another point. */
  function At(s: State, i: nat, at: SendPoint): State
    requires i < |s.sends|
  {
    s.(sends := s.sends[i := s.sends[i].(at := at)])
  }

  lemma AtAgain(s: State, i: nat, at: SendPoint, answer: Frame)
    requires i < |s.sends|
    ensures Told(At(s, i, at), i, answer) == Told(s, i, answer)
  {
    assert s.sends[i := At(s, i, at).sends[i]][i := Told(s, i, answer).sends[i]] == Told(s, i, answer).sends;
  }

  lemma Ended(s: State, i: nat, isContact: bool, published: Published, answer: Frame)
    requires i < |s.sends| && (answer.Ack? || answer.Error?)
    ensures Step(Told(s, i, answer), SendAdvances(i, isContact, published)) == Told(s, i, answer)
  {
    Answers(Told(s, i, answer), i, isContact, published);
  }

  lemma Answers(s: State, i: nat, isContact: bool, published: Published)
    requires i < |s.sends|
    ensures var ev, at := SendAdvances(i, isContact, published), s.sends[i].at;
            && (at.Acking? ==> Step(s, ev) == Told(s, i, Ack(s.sends[i].addressee)))
            && (at.Refusing? ==> Step(s, ev) == Told(s, i, Error(at.code)))
            && (at.Acked? || at.Refused? || at.SenderGone? ==> Step(s, ev) == s)
  {
    assert s.sends[i := s.sends[i]] == s.sends;
  }

  lemma Publishes(s: State, i: nat, isContact: bool, published: Published)
    requires i < |s.sends| && s.sends[i].at == Publishing
    ensures var ev, send, mail := SendAdvances(i, isContact, published), s.sends[i], Mail(i, s.sends[i].from, s.sends[i].body);
            var stored := s.(queue := s.queue[s.nextSequence := Queued(send.addressee, mail)], nextSequence := s.nextSequence + 1);
            Step(Step(s, ev), ev) ==
              match published
              case Confirmed =>
                Told(stored.(redeliveries := s.redeliveries + [Redelivery(send.addressee, s.nextSequence, mail, Seeking)]),
                     i, Ack(send.addressee))
              case Unconfirmed => Told(stored, i, Error(QueueUnavailable))
              case NotStored => Told(s, i, Error(QueueUnavailable))
  {
    hide Told;
    var s1 := Step(s, SendAdvances(i, isContact, published));
    Answers(s1, i, isContact, published);
    var send, mail := s.sends[i], Mail(i, s.sends[i].from, s.sends[i].body);
    var stored := s.(queue := s.queue[s.nextSequence := Queued(send.addressee, mail)], nextSequence := s.nextSequence + 1);
    match published {
      case Confirmed =>
        var spawned := stored.(redeliveries := s.redeliveries + [Redelivery(send.addressee, s.nextSequence, mail, Seeking)]);
        assert s1 == At(spawned, i, Acking);
        AtAgain(spawned, i, Acking, Ack(send.addressee));
      case Unconfirmed =>
        assert s1 == At(stored, i, Refusing(QueueUnavailable));
        AtAgain(stored, i, Refusing(QueueUnavailable), Error(QueueUnavailable));
      case NotStored =>
        assert s1 == At(s, i, Refusing(QueueUnavailable));
        AtAgain(s, i, Refusing(QueueUnavailable), Error(QueueUnavailable));
    }
  }

  /** A send to a contact who is there is pushed to them and acked. A send to one who is not is stored,
      acked, and offered for redelivery, unless the publish fails. A send to anyone else is refused. */
  lemma SendAlone(s: State, i: nat, isContact: bool, published: Published)
    requires i < |s.sends| && s.sends[i].at == Checking
    ensures var ev := SendAdvances(i, isContact, published);
            var send, mail := s.sends[i], Mail(i, s.sends[i].from, s.sends[i].body);
            var stored := s.(queue := s.queue[s.nextSequence := Queued(send.addressee, mail)], nextSequence := s.nextSequence + 1);
            Exec(s, [ev, ev, ev, ev, ev]) ==
              if !isContact then Told(s, i, Error(NotAContact))
              else if Reachable(s, send.addressee).Some? then
                Told(s.(channels := Sent(s.channels, Reachable(s, send.addressee).value, Message(mail))), i, Ack(send.addressee))
              else match published
                case Confirmed =>
                  Told(stored.(redeliveries := s.redeliveries + [Redelivery(send.addressee, s.nextSequence, mail, Seeking)]),
                       i, Ack(send.addressee))
                case Unconfirmed => Told(stored, i, Error(QueueUnavailable))
                case NotStored => Told(s, i, Error(QueueUnavailable))
  {
    hide Step, Exec, Told, Sent;
    var ev := SendAdvances(i, isContact, published);
    ExecFive(s, ev, ev, ev, ev, ev);
    Begins(s, i, isContact, published);
    if !isContact {
      AtAgain(s, i, Refusing(NotAContact), Error(NotAContact));
      Answers(At(s, i, Refusing(NotAContact)), i, isContact, published);
      Ended(s, i, isContact, published, Error(NotAContact));
    } else if Reachable(s, s.sends[i].addressee).Some? {
      var pushed := s.(channels := Sent(s.channels, Reachable(s, s.sends[i].addressee).value,
                                        Message(Mail(i, s.sends[i].from, s.sends[i].body))));
      Answers(At(pushed, i, Acking), i, isContact, published);
      AtAgain(pushed, i, Acking, Ack(s.sends[i].addressee));
      Ended(pushed, i, isContact, published, Ack(s.sends[i].addressee));
    } else {
      PublishesFrom(s, i, isContact, published);
    }
  }

  lemma PublishesFrom(s: State, i: nat, isContact: bool, published: Published)
    requires i < |s.sends|
    ensures var ev, send, mail := SendAdvances(i, isContact, published), s.sends[i], Mail(i, s.sends[i].from, s.sends[i].body);
            var stored := s.(queue := s.queue[s.nextSequence := Queued(send.addressee, mail)], nextSequence := s.nextSequence + 1);
            var end := match published
                       case Confirmed =>
                         Told(stored.(redeliveries := s.redeliveries + [Redelivery(send.addressee, s.nextSequence, mail, Seeking)]),
                              i, Ack(send.addressee))
                       case Unconfirmed => Told(stored, i, Error(QueueUnavailable))
                       case NotStored => Told(s, i, Error(QueueUnavailable));
            Step(Step(At(s, i, Publishing), ev), ev) == end && Step(end, ev) == end
  {
    hide Step, Told;
    var send, mail := s.sends[i], Mail(i, s.sends[i].from, s.sends[i].body);
    var stored := s.(queue := s.queue[s.nextSequence := Queued(send.addressee, mail)], nextSequence := s.nextSequence + 1);
    var spawned := stored.(redeliveries := s.redeliveries + [Redelivery(send.addressee, s.nextSequence, mail, Seeking)]);
    Publishes(At(s, i, Publishing), i, isContact, published);
    AtAgain(spawned, i, Publishing, Ack(send.addressee));
    AtAgain(stored, i, Publishing, Error(QueueUnavailable));
    AtAgain(s, i, Publishing, Error(QueueUnavailable));
    Ended(spawned, i, isContact, published, Ack(send.addressee));
    Ended(stored, i, isContact, published, Error(QueueUnavailable));
    Ended(s, i, isContact, published, Error(QueueUnavailable));
  }

  lemma Begins(s: State, i: nat, isContact: bool, published: Published)
    requires i < |s.sends| && s.sends[i].at == Checking
    ensures var ev, send, mail := SendAdvances(i, isContact, published), s.sends[i], Mail(i, s.sends[i].from, s.sends[i].body);
            if !isContact then Step(s, ev) == At(s, i, Refusing(NotAContact))
            else
              && Step(s, ev) == At(s, i, Looking)
              && Step(Step(s, ev), ev) == (if send.addressee in s.registry then At(s, i, Relaying(s.registry[send.addressee])) else At(s, i, Publishing))
              && (send.addressee in s.registry ==>
                    Step(Step(Step(s, ev), ev), ev) ==
                    if Reachable(s, send.addressee).Some?
                    then At(s.(channels := Sent(s.channels, Reachable(s, send.addressee).value, Message(mail))), i, Acking)
                    else At(s, i, Publishing))
  {
  }

  /** A redelivery to a user who is there by then is pushed and, if the delete gets through, gone from
      the queue; otherwise nothing happens. */
  lemma RedeliveryAlone(s: State, r: nat, deleted: bool)
    requires r < |s.redeliveries| && s.redeliveries[r].at == Seeking
    ensures var ev, red := RedeliveryAdvances(r, deleted), s.redeliveries[r];
            var settled := s.(redeliveries := s.redeliveries[r := red.(at := Settled)]);
            Exec(s, [ev, ev, ev]) ==
              if Reachable(s, red.addressee).None? then settled
              else settled.(channels := Sent(s.channels, Reachable(s, red.addressee).value, Message(red.mail)),
                            queue := if deleted then s.queue - {red.sequence} else s.queue)
  {
    hide Step, Exec, Sent;
    var ev, red := RedeliveryAdvances(r, deleted), s.redeliveries[r];
    ExecFive(s, ev, ev, ev, ev, ev);
    Seeks(s, r, deleted);
    var s1 := Step(s, ev);
    assert s1.redeliveries[r := red.(at := Settled)] == s.redeliveries[r := red.(at := Settled)];
    if s1.redeliveries[r].at.Forwarding? {
      Forwards(s1, r, deleted);
      var s2 := Step(s1, ev);
      if s2.redeliveries[r].at.Deleting? { Deletes(s2, r, deleted); } else { Stays(s2, r, deleted); }
    } else {
      Stays(s1, r, deleted);
    }
  }

  /** The redelivery at another point. */
  function Put(s: State, r: nat, at: RedeliveryPoint): State
    requires r < |s.redeliveries|
  {
    s.(redeliveries := s.redeliveries[r := s.redeliveries[r].(at := at)])
  }

  lemma Seeks(s: State, r: nat, deleted: bool)
    requires r < |s.redeliveries| && s.redeliveries[r].at == Seeking
    ensures var user := s.redeliveries[r].addressee;
            Step(s, RedeliveryAdvances(r, deleted)) == Put(s, r, if user in s.registry then Forwarding(s.registry[user]) else Settled)
  {
  }

  lemma Forwards(s: State, r: nat, deleted: bool)
    requires r < |s.redeliveries| && s.redeliveries[r].at.Forwarding?
    ensures var red := s.redeliveries[r];
            Step(s, RedeliveryAdvances(r, deleted)) ==
              if Alive(s, red.at.recipient)
              then Put(s, r, Deleting).(channels := Sent(s.channels, red.at.recipient, Message(red.mail)))
              else Put(s, r, Settled)
  {
  }

  lemma Deletes(s: State, r: nat, deleted: bool)
    requires r < |s.redeliveries| && s.redeliveries[r].at == Deleting
    ensures Step(s, RedeliveryAdvances(r, deleted)) ==
              Put(s, r, Settled).(queue := if deleted then s.queue - {s.redeliveries[r].sequence} else s.queue)
  {
  }

  lemma Stays(s: State, r: nat, deleted: bool)
    requires r < |s.redeliveries| && s.redeliveries[r].at == Settled
    ensures Step(s, RedeliveryAdvances(r, deleted)) == s
  {
    assert s.redeliveries[r := s.redeliveries[r]] == s.redeliveries;
  }

  /** A channel that leaves or dies is reached no more, and nobody else is affected; a frame that does not
      parse is answered with an error, and one that does begins a send. */
  lemma ChannelEvents(s: State, c: ChannelId, user: UserId, body: string)
    requires c < |s.channels|
    ensures Reachable(s, s.channels[c].owner) == Some(c) ==> Reachable(Step(s, Leaves(c)), s.channels[c].owner) == None
    ensures Reachable(s, user) == Some(c) ==> Reachable(Step(s, Dies(c)), user) == None
    ensures Reachable(s, user) != Some(c) ==>
              Reachable(Step(s, Leaves(c)), user) == Reachable(Step(s, Dies(c)), user) == Reachable(s, user)
    ensures Step(s, BadFrame(c)) == s.(channels := Sent(s.channels, c, Error(InvalidPayload)))
    ensures Step(s, SendFrame(c, user, body)) == s.(sends := s.sends + [Send(s.channels[c].owner, user, body, c, Checking)])
  {
  }

  // ----- A catch-up

  lemma {:induction false} ExecConcat(s: State, first: seq<Event>, more: seq<Event>)
    ensures Exec(s, first + more) == Exec(Exec(s, first), more)
  {
    hide Step;
    if more == [] {
      assert first + more == first;
    } else {
      ExecConcat(s, first, more[..|more| - 1]);
      assert (first + more)[..|first + more| - 1] == first + more[..|more| - 1];
    }
  }

  /** Everything a catch-up does after its fetch: for each message a push and an acknowledgement, and
      the end of the stream. */
  function Delivering(c: nat, acks: seq<bool>): seq<Event> {
    if acks == [] then [CatchUpAdvances(c, true)]
    else [CatchUpAdvances(c, true), CatchUpAdvances(c, acks[0])] + Delivering(c, acks[1..])
  }

  function Frames(fetched: seq<Fetched>): (frames: seq<Frame>)
    ensures |frames| == |fetched| && forall n :: 0 <= n < |fetched| ==> frames[n] == Message(fetched[n].mail)
  {
    seq(|fetched|, n requires 0 <= n < |fetched| => Message(fetched[n].mail))
  }

  /** The sequence numbers whose acknowledgement gets through. */
  function Acknowledged(fetched: seq<Fetched>, acks: seq<bool>): (r: set<Sequence>)
    requires |acks| == |fetched|
  {
    set n | 0 <= n < |fetched| && acks[n] :: fetched[n].sequence
  }

  function PushedAll(s: State, c: ChannelId, frames: seq<Frame>): seq<Channel>
    requires c < |s.channels|
  {
    s.channels[c := s.channels[c].(pushed := s.channels[c].pushed + frames)]
  }

  lemma OneDelivered(s: State, c: nat, acked: bool)
    requires c < |s.catchUps| && s.catchUps[c].at.Delivering? && s.catchUps[c].fetched != [] && Alive(s, s.catchUps[c].channel)
    ensures var up := s.catchUps[c];
            Exec(s, [CatchUpAdvances(c, true), CatchUpAdvances(c, acked)]) ==
              s.(channels := PushedAll(s, up.channel, [Message(up.fetched[0].mail)]),
                 queue := if acked then s.queue - {up.fetched[0].sequence} else s.queue,
                 catchUps := s.catchUps[c := up.(fetched := up.fetched[1..])])
  {
    hide Step;
    var first, second := CatchUpAdvances(c, true), CatchUpAdvances(c, acked);
    assert [first, second][..1] == [first] && [first][..0] == [];
    assert Exec(s, [first]) == Step(s, first);
    PushesFirst(s, c);
    AcksFirst(Step(s, first), c, acked);
    var up := s.catchUps[c];
    assert Step(s, first).catchUps[c] == up.(at := Removing);
    assert s.catchUps[c := up.(at := Removing)][c := up.(fetched := up.fetched[1..])] == s.catchUps[c := up.(fetched := up.fetched[1..])];
  }

  lemma PushesFirst(s: State, c: nat)
    requires c < |s.catchUps| && s.catchUps[c].at.Delivering? && s.catchUps[c].fetched != [] && Alive(s, s.catchUps[c].channel)
    ensures var up := s.catchUps[c];
            Step(s, CatchUpAdvances(c, true)) ==
              s.(channels := PushedAll(s, up.channel, [Message(up.fetched[0].mail)]), catchUps := s.catchUps[c := up.(at := Removing)])
  {
  }

  lemma AcksFirst(s: State, c: nat, acked: bool)
    requires c < |s.catchUps| && s.catchUps[c].at.Removing? && s.catchUps[c].fetched != []
    ensures var up := s.catchUps[c];
            Step(s, CatchUpAdvances(c, acked)) ==
              s.(queue := if acked then s.queue - {up.fetched[0].sequence} else s.queue,
                 catchUps := s.catchUps[c := up.(fetched := up.fetched[1..], at := CatchUpPoint.Delivering)])
  {
  }

  /** All that was fetched is pushed in order, and what was acknowledged leaves the queue. */
  lemma {:induction false} CatchUpAlone(s: State, c: nat, acks: seq<bool>)
    requires c < |s.catchUps| && s.catchUps[c].at.Delivering? && |acks| == |s.catchUps[c].fetched|
    requires Alive(s, s.catchUps[c].channel)
    ensures var up := s.catchUps[c];
            Exec(s, Delivering(c, acks)) ==
              s.(channels := PushedAll(s, up.channel, Frames(up.fetched)),
                 queue := s.queue - Acknowledged(up.fetched, acks),
                 catchUps := s.catchUps[c := up.(fetched := [], at := CaughtUp)])
    decreases |acks|
  {
    hide Step;
    var up := s.catchUps[c];
    if acks == [] {
      NoneLeft(s, c);
    } else {
      var first := [CatchUpAdvances(c, true), CatchUpAdvances(c, acks[0])];
      var s1 := Exec(s, first);
      OneDelivered(s, c, acks[0]);
      CatchUpAlone(s1, c, acks[1..]);
      ExecConcat(s, first, Delivering(c, acks[1..]));
      assert Frames(up.fetched) == [Message(up.fetched[0].mail)] + Frames(up.fetched[1..]);
      FirstAcknowledged(up.fetched, acks);
      PushedTwice(s, up.channel, [Message(up.fetched[0].mail)], Frames(up.fetched[1..]));
      assert s1.catchUps[c := up.(fetched := [], at := CaughtUp)] == s.catchUps[c := up.(fetched := [], at := CaughtUp)];
      assert s.queue - Acknowledged(up.fetched, acks) == s1.queue - Acknowledged(up.fetched[1..], acks[1..]);
    }
  }

  lemma PushedTwice(s: State, c: ChannelId, frames: seq<Frame>, more: seq<Frame>)
    requires c < |s.channels|
    ensures PushedAll(s.(channels := PushedAll(s, c, frames)), c, more) == PushedAll(s, c, frames + more)
  {
    assert s.channels[c].pushed + frames + more == s.channels[c].pushed + (frames + more);
  }

  lemma NoneLeft(s: State, c: nat)
    requires c < |s.catchUps| && s.catchUps[c].at.Delivering? && s.catchUps[c].fetched == [] && Alive(s, s.catchUps[c].channel)
    ensures Exec(s, Delivering(c, [])) ==
              s.(channels := PushedAll(s, s.catchUps[c].channel, []), queue := s.queue - {},
                 catchUps := s.catchUps[c := s.catchUps[c].(at := CaughtUp)])
  {
    assert [CatchUpAdvances(c, true)][..0] == [];
    assert s.channels[s.catchUps[c].channel].pushed + [] == s.channels[s.catchUps[c].channel].pushed;
    assert PushedAll(s, s.catchUps[c].channel, []) == s.channels;
    assert s.queue - {} == s.queue;
  }

  lemma FirstAcknowledged(fetched: seq<Fetched>, acks: seq<bool>)
    requires |acks| == |fetched| > 0
    ensures Acknowledged(fetched, acks)
            == (if acks[0] then {fetched[0].sequence} else {}) + Acknowledged(fetched[1..], acks[1..])
  {
    forall k | k in Acknowledged(fetched, acks)
      ensures (acks[0] && k == fetched[0].sequence) || k in Acknowledged(fetched[1..], acks[1..])
    {
      var n :| 0 <= n < |fetched| && acks[n] && fetched[n].sequence == k;
      if n > 0 { assert acks[1..][n - 1] && fetched[1..][n - 1].sequence == k; }
    }
    forall k | k in Acknowledged(fetched[1..], acks[1..]) ensures k in Acknowledged(fetched, acks) {
      var n :| 0 <= n < |fetched| - 1 && acks[1..][n] && fetched[1..][n].sequence == k;
      assert acks[n + 1] && fetched[n + 1].sequence == k;
    }
  }

  /** A user who connects gets every message that the fetch yields, in its order, on the new channel; those
      acknowledged are gone from the queue, all others still there. */
  lemma ConnectDelivers(s: State, user: UserId, sequences: seq<Sequence>, acks: seq<bool>)
    requires Fetchable(s, user, sequences) && |acks| == |sequences|
    ensures var up, s' := |s.catchUps|, Exec(s, [Connects(user), CatchUpFetches(|s.catchUps|, sequences)] + Delivering(|s.catchUps|, acks));
            && |s'.channels| == |s.channels| + 1 && s'.channels[..|s.channels|] == s.channels
            && s'.channels[|s.channels|].owner == user && |s'.channels[|s.channels|].pushed| == |sequences|
            && (forall n :: 0 <= n < |sequences| ==> s'.channels[|s.channels|].pushed[n] == Message(s.queue[sequences[n]].mail))
            && (forall k :: k in s'.queue <==> k in s.queue && !exists n :: 0 <= n < |sequences| && acks[n] && sequences[n] == k)
            && s'.registry == s.registry[user := |s.channels|]
  {
    hide Step, Exec, Delivering, Acknowledged, Frames;
    var up := |s.catchUps|;
    var events := [Connects(user), CatchUpFetches(up, sequences)];
    ConnectFetches(s, user, sequences);
    var s2 := Exec(s, events);
    CatchUpAlone(s2, up, acks);
    ExecConcat(s, events, Delivering(up, acks));
    forall k: Sequence ensures k in Acknowledged(s2.catchUps[up].fetched, acks) <==> exists n :: 0 <= n < |sequences| && acks[n] && sequences[n] == k {
      AcknowledgedIs(s2.catchUps[up].fetched, sequences, acks, k);
    }
  }

  lemma AcknowledgedIs(fetched: seq<Fetched>, sequences: seq<Sequence>, acks: seq<bool>, k: Sequence)
    requires |acks| == |fetched| == |sequences| && forall n :: 0 <= n < |sequences| ==> fetched[n].sequence == sequences[n]
    ensures k in Acknowledged(fetched, acks) <==> exists n :: 0 <= n < |sequences| && acks[n] && sequences[n] == k
  {
    if n :| 0 <= n < |sequences| && acks[n] && sequences[n] == k { assert fetched[n].sequence == k; }
  }

  lemma ConnectFetches(s: State, user: UserId, sequences: seq<Sequence>)
    requires Fetchable(s, user, sequences)
    ensures var up, s' := |s.catchUps|, Exec(s, [Connects(user), CatchUpFetches(|s.catchUps|, sequences)]);
            && s'.channels == s.channels + [Channel(user, true, [])] && s'.queue == s.queue
            && s'.registry == s.registry[user := |s.channels|]
            && |s'.catchUps| == up + 1 && s'.catchUps[up].at == CatchUpPoint.Delivering && s'.catchUps[up].channel == |s.channels|
            && |s'.catchUps[up].fetched| == |sequences|
            && forall n :: 0 <= n < |sequences| ==> s'.catchUps[up].fetched[n] == Fetched(sequences[n], s.queue[sequences[n]].mail)
  {
    var first, second := Connects(user), CatchUpFetches(|s.catchUps|, sequences);
    assert [first, second][..1] == [first] && [first][..0] == [];
    var s1 := Step(s, first);
    assert Exec(s, [first]) == s1;
    assert Fetchable(s1, user, sequences);
  }
}
