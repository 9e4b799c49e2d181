/** The relay: sends, catch-up fetches and redeliveries over channels, the registry and the
    per-user offline queue (apps/api/src/relay.rs).

    Every task is split at its awaits and at its uses of shared state, and any number of them
    interleave with connects and disconnects. Messages do not expire.
 */
module Relay {
  import opened Wrappers
  import R = Registry

  type UserId = nat
  type ChannelId = nat
  type Sequence = nat

  const MAX_QUEUED_MESSAGES_PER_FETCH: nat := 256

  /** A message, with the `send` frame it came from. */
  datatype Mail = Mail(send: nat, from: UserId, body: string)

  datatype Refusal = InvalidPayload | NotAContact | QueueUnavailable

  datatype Frame = Message(mail: Mail) | Ack(user: UserId) | Error(code: Refusal)

  /** An outbound channel, registered for `owner`; `alive` while its receiver is there. `pushed`
      are the frames whose send succeeded. */
  datatype Channel = Channel(owner: UserId, alive: bool, pushed: seq<Frame>)

  /** A stored message on its addressee's subject. */
  datatype Queued = Queued(addressee: UserId, mail: Mail)

  /** `handle_send` and `queue_for_offline_delivery`, after the frame has parsed. */
  datatype SendPoint =
    | Checking
    | Looking
    | Relaying(recipient: ChannelId)
    | Publishing
    | Acking
    | Refusing(code: Refusal)
    | Acked
    | Refused(code: Refusal)
    | SenderGone
  datatype Send = Send(from: UserId, addressee: UserId, body: string, channel: ChannelId, at: SendPoint)

  /** `redeliver_if_now_connected`. */
  datatype RedeliveryPoint = Seeking | Forwarding(recipient: ChannelId) | Deleting | Settled
  datatype Redelivery = Redelivery(addressee: UserId, sequence: Sequence, mail: Mail, at: RedeliveryPoint)

  /** `deliver_queued_messages`; `fetched` are the messages still to deliver, the first in hand. */
  datatype Fetched = Fetched(sequence: Sequence, mail: Mail)
  datatype CatchUpPoint = Fetching | Delivering | Removing | CaughtUp
  datatype CatchUp = CatchUp(user: UserId, channel: ChannelId, fetched: seq<Fetched>, at: CatchUpPoint)

  datatype State = State(
    registry: R.Entries,
    channels: seq<Channel>,
    queue: map<Sequence, Queued>,
    nextSequence: Sequence,
    sends: seq<Send>,
    redeliveries: seq<Redelivery>,
    catchUps: seq<CatchUp>)

  const START: State := State(map[], [], map[], 0, [], [], [])

  /** How a publish ends: stored and confirmed, stored with the confirmation lost, or not stored. */
  datatype Published = Confirmed | Unconfirmed | NotStored

  datatype Event =
    | Connects(user: UserId)
    | Dies(channel: ChannelId)
    | Leaves(channel: ChannelId)
    | BadFrame(channel: ChannelId)
    | SendFrame(channel: ChannelId, addressee: UserId, body: string)
    | SendAdvances(send: nat, isContact: bool, published: Published)
    | RedeliveryAdvances(redelivery: nat, deleted: bool)
    | CatchUpFetches(catchUp: nat, sequences: seq<Sequence>)
    | CatchUpAdvances(catchUp: nat, acked: bool)

  function MailOf(sends: seq<Send>, i: nat): Mail
    requires i < |sends|
  {
    Mail(i, sends[i].from, sends[i].body)
  }

  predicate Alive(s: State, c: ChannelId) { c < |s.channels| && s.channels[c].alive }

  /** What one stretch of a task does to shared state. */
  datatype Effect =
    | Nothing
    | Pushes(channel: ChannelId, frame: Frame)
    | Stores(queued: Queued)
    | Removes(sequence: Sequence)

  /** A push happens only on a channel that is alive. */
  function Perform(s: State, effect: Effect): (r: State)
    ensures r == s.(channels := r.channels, queue := r.queue, nextSequence := r.nextSequence)
    ensures |r.channels| == |s.channels|
  {
    match effect
    case Nothing => s
    case Pushes(c, frame) =>
      if Alive(s, c) then s.(channels := s.channels[c := s.channels[c].(pushed := s.channels[c].pushed + [frame])]) else s
    case Stores(queued) => s.(queue := s.queue[s.nextSequence := queued], nextSequence := s.nextSequence + 1)
    case Removes(sequence) => s.(queue := s.queue - {sequence})
  }

  /** Where a send goes from where it is, and what it does on the way. */
  function NextSend(s: State, i: nat, isContact: bool, published: Published): (SendPoint, Effect)
    requires i < |s.sends|
  {
    var send, mail := s.sends[i], MailOf(s.sends, i);
    match send.at
    case Checking => (if isContact then Looking else Refusing(NotAContact), Nothing)
    case Looking =>
      (match R.Lookup(s.registry, send.addressee) case Some(c) => Relaying(c) case None => Publishing, Nothing)
    case Relaying(c) => (if Alive(s, c) then Acking else Publishing, Pushes(c, Message(mail)))
    case Publishing =>
      (if published.Confirmed? then Acking else Refusing(QueueUnavailable),
       if published.NotStored? then Nothing else Stores(Queued(send.addressee, mail)))
    case Acking => (if Alive(s, send.channel) then Acked else SenderGone, Pushes(send.channel, Ack(send.addressee)))
    case Refusing(code) => (Refused(code), Pushes(send.channel, Error(code)))
    case _ => (send.at, Nothing)
  }

  /** A confirmed publish spawns a redelivery of what it stored. */
  function AdvanceSend(s: State, i: nat, isContact: bool, published: Published): State
    requires i < |s.sends|
  {
    var (at, effect) := NextSend(s, i, isContact, published);
    Perform(s, effect).(
      sends := s.sends[i := s.sends[i].(at := at)],
      redeliveries :=
        if effect.Stores? && at.Acking?
        then s.redeliveries + [Redelivery(s.sends[i].addressee, s.nextSequence, MailOf(s.sends, i), Seeking)]
        else s.redeliveries)
  }

  function NextRedelivery(s: State, red: Redelivery, deleted: bool): (RedeliveryPoint, Effect) {
    match red.at
    case Seeking => (match R.Lookup(s.registry, red.addressee) case Some(c) => Forwarding(c) case None => Settled, Nothing)
    case Forwarding(c) => (if Alive(s, c) then Deleting else Settled, Pushes(c, Message(red.mail)))
    case Deleting => (Settled, if deleted then Removes(red.sequence) else Nothing)
    case Settled => (Settled, Nothing)
  }

  function AdvanceRedelivery(s: State, r: nat, deleted: bool): State
    requires r < |s.redeliveries|
  {
    var (at, effect) := NextRedelivery(s, s.redeliveries[r], deleted);
    Perform(s, effect).(redeliveries := s.redeliveries[r := s.redeliveries[r].(at := at)])
  }

  /** A fetch answers with any of the user's own queued messages, not more than its limit. */
  predicate Fetchable(s: State, user: UserId, sequences: seq<Sequence>) {
    && |sequences| <= MAX_QUEUED_MESSAGES_PER_FETCH
    && forall k :: k in sequences ==> k in s.queue && s.queue[k].addressee == user
  }

  function Fetch(s: State, c: nat, sequences: seq<Sequence>): State
    requires c < |s.catchUps| && Fetchable(s, s.catchUps[c].user, sequences)
  {
    var fetched := seq(|sequences|, n requires 0 <= n < |sequences| => Fetched(sequences[n], s.queue[sequences[n]].mail));
    s.(catchUps := s.catchUps[c := s.catchUps[c].(fetched := fetched, at := Delivering)])
  }

  function NextCatchUp(s: State, up: CatchUp, acked: bool): (CatchUp, Effect) {
    if up.fetched == [] then (if up.at.Delivering? then up.(at := CaughtUp) else up, Nothing)
    else
      match up.at
      case Delivering =>
        (up.(at := if Alive(s, up.channel) then Removing else CaughtUp), Pushes(up.channel, Message(up.fetched[0].mail)))
      case Removing =>
        (up.(fetched := up.fetched[1..], at := Delivering), if acked then Removes(up.fetched[0].sequence) else Nothing)
      case _ => (up, Nothing)
  }

  function AdvanceCatchUp(s: State, c: nat, acked: bool): State
    requires c < |s.catchUps|
  {
    var (up, effect) := NextCatchUp(s, s.catchUps[c], acked);
    Perform(s, effect).(catchUps := s.catchUps[c := up])
  }

  function Step(s: State, ev: Event): State {
    match ev
    case Connects(user) =>
      var c := |s.channels|;
      s.(registry := s.registry[user := c], channels := s.channels + [Channel(user, true, [])],
         catchUps := s.catchUps + [CatchUp(user, c, [], Fetching)])
    case Dies(c) =>
      if c < |s.channels| then s.(channels := s.channels[c := s.channels[c].(alive := false)]) else s
    case Leaves(c) =>
      if c < |s.channels| then s.(registry := R.Without(s.registry, s.channels[c].owner, c)) else s
    case BadFrame(c) => Perform(s, Pushes(c, Error(InvalidPayload)))
    case SendFrame(c, addressee, body) =>
      if c < |s.channels| then s.(sends := s.sends + [Send(s.channels[c].owner, addressee, body, c, Checking)]) else s
    case SendAdvances(i, isContact, published) =>
      if i < |s.sends| then AdvanceSend(s, i, isContact, published) else s
    case RedeliveryAdvances(r, deleted) =>
      if r < |s.redeliveries| then AdvanceRedelivery(s, r, deleted) else s
    case CatchUpFetches(c, sequences) =>
      if c < |s.catchUps| && s.catchUps[c].at.Fetching? && Fetchable(s, s.catchUps[c].user, sequences) then Fetch(s, c, sequences)
      else s
    case CatchUpAdvances(c, acked) =>
      if c < |s.catchUps| then AdvanceCatchUp(s, c, acked) else s
  }

  function Exec(s: State, events: seq<Event>): State {
    if events == [] then s else Step(Exec(s, events[..|events| - 1]), events[|events| - 1])
  }

  // ----- Where a message is

  ghost predicate Pushed(s: State, mail: Mail) {
    exists c :: 0 <= c < |s.channels| && Message(mail) in s.channels[c].pushed
  }

  ghost predicate InQueue(s: State, mail: Mail) {
    exists k :: k in s.queue && s.queue[k].mail == mail
  }

  /** The sender was found to have the addressee among their contacts. */
  predicate Approved(send: Send) {
    send.at != Checking && send.at != Refusing(NotAContact) && send.at != Refused(NotAContact)
  }

  /** A copy of an approved send, under its addressee. */
  predicate Genuine(sends: seq<Send>, mail: Mail, addressee: UserId) {
    && mail.send < |sends| && mail == MailOf(sends, mail.send)
    && sends[mail.send].addressee == addressee && Approved(sends[mail.send])
  }

  predicate OwnedBy(s: State, c: ChannelId, user: UserId) { c < |s.channels| && s.channels[c].owner == user }

  // ----- The invariant

  ghost predicate RegistryOk(s: State) {
    forall u :: u in s.registry ==> OwnedBy(s, s.registry[u], u)
  }

  ghost predicate AckOk(s: State, c: ChannelId, addressee: UserId) {
    exists i :: 0 <= i < |s.sends| && s.sends[i].channel == c && s.sends[i].addressee == addressee && s.sends[i].at == Acked
  }

  ghost predicate FrameOk(s: State, c: ChannelId, frame: Frame)
    requires c < |s.channels|
  {
    match frame
    case Message(mail) => Genuine(s.sends, mail, s.channels[c].owner)
    case Ack(addressee) => AckOk(s, c, addressee)
    case Error(_) => true
  }

  ghost predicate ChannelsOk(s: State) {
    forall c, frame :: 0 <= c < |s.channels| && frame in s.channels[c].pushed ==> FrameOk(s, c, frame)
  }

  ghost predicate QueueOk(s: State) {
    forall k :: k in s.queue ==> k < s.nextSequence && Genuine(s.sends, s.queue[k].mail, s.queue[k].addressee)
  }

  /** In the addressee's queue, or pushed to a channel of the addressee. */
  ghost predicate Safe(s: State, mail: Mail) { Pushed(s, mail) || InQueue(s, mail) }

  ghost predicate SendOk(s: State, i: nat)
    requires i < |s.sends|
  {
    var send := s.sends[i];
    && OwnedBy(s, send.channel, send.from)
    && (send.at.Relaying? ==> OwnedBy(s, send.at.recipient, send.addressee))
    && (send.at.Acking? || send.at.Acked? || send.at.SenderGone? ==> Safe(s, MailOf(s.sends, i)))
  }

  ghost predicate SendsOk(s: State) {
    forall i :: 0 <= i < |s.sends| ==> SendOk(s, i)
  }

  /** A sequence number names one message, for as long as it is stored. */
  predicate Names(s: State, sequence: Sequence, addressee: UserId, mail: Mail) {
    && sequence < s.nextSequence && Genuine(s.sends, mail, addressee)
    && (sequence in s.queue ==> s.queue[sequence] == Queued(addressee, mail))
  }

  ghost predicate RedeliveryOk(s: State, red: Redelivery) {
    && Names(s, red.sequence, red.addressee, red.mail)
    && (red.at.Forwarding? ==> OwnedBy(s, red.at.recipient, red.addressee))
    && (red.at.Deleting? ==> Pushed(s, red.mail))
  }

  ghost predicate RedeliveriesOk(s: State) {
    forall r :: 0 <= r < |s.redeliveries| ==> RedeliveryOk(s, s.redeliveries[r])
  }

  ghost predicate CatchUpOk(s: State, up: CatchUp) {
    && OwnedBy(s, up.channel, up.user)
    && (forall f :: f in up.fetched ==> Names(s, f.sequence, up.user, f.mail))
    && (up.at.Removing? ==> up.fetched != [] && Pushed(s, up.fetched[0].mail))
  }

  ghost predicate CatchUpsOk(s: State) {
    forall c :: 0 <= c < |s.catchUps| ==> CatchUpOk(s, s.catchUps[c])
  }

  ghost predicate Inv(s: State) {
    RegistryOk(s) && ChannelsOk(s) && QueueOk(s) && SendsOk(s) && RedeliveriesOk(s) && CatchUpsOk(s)
  }

  // ----- How a step may move things

  ghost predicate ChannelsGrow(s: State, s': State) {
    && |s.channels| <= |s'.channels|
    && forall c :: 0 <= c < |s.channels| ==>
         s'.channels[c].owner == s.channels[c].owner && s.channels[c].pushed <= s'.channels[c].pushed
  }

  predicate SameSend(send: Send, send': Send) {
    && send'.from == send.from && send'.addressee == send.addressee && send'.body == send.body && send'.channel == send.channel
    && (Approved(send) ==> Approved(send')) && (send.at == Acked ==> send'.at == Acked)
  }

  ghost predicate SendsGrow(s: State, s': State) {
    && |s.sends| <= |s'.sends|
    && forall i :: 0 <= i < |s.sends| ==> SameSend(s.sends[i], s'.sends[i])
  }

  /** What leaves the queue has been pushed; what enters it gets a number never used before. */
  ghost predicate QueueMoves(s: State, s': State) {
    && s.nextSequence <= s'.nextSequence
    && (forall k :: k in s.queue && k in s'.queue ==> s'.queue[k] == s.queue[k])
    && (forall k :: k in s.queue && k !in s'.queue ==> Pushed(s, s.queue[k].mail))
    && (forall k :: k in s'.queue && k !in s.queue ==> k >= s.nextSequence)
  }

  ghost predicate Moves(s: State, s': State) {
    ChannelsGrow(s, s') && SendsGrow(s, s') && QueueMoves(s, s')
  }

  // ----- The effect of a step

  function EffectOf(s: State, ev: Event): Effect {
    match ev
    case BadFrame(c) => Pushes(c, Error(InvalidPayload))
    case SendAdvances(i, isContact, published) => if i < |s.sends| then NextSend(s, i, isContact, published).1 else Nothing
    case RedeliveryAdvances(r, deleted) => if r < |s.redeliveries| then NextRedelivery(s, s.redeliveries[r], deleted).1 else Nothing
    case CatchUpAdvances(c, acked) => if c < |s.catchUps| then NextCatchUp(s, s.catchUps[c], acked).1 else Nothing
    case _ => Nothing
  }

  /** The channels of a step are those its effect leaves, but for one opened or dead. */
  predicate ChannelsAfter(channels: seq<Channel>, s': State, ev: Event) {
    match ev
    case Connects(user) => s'.channels == channels + [Channel(user, true, [])]
    case Dies(c) => s'.channels == if c < |channels| then channels[c := channels[c].(alive := false)] else channels
    case _ => s'.channels == channels
  }

  lemma StepPerforms(s: State, ev: Event)
    ensures ChannelsAfter(Perform(s, EffectOf(s, ev)).channels, Step(s, ev), ev)
    ensures Step(s, ev).queue == Perform(s, EffectOf(s, ev)).queue
    ensures Step(s, ev).nextSequence == Perform(s, EffectOf(s, ev)).nextSequence
  {
    hide NextSend, NextRedelivery, NextCatchUp, Fetchable;
  }

  /** An effect is in order: it pushes genuine copies to their addressee's channels and acks what is
      safe, stores genuine copies, and removes what has been pushed. */
  ghost predicate EffectOk(s: State, effect: Effect) {
    match effect
    case Nothing => true
    case Pushes(c, frame) => (
      match frame
      case Message(mail) => c < |s.channels| && Genuine(s.sends, mail, s.channels[c].owner)
      case _ => true)
    case Stores(queued) => Genuine(s.sends, queued.mail, queued.addressee)
    case Removes(k) => k in s.queue ==> Pushed(s, s.queue[k].mail)
  }

  lemma EffectIsOk(s: State, ev: Event)
    requires Inv(s)
    ensures EffectOk(s, EffectOf(s, ev))
  {
    match ev
    case SendAdvances(i, _, _) => if i < |s.sends| { assert SendOk(s, i); }
    case RedeliveryAdvances(r, _) => if r < |s.redeliveries| { assert RedeliveryOk(s, s.redeliveries[r]); }
    case CatchUpAdvances(c, _) =>
      if c < |s.catchUps| {
        var up := s.catchUps[c];
        assert CatchUpOk(s, up);
        assert up.fetched != [] ==> up.fetched[0] in up.fetched;
      }
    case _ =>
  }

  lemma EffectMoves(s: State, ev: Event)
    requires QueueOk(s) && EffectOk(s, EffectOf(s, ev))
    ensures ChannelsGrow(s, Step(s, ev)) && QueueMoves(s, Step(s, ev))
  {
    hide Step, EffectOf, Genuine, Pushed;
    StepPerforms(s, ev);
  }

  lemma StepSends(s: State, ev: Event)
    ensures SendsGrow(s, Step(s, ev))
  {
    hide Perform, NextRedelivery, NextCatchUp, Fetchable, R.Lookup, R.Without;
  }

  lemma StepMoves(s: State, ev: Event)
    requires Inv(s)
    ensures Moves(s, Step(s, ev))
  {
    hide Step, EffectOf, EffectOk, ChannelsGrow, SendsGrow, QueueMoves, RegistryOk, ChannelsOk, QueueOk, SendsOk,
         RedeliveriesOk, CatchUpsOk;
    EffectIsOk(s, ev);
    EffectMoves(s, ev);
    StepSends(s, ev);
  }

  // ----- What holds stays

  lemma GenuineKept(s: State, s': State, mail: Mail, addressee: UserId)
    requires SendsGrow(s, s') && Genuine(s.sends, mail, addressee)
    ensures Genuine(s'.sends, mail, addressee)
  {
  }

  lemma PushedKept(s: State, s': State, mail: Mail)
    requires ChannelsGrow(s, s') && Pushed(s, mail)
    ensures Pushed(s', mail)
  {
    var c :| 0 <= c < |s.channels| && Message(mail) in s.channels[c].pushed;
    assert Message(mail) in s'.channels[c].pushed;
  }

  lemma SafeKept(s: State, s': State, mail: Mail)
    requires Moves(s, s') && Safe(s, mail)
    ensures Safe(s', mail)
  {
    if Pushed(s, mail) {
      PushedKept(s, s', mail);
    } else {
      var k :| k in s.queue && s.queue[k].mail == mail;
      assert k in s'.queue;
    }
  }

  lemma NamesKept(s: State, s': State, sequence: Sequence, addressee: UserId, mail: Mail)
    requires Moves(s, s') && Names(s, sequence, addressee, mail)
    ensures Names(s', sequence, addressee, mail)
  {
    hide Genuine, ChannelsGrow, Pushed;
    GenuineKept(s, s', mail, addressee);
  }

  lemma FrameKept(s: State, s': State, c: ChannelId, frame: Frame)
    requires ChannelsGrow(s, s') && SendsGrow(s, s') && c < |s.channels| && FrameOk(s, c, frame)
    ensures FrameOk(s', c, frame)
  {
    match frame
    case Message(mail) => GenuineKept(s, s', mail, s.channels[c].owner);
    case Ack(addressee) =>
      var i :| 0 <= i < |s.sends| && s.sends[i].channel == c && s.sends[i].addressee == addressee && s.sends[i].at == Acked;
      assert SameSend(s.sends[i], s'.sends[i]);
    case Error(_) =>
  }

  lemma SendKept(s: State, s': State, i: nat)
    requires Moves(s, s') && i < |s.sends| && SendOk(s, i) && s'.sends[i] == s.sends[i]
    ensures SendOk(s', i)
  {
    hide Safe, SendsGrow, QueueMoves;
    if Safe(s, MailOf(s.sends, i)) { SafeKept(s, s', MailOf(s.sends, i)); }
  }

  lemma RedeliveryKept(s: State, s': State, red: Redelivery)
    requires Moves(s, s') && RedeliveryOk(s, red)
    ensures RedeliveryOk(s', red)
  {
    hide Names, Pushed, SendsGrow, QueueMoves;
    NamesKept(s, s', red.sequence, red.addressee, red.mail);
    if Pushed(s, red.mail) { PushedKept(s, s', red.mail); }
  }

  lemma CatchUpKept(s: State, s': State, up: CatchUp)
    requires Moves(s, s') && CatchUpOk(s, up)
    ensures CatchUpOk(s', up)
  {
    hide Names, Pushed, SendsGrow, QueueMoves;
    forall f | f in up.fetched ensures Names(s', f.sequence, up.user, f.mail) {
      NamesKept(s, s', f.sequence, up.user, f.mail);
    }
    if up.at.Removing? && Pushed(s, up.fetched[0].mail) { PushedKept(s, s', up.fetched[0].mail); }
  }

  // ----- Every step keeps the invariant

  lemma StepRegistry(s: State, ev: Event)
    requires RegistryOk(s) && ChannelsGrow(s, Step(s, ev))
    ensures RegistryOk(Step(s, ev))
  {
    hide Perform, NextSend, NextRedelivery, NextCatchUp, Fetchable;
  }

  lemma StepChannels(s: State, ev: Event)
    requires Inv(s) && Moves(s, Step(s, ev))
    ensures ChannelsOk(Step(s, ev))
  {
    hide Step, FrameOk, EffectOf, QueueOk, SendsOk, RedeliveriesOk, CatchUpsOk;
    var s', effect := Step(s, ev), EffectOf(s, ev);
    StepPerforms(s, ev);
    forall c, frame | 0 <= c < |s'.channels| && frame in s'.channels[c].pushed ensures FrameOk(s', c, frame) {
      if c < |s.channels| && frame in s.channels[c].pushed {
        FrameKept(s, s', c, frame);
      } else {
        PushedFrameOk(s, ev);
      }
    }
  }

  lemma PushedFrameOk(s: State, ev: Event)
    requires Inv(s) && Moves(s, Step(s, ev)) && EffectOf(s, ev).Pushes? && Alive(s, EffectOf(s, ev).channel)
    ensures FrameOk(Step(s, ev), EffectOf(s, ev).channel, EffectOf(s, ev).frame)
  {
    var e, s' := EffectOf(s, ev), Step(s, ev);
    match e.frame
    case Message(mail) =>
      EffectIsOk(s, ev);
      GenuineKept(s, s', mail, s.channels[e.channel].owner);
    case Ack(addressee) =>
      assert s'.sends[ev.send].at == Acked;
    case Error(_) =>
  }

  lemma StepQueue(s: State, ev: Event)
    requires Inv(s) && Moves(s, Step(s, ev))
    ensures QueueOk(Step(s, ev))
  {
    hide Step, EffectOf, Genuine, Pushed, RegistryOk, ChannelsOk, SendsOk, RedeliveriesOk, CatchUpsOk;
    var s' := Step(s, ev);
    EffectIsOk(s, ev);
    StepPerforms(s, ev);
    forall k | k in s'.queue ensures k < s'.nextSequence && Genuine(s'.sends, s'.queue[k].mail, s'.queue[k].addressee) {
      GenuineKept(s, s', s'.queue[k].mail, s'.queue[k].addressee);
    }
  }

  /** The sends but the one advancing keep what they rely on; that one gets to `Acking` only by a
      push or a confirmed store. */
  lemma AdvancedSendOk(s: State, i: nat, isContact: bool, published: Published)
    requires RegistryOk(s) && i < |s.sends| && SendOk(s, i) && Moves(s, AdvanceSend(s, i, isContact, published))
    ensures SendOk(AdvanceSend(s, i, isContact, published), i)
  {
    var s' := AdvanceSend(s, i, isContact, published);
    var mail := MailOf(s.sends, i);
    match s.sends[i].at
    case Relaying(c) =>
      if Alive(s, c) { assert Message(mail) in s'.channels[c].pushed; }
    case Publishing =>
      if published.Confirmed? { assert s'.queue[s.nextSequence].mail == mail; }
    case Acking => SafeKept(s, s', mail);
    case Acked => SafeKept(s, s', mail);
    case SenderGone => SafeKept(s, s', mail);
    case _ =>
  }

  lemma StepSendsOk(s: State, ev: Event)
    requires Inv(s) && Moves(s, Step(s, ev))
    ensures SendsOk(Step(s, ev))
  {
    hide SendOk, Moves, ChannelsOk, QueueOk, RedeliveriesOk, CatchUpsOk, AdvanceSend, NextRedelivery, NextCatchUp, Fetchable,
         R.Without;
    var s' := Step(s, ev);
    forall i | 0 <= i < |s'.sends| ensures SendOk(s', i) {
      if ev.SendAdvances? && i == ev.send {
        AdvancedSendOk(s, i, ev.isContact, ev.published);
      } else if i < |s.sends| {
        SendUntouched(s, ev, i);
        SendKept(s, s', i);
      } else {
        NewSendOk(s, ev);
      }
    }
  }

  lemma SendUntouched(s: State, ev: Event, i: nat)
    requires i < |s.sends| && !(ev.SendAdvances? && ev.send == i)
    ensures i < |Step(s, ev).sends| && Step(s, ev).sends[i] == s.sends[i]
  {
    hide NextSend, NextRedelivery, NextCatchUp, Fetchable, R.Without;
  }

  lemma NewSendOk(s: State, ev: Event)
    requires |Step(s, ev).sends| > |s.sends|
    ensures |Step(s, ev).sends| == |s.sends| + 1 && SendOk(Step(s, ev), |s.sends|)
  {
    hide NextSend, NextRedelivery, NextCatchUp, Fetchable, R.Without, Safe;
  }

  lemma StepRedeliveries(s: State, ev: Event)
    requires Inv(s) && Moves(s, Step(s, ev))
    ensures RedeliveriesOk(Step(s, ev))
  {
    hide RedeliveryOk, Moves, ChannelsOk, QueueOk, SendsOk, CatchUpsOk, AdvanceSend, AdvanceRedelivery, NextCatchUp, Fetchable,
         R.Without;
    var s' := Step(s, ev);
    if ev.SendAdvances? && ev.send < |s.sends| { SpawnedOk(s, ev.send, ev.isContact, ev.published); }
    if ev.RedeliveryAdvances? && ev.redelivery < |s.redeliveries| { AdvancedRedeliveryOk(s, ev.redelivery, ev.deleted); }
    forall r | 0 <= r < |s'.redeliveries| ensures RedeliveryOk(s', s'.redeliveries[r]) {
      if r < |s.redeliveries| && s'.redeliveries[r] == s.redeliveries[r] { RedeliveryKept(s, s', s.redeliveries[r]); }
    }
  }

  lemma SpawnedOk(s: State, i: nat, isContact: bool, published: Published)
    requires QueueOk(s) && i < |s.sends| && Moves(s, AdvanceSend(s, i, isContact, published))
    ensures var s' := AdvanceSend(s, i, isContact, published);
            && |s.redeliveries| <= |s'.redeliveries| <= |s.redeliveries| + 1
            && s'.redeliveries[..|s.redeliveries|] == s.redeliveries
            && (|s'.redeliveries| > |s.redeliveries| ==> RedeliveryOk(s', s'.redeliveries[|s.redeliveries|]))
            && forall r :: 0 <= r < |s.redeliveries| ==> s'.redeliveries[r] == s.redeliveries[r]
  {
    hide R.Lookup, Pushed;
  }

  lemma AdvancedRedeliveryOk(s: State, r: nat, deleted: bool)
    requires RegistryOk(s) && r < |s.redeliveries| && RedeliveryOk(s, s.redeliveries[r])
    requires Moves(s, AdvanceRedelivery(s, r, deleted))
    ensures var s' := AdvanceRedelivery(s, r, deleted);
            && |s'.redeliveries| == |s.redeliveries| && RedeliveryOk(s', s'.redeliveries[r])
            && forall q :: 0 <= q < |s.redeliveries| && q != r ==> s'.redeliveries[q] == s.redeliveries[q]
  {
    var s', red := AdvanceRedelivery(s, r, deleted), s.redeliveries[r];
    NamesKept(s, s', red.sequence, red.addressee, red.mail);
    if red.at.Forwarding? && Alive(s, red.at.recipient) {
      assert Message(red.mail) in s'.channels[red.at.recipient].pushed;
    }
  }

  lemma StepCatchUps(s: State, ev: Event)
    requires Inv(s) && Moves(s, Step(s, ev))
    ensures CatchUpsOk(Step(s, ev))
  {
    hide CatchUpOk, Moves, ChannelsOk, QueueOk, SendsOk, RedeliveriesOk, NextSend, NextRedelivery, AdvanceCatchUp, Fetchable, Fetch,
         R.Without;
    var s' := Step(s, ev);
    if ev.CatchUpAdvances? && ev.catchUp < |s.catchUps| { AdvancedCatchUpOk(s, ev.catchUp, ev.acked); }
    if ev.CatchUpFetches? && s' != s { FetchedOk(s, ev.catchUp, ev.sequences); }
    forall c | 0 <= c < |s'.catchUps| ensures CatchUpOk(s', s'.catchUps[c]) {
      if c < |s.catchUps| && s'.catchUps[c] == s.catchUps[c] { CatchUpKept(s, s', s.catchUps[c]); }
      else if ev.Connects? { NewCatchUpOk(s, ev.user); }
    }
  }

  lemma NewCatchUpOk(s: State, user: UserId)
    ensures var s' := Step(s, Connects(user)); CatchUpOk(s', s'.catchUps[|s.catchUps|])
  {
  }

  lemma FetchedOk(s: State, c: nat, sequences: seq<Sequence>)
    requires QueueOk(s) && CatchUpsOk(s) && c < |s.catchUps| && Fetchable(s, s.catchUps[c].user, sequences)
    ensures var s' := Fetch(s, c, sequences);
            && |s'.catchUps| == |s.catchUps| && CatchUpOk(s', s'.catchUps[c])
            && forall d :: 0 <= d < |s.catchUps| && d != c ==> s'.catchUps[d] == s.catchUps[d]
  {
    var s' := Fetch(s, c, sequences);
    assert CatchUpOk(s, s.catchUps[c]);
    forall f | f in s'.catchUps[c].fetched ensures Names(s', f.sequence, s.catchUps[c].user, f.mail) {
      assert f.sequence in sequences;
    }
  }

  lemma AdvancedCatchUpOk(s: State, c: nat, acked: bool)
    requires c < |s.catchUps| && CatchUpOk(s, s.catchUps[c]) && Moves(s, AdvanceCatchUp(s, c, acked))
    ensures var s' := AdvanceCatchUp(s, c, acked);
            && |s'.catchUps| == |s.catchUps| && CatchUpOk(s', s'.catchUps[c])
            && forall d :: 0 <= d < |s.catchUps| && d != c ==> s'.catchUps[d] == s.catchUps[d]
  {
    var s', up := AdvanceCatchUp(s, c, acked), s.catchUps[c];
    forall f | f in up.fetched ensures Names(s', f.sequence, up.user, f.mail) {
      NamesKept(s, s', f.sequence, up.user, f.mail);
    }
    if up.at.Delivering? && up.fetched != [] && Alive(s, up.channel) {
      assert Message(up.fetched[0].mail) in s'.channels[up.channel].pushed;
    }
    if up.at.Removing? { PushedKept(s, s', up.fetched[0].mail); }
  }

  lemma StepInv(s: State, ev: Event)
    requires Inv(s)
    ensures Inv(Step(s, ev)) && Moves(s, Step(s, ev))
  {
    hide Step, Moves, RegistryOk, ChannelsOk, QueueOk, SendsOk, RedeliveriesOk, CatchUpsOk;
    StepMoves(s, ev);
    MovesGrow(s, Step(s, ev));
    StepRegistry(s, ev);
    StepChannels(s, ev);
    StepQueue(s, ev);
    StepSendsOk(s, ev);
    StepRedeliveries(s, ev);
    StepCatchUps(s, ev);
  }

  lemma MovesGrow(s: State, s': State)
    requires Moves(s, s')
    ensures ChannelsGrow(s, s')
  {
  }

  lemma {:induction false} ExecInv(events: seq<Event>)
    ensures Inv(Exec(START, events))
  {
    hide Step, Inv;
    if events == [] {
      StartInv();
    } else {
      ExecInv(events[..|events| - 1]);
      StepInv(Exec(START, events[..|events| - 1]), events[|events| - 1]);
    }
  }

  lemma StartInv()
    ensures Inv(START)
  {
  }

  // ----- What follows

  /** A copy on a channel of the addressee, or in the addressee's queue. */
  ghost predicate Reaches(s: State, mail: Mail, addressee: UserId) {
    || (exists c :: 0 <= c < |s.channels| && s.channels[c].owner == addressee && Message(mail) in s.channels[c].pushed)
    || (exists k :: k in s.queue && s.queue[k] == Queued(addressee, mail))
  }

  ghost predicate PushedTo(s: State, mail: Mail, addressee: UserId) {
    exists c :: 0 <= c < |s.channels| && s.channels[c].owner == addressee && Message(mail) in s.channels[c].pushed
  }

  /** No copy is pushed to, or queued for, anyone but the addressee of the send it came from, and
      only a send to a contact has copies. */
  lemma NoStrayCopy(events: seq<Event>, mail: Mail)
    ensures var s := Exec(START, events);
            && (forall c :: 0 <= c < |s.channels| && Message(mail) in s.channels[c].pushed ==>
                  Genuine(s.sends, mail, s.channels[c].owner))
            && (forall k :: k in s.queue && s.queue[k].mail == mail ==> Genuine(s.sends, mail, s.queue[k].addressee))
  {
    hide Exec, Genuine;
    ExecInv(events);
    var s := Exec(START, events);
    forall c | 0 <= c < |s.channels| && Message(mail) in s.channels[c].pushed ensures Genuine(s.sends, mail, s.channels[c].owner) {
      assert FrameOk(s, c, Message(mail));
    }
  }

  /** Conservation: every message whose sender was acked is in its addressee's queue or has been pushed
      to a channel of the addressee. */
  lemma AckedIsConserved(events: seq<Event>)
    ensures var s := Exec(START, events);
            forall i :: 0 <= i < |s.sends| && s.sends[i].at == Acked ==>
              Reaches(s, MailOf(s.sends, i), s.sends[i].addressee)
  {
    hide Exec;
    var s := Exec(START, events);
    ExecInv(events);
    forall i | 0 <= i < |s.sends| && s.sends[i].at == Acked ensures Reaches(s, MailOf(s.sends, i), s.sends[i].addressee) {
      assert SendOk(s, i);
      NoStrayCopy(events, MailOf(s.sends, i));
    }
  }

  lemma {:induction false} MovesOn(events: seq<Event>, more: seq<Event>, k: Sequence)
    requires k in Exec(START, events).queue
    ensures var s, s' := Exec(START, events), Exec(START, events + more);
            && SendsGrow(s, s')
            && (if k in s'.queue then s'.queue[k] == s.queue[k] else k < s'.nextSequence && Pushed(s', s.queue[k].mail))
  {
    hide Step, Inv, Pushed;
    if more == [] {
      assert events + more == events;
    } else {
      var init := more[..|more| - 1];
      assert (events + more)[..|events + more| - 1] == events + init;
      MovesOn(events, init, k);
      var s, s1 := Exec(START, events), Exec(START, events + init);
      ExecInv(events + init);
      StepInv(s1, more[|more| - 1]);
      if k in s1.queue { QueuedBelow(s1, k); }
      if Pushed(s1, s.queue[k].mail) { PushedKept(s1, Exec(START, events + more), s.queue[k].mail); }
    }
  }

  lemma QueuedBelow(s: State, k: Sequence)
    requires Inv(s) && k in s.queue
    ensures k < s.nextSequence
  {
  }

  /** A message is still in its addressee's queue, or has been pushed to a channel of the addressee:
      it leaves the queue only after a push. */
  lemma LeavesOnlyAfterPush(events: seq<Event>, more: seq<Event>, k: Sequence)
    requires k in Exec(START, events).queue
    ensures var queued, s := Exec(START, events).queue[k], Exec(START, events + more);
            if k in s.queue then s.queue[k] == queued else PushedTo(s, queued.mail, queued.addressee)
  {
    hide Exec;
    var s := Exec(START, events);
    var queued := s.queue[k];
    MovesOn(events, more, k);
    NoStrayCopy(events, queued.mail);
    NoStrayCopy(events + more, queued.mail);
  }

  /** A send refused as not to a contact has no copy anywhere. */
  lemma RefusedHasNoCopy(events: seq<Event>, i: nat)
    requires i < |Exec(START, events).sends| && Exec(START, events).sends[i].at == Refused(NotAContact)
    ensures !Pushed(Exec(START, events), MailOf(Exec(START, events).sends, i))
    ensures !InQueue(Exec(START, events), MailOf(Exec(START, events).sends, i))
  {
    hide Exec;
    NoStrayCopy(events, MailOf(Exec(START, events).sends, i));
  }

  // ----- The catch-up loop

  class Outbound {
    var alive: bool
    var pushed: seq<Frame>

    method Send(frame: Frame) returns (ok: bool)
      modifies `pushed
      ensures ok == alive && pushed == if alive then old(pushed) + [frame] else old(pushed)
    {
      ok := alive;
      if ok {
        pushed := pushed + [frame];
      }
    }
  }

  /** What the fetch yields next: a message, whose payload may not parse, or an error. */
  datatype Arrival = Arrives(sequence: Sequence, payload: Option<Mail>) | Errs

  datatype Delivery = Delivery(frames: seq<Frame>, removed: set<Sequence>)

  /** Which frames are pushed and which messages removed, with room for so many sends before the
      channel's receiver is gone; `acks` says which acknowledgements get through. */
  function Deliver(arrivals: seq<Arrival>, acks: seq<bool>, room: nat): Delivery
    requires |acks| == |arrivals|
  {
    if arrivals == [] || arrivals[0].Errs? then Delivery([], {})
    else
      match arrivals[0].payload
      case None => Deliver(arrivals[1..], acks[1..], room)
      case Some(mail) =>
        if room == 0 then Delivery([], {})
        else
          var rest := Deliver(arrivals[1..], acks[1..], room - 1);
          Delivery([Message(mail)] + rest.frames, (if acks[0] then {arrivals[0].sequence} else {}) + rest.removed)
  }

  /** Only what was pushed is removed, frames keep the order of arrival, and a channel without room
      takes none. */
  lemma {:induction false} RemovedWasPushed(arrivals: seq<Arrival>, acks: seq<bool>, room: nat)
    requires |acks| == |arrivals|
    ensures var d := Deliver(arrivals, acks, room);
            && |d.frames| <= room
            && forall k :: k in d.removed ==>
                 exists j :: 0 <= j < |arrivals| && arrivals[j].Arrives? && arrivals[j].sequence == k && acks[j]
                             && arrivals[j].payload.Some? && Message(arrivals[j].payload.value) in d.frames
  {
    var d := Deliver(arrivals, acks, room);
    if arrivals != [] && arrivals[0].Arrives? {
      var next := if arrivals[0].payload.Some? && room > 0 then room - 1 else room;
      RemovedWasPushed(arrivals[1..], acks[1..], next);
      var rest := Deliver(arrivals[1..], acks[1..], next);
      forall k | k in d.removed
        ensures exists j :: 0 <= j < |arrivals| && arrivals[j].Arrives? && arrivals[j].sequence == k && acks[j]
                            && arrivals[j].payload.Some? && Message(arrivals[j].payload.value) in d.frames
      {
        if k in rest.removed {
          var j :| 0 <= j < |arrivals[1..]| && arrivals[1..][j].Arrives? && arrivals[1..][j].sequence == k && acks[1..][j]
                   && arrivals[1..][j].payload.Some? && Message(arrivals[1..][j].payload.value) in rest.frames;
          assert arrivals[j + 1] == arrivals[1..][j] && acks[j + 1] == acks[1..][j];
        } else {
          assert arrivals[0].sequence == k && acks[0];
        }
      }
    }
  }

  /** The message at j parses and comes before any error. */
  predicate Deliverable(arrivals: seq<Arrival>, j: nat) {
    && j < |arrivals| && arrivals[j].Arrives? && arrivals[j].payload.Some?
    && forall i :: 0 <= i < j ==> arrivals[i].Arrives?
  }

  /** From i on, the frames are the messages at `positions`: deliverable ones, in order, not more than
      there is room for, and none passed over. Removed are those of them whose acknowledgement gets
      through. */
  ghost predicate Delivers(arrivals: seq<Arrival>, acks: seq<bool>, i: nat, room: nat, positions: seq<nat>,
                           frames: seq<Frame>, removed: set<Sequence>)
    requires |acks| == |arrivals|
  {
    && |frames| == |positions| <= room
    && (forall n :: 0 <= n < |positions| ==>
          && i <= positions[n] && Deliverable(arrivals, positions[n])
          && frames[n] == Message(arrivals[positions[n]].payload.value))
    && (forall m, n :: 0 <= m < n < |positions| ==> positions[m] < positions[n])
    && (forall j :: i <= j && Deliverable(arrivals, j) && j !in positions ==>
          |positions| == room && forall n :: 0 <= n < |positions| ==> positions[n] < j)
    && (forall k :: k in removed ==> exists j :: j in positions && Removal(arrivals, acks, j, k))
    && (forall j, k :: j in positions && Removal(arrivals, acks, j, k) ==> k in removed)
  }

  predicate Removal(arrivals: seq<Arrival>, acks: seq<bool>, j: nat, k: Sequence)
    requires |acks| == |arrivals|
  {
    j < |arrivals| && acks[j] && arrivals[j].Arrives? && arrivals[j].sequence == k
  }

  lemma {:induction false} DeliversExactly(arrivals: seq<Arrival>, acks: seq<bool>, i: nat, room: nat) returns (positions: seq<nat>)
    requires |acks| == |arrivals| && i <= |arrivals| && forall j :: 0 <= j < i ==> arrivals[j].Arrives?
    ensures var d := Deliver(arrivals[i..], acks[i..], room); Delivers(arrivals, acks, i, room, positions, d.frames, d.removed)
    decreases |arrivals| - i
  {
    positions := [];
    if i < |arrivals| && arrivals[i].Arrives? {
      assert arrivals[i..][1..] == arrivals[i + 1..] && acks[i..][1..] == acks[i + 1..];
      if arrivals[i].payload.None? {
        positions := DeliversExactly(arrivals, acks, i + 1, room);
      } else if room > 0 {
        var rest := DeliversExactly(arrivals, acks, i + 1, room - 1);
        var d := Deliver(arrivals[i + 1..], acks[i + 1..], room - 1);
        Takes(arrivals, acks, i, room, rest, d);
        positions := [i] + rest;
      }
    }
  }

  /** One more in front. */
  lemma Takes(arrivals: seq<Arrival>, acks: seq<bool>, i: nat, room: nat, rest: seq<nat>, d: Delivery)
    requires |acks| == |arrivals| && room > 0 && Deliverable(arrivals, i)
    requires i < |arrivals| && arrivals[i].Arrives? && arrivals[i].payload.Some?
    requires Delivers(arrivals, acks, i + 1, room - 1, rest, d.frames, d.removed)
    ensures Delivers(arrivals, acks, i, room, [i] + rest, [Message(arrivals[i].payload.value)] + d.frames,
                     (if acks[i] then {arrivals[i].sequence} else {}) + d.removed)
  {
    hide Deliverable, Removal;
    var removed := (if acks[i] then {arrivals[i].sequence} else {}) + d.removed;
    forall k | k in removed ensures exists j :: j in [i] + rest && Removal(arrivals, acks, j, k) {
      if k in d.removed {
        var j :| j in rest && Removal(arrivals, acks, j, k);
        assert j in [i] + rest;
      } else {
        RemovalIs(arrivals, acks, i, k);
        assert i in [i] + rest && Removal(arrivals, acks, i, k);
      }
    }
    forall j, k | j in [i] + rest && Removal(arrivals, acks, j, k) ensures k in removed {
      if j == i { RemovalIs(arrivals, acks, i, k); }
    }
  }

  lemma RemovalIs(arrivals: seq<Arrival>, acks: seq<bool>, j: nat, k: Sequence)
    requires |acks| == |arrivals| && j < |arrivals| && arrivals[j].Arrives?
    ensures Removal(arrivals, acks, j, k) <==> acks[j] && arrivals[j].sequence == k
  {
  }

  /** The loop over the fetch: a payload that does not parse is passed over and stays queued, a message
      is acknowledged only after its push, and the rest is left alone after an error or once the
      channel is gone. `room` is how many sends the channel takes before its receiver goes. With no
      error and room enough, every message that parses is delivered. */
  method DeliverQueuedMessages(tx: Outbound, arrivals: seq<Arrival>, acks: seq<bool>, room: nat)
    returns (removed: set<Sequence>, ghost delivered: seq<nat>)
    requires |acks| == |arrivals|
    modifies tx
    ensures var d := Deliver(arrivals, acks, if old(tx.alive) then room else 0);
            tx.pushed == old(tx.pushed) + d.frames && removed == d.removed
    ensures old(tx.pushed) <= tx.pushed
    ensures Delivers(arrivals, acks, 0, if old(tx.alive) then room else 0, delivered, tx.pushed[|old(tx.pushed)|..], removed)
    ensures old(tx.alive) && |arrivals| <= room && Errs !in arrivals ==>
              forall j :: 0 <= j < |arrivals| && arrivals[j].payload.Some? ==> Message(arrivals[j].payload.value) in tx.pushed
  {
    hide Delivers;
    removed := {};
    ghost var all := Deliver(arrivals, acks, if tx.alive then room else 0);
    delivered := DeliversExactly(arrivals, acks, 0, if tx.alive then room else 0);
    if tx.alive && |arrivals| <= room && Errs !in arrivals {
      AllDelivered(arrivals, acks, room, delivered, all);
    }
    var left: nat := if tx.alive then room else 0;
    var i := 0;
    while i < |arrivals|
      invariant 0 <= i <= |arrivals|
      invariant var rest := Deliver(arrivals[i..], acks[i..], left);
                old(tx.pushed) + all.frames == tx.pushed + rest.frames && all.removed == removed + rest.removed
    {
      ghost var rest := Deliver(arrivals[i..], acks[i..], left);
      assert arrivals[i..][1..] == arrivals[i + 1..] && acks[i..][1..] == acks[i + 1..];
      if arrivals[i].Errs? {
        return;
      }
      if arrivals[i].payload.Some? {
        tx.alive := left > 0;
        var sent := tx.Send(Message(arrivals[i].payload.value));
        if !sent {
          return;
        }
        left := left - 1;
        if acks[i] {
          removed := removed + {arrivals[i].sequence};
        }
        assert rest.frames == [Message(arrivals[i].payload.value)] + Deliver(arrivals[i + 1..], acks[i + 1..], left).frames;
      }
      i := i + 1;
    }
  }

  lemma AllDelivered(arrivals: seq<Arrival>, acks: seq<bool>, room: nat, positions: seq<nat>, d: Delivery)
    requires |acks| == |arrivals| <= room && Errs !in arrivals
    requires Delivers(arrivals, acks, 0, room, positions, d.frames, d.removed)
    ensures forall j :: 0 <= j < |arrivals| && arrivals[j].payload.Some? ==> Message(arrivals[j].payload.value) in d.frames
  {
    assert forall i :: 0 <= i < |arrivals| ==> arrivals[i] != Errs;
    forall j | 0 <= j < |arrivals| && arrivals[j].payload.Some? ensures Message(arrivals[j].payload.value) in d.frames {
      assert Deliverable(arrivals, j);
      if j !in positions {
        Spread(positions, |arrivals| - 1);
      }
    }
  }

  /** Increasing positions below a bound are not more than the bound. */
  lemma {:induction false} Spread(positions: seq<nat>, bound: nat)
    requires forall m, n :: 0 <= m < n < |positions| ==> positions[m] < positions[n]
    requires forall n :: 0 <= n < |positions| ==> positions[n] < bound
    ensures |positions| <= bound
  {
    if positions != [] {
      Spread(positions[..|positions| - 1], positions[|positions| - 1]);
    }
  }
}
