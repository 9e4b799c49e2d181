/** Two parties, one handshake, and a network that owns every ratchet envelope in between.

    The ratchet key pairs of both parties form one ladder: rung 0 is the responder's static key,
    rung 1 the initiator's ephemeral key, and each later rung is the key pair that a party
    generates on first seeing the rung before it. Chain k belongs to the owner of rung k.
 */
module RatchetRun {
  import opened Wrappers
  import opened Keys
  import opened Session
  import opened Words

  datatype Role = Initiator | Responder {
    function Peer(): Role { if this == Initiator then Responder else Initiator }
    /** The first chain this role sends on. */
    function First(): nat { if this == Initiator then 1 else 2 }
  }

  datatype Parties = Parties(
    initiatorId: string, responderId: string,
    initiatorKey: Signer, responderKey: Signer,
    staticSecret: Secret, kyberSecret: Secret, kemSeed: Secret)
  {
    function Id(r: Role): string { if r == Initiator then initiatorId else responderId }
    function SigningKey(r: Role): Signer { if r == Initiator then initiatorKey else responderKey }
    function Ephemeral(): Secret { staticSecret + 1 }
    function Aad(sender: Role): string { DirectionAad(Id(sender), Id(sender.Peer())) }
    function Root0(): Key {
      InitialRoot(Agree(Ephemeral(), PublicKey(staticSecret)), Encapsulated(kyberSecret, kemSeed),
                  RootKeyInfo(responderId, initiatorId))
    }
  }

  /** `spoken` and `accepted` are the plaintexts this party sent and displayed, in order. */
  datatype Endpoint = Endpoint(session: Option<RatchetState>, sent: seq<Envelope>, spoken: seq<Bytes>,
                               accepted: seq<Bytes>)

  datatype World = World(initiator: Endpoint, responder: Endpoint, nextSecret: Secret) {
    function At(r: Role): Endpoint { if r == Initiator then initiator else responder }
    function With(r: Role, e: Endpoint): World {
      if r == Initiator then this.(initiator := e) else this.(responder := e)
    }
  }

  datatype Event =
    | Send(role: Role, plaintext: Bytes, nonce: Bytes)
    | Deliver(role: Role, envelope: Envelope)

  /** The initiator has opened the session and sent message 0 in a handshake envelope. */
  function Start(ps: Parties, plaintext: Bytes, nonce: Bytes): World {
    var initiated := InitiateSession(ps.responderId, ps.initiatorId, PublicKey(ps.staticSecret),
                                     PublicKey(ps.kyberSecret), ps.Ephemeral(), ps.kemSeed);
    var send := DeriveNextSendingMessageKey(initiated.state);
    var envelope := EncodeHandshakeEnvelope(initiated, send.messageKey, plaintext, nonce,
                                            ps.initiatorId, ps.responderId, ps.initiatorKey);
    World(Endpoint(Some(send.nextState), [envelope], [plaintext], []),
          Endpoint(None, [], [], []),
          ps.Ephemeral() + 1)
  }

  /** What the recipient's inbox listener makes of one envelope. It decodes a handshake even within a
      session; the initiator is never sent one its peer signed, so whose static secrets it would use
      does not matter. */
  function Decode(ps: Parties, r: Role, me: Endpoint, e: Envelope, newSecret: Secret): DecodeResult {
    if e.HandshakeEnvelope? then
      DecodeHandshakeEnvelope(e, ps.Id(r.Peer()), ps.Id(r), ps.staticSecret, ps.kyberSecret,
                              ps.SigningKey(r.Peer()), newSecret)
    else if me.session.None? then Failed(Rejected)
    else
      DecodeRatchetEnvelope(e, me.session.value, ps.Id(r.Peer()), ps.Id(r), ps.SigningKey(r.Peer()), newSecret)
  }

  /** One message goes out; nothing does when there is no chain to send on. */
  function Speak(ps: Parties, r: Role, me: Endpoint, plaintext: Bytes, nonce: Bytes): Endpoint {
    if me.session.None? then me
    else
      match DeriveNextSendingMessageKey(me.session.value)
      case NoSendingChain => me
      case Sending(messageKey, nextState, header) =>
        var e := EncodeRatchetEnvelope(header, messageKey, plaintext, nonce, ps.Id(r), ps.Id(r.Peer()),
                                       ps.SigningKey(r));
        Endpoint(Some(nextState), me.sent + [e], me.spoken + [plaintext], me.accepted)
  }

  /** The next state is stored and the plaintext shown on success; a failure changes nothing. */
  function Hear(me: Endpoint, result: DecodeResult): Endpoint {
    match result
    case Decoded(plaintext, nextState) => me.(session := Some(nextState), accepted := me.accepted + [plaintext])
    case Failed(_) => me
  }

  function Step(ps: Parties, w: World, ev: Event): World {
    match ev
    case Send(r, plaintext, nonce) => w.With(r, Speak(ps, r, w.At(r), plaintext, nonce))
    case Deliver(r, e) =>
      var result := Decode(ps, r, w.At(r), e, w.nextSecret);
      w.With(r, Hear(w.At(r), result)).(nextSecret := w.nextSecret + if result.Decoded? then 1 else 0)
  }

  /** The signer made this envelope for somebody else. */
  ghost predicate ForAnother(ps: Parties, r: Role, e: Envelope) {
    exists other: string ::
      && other != ps.Id(r) && |other| == |ps.Id(r)|
      && e.RatchetEnvelope? && e.body.aad == DirectionAad(ps.Id(r.Peer()), other)
  }

  /** What the environment may do. A party sends only within a session, the initiator's handshake
      envelope arrives once, and signatures are not forged: a handshake signed by the peer is that
      envelope, and a ratchet envelope signed by the peer is one the peer made, for this party or for
      another. Everything else may be dropped, reordered, replayed or invented, handshakes of other
      signers among it. */
  ghost predicate Allowed(ps: Parties, w: World, ev: Event) {
    match ev
    case Send(r, _, _) => w.At(r).session.Some?
    case Deliver(r, e) =>
      && (e.HandshakeEnvelope? && e.signer == ps.SigningKey(r.Peer()) ==>
            r == Responder && w.responder.session.None? && w.initiator.sent != [] && e == w.initiator.sent[0])
      && (e.RatchetEnvelope? && e.signer == ps.SigningKey(r.Peer()) ==>
            e in w.At(r.Peer()).sent || ForAnother(ps, r, e))
  }

  function Exec(ps: Parties, w: World, events: seq<Event>): World {
    if events == [] then w else Step(ps, Exec(ps, w, events[..|events| - 1]), events[|events| - 1])
  }

  ghost predicate AllAllowed(ps: Parties, w: World, events: seq<Event>) {
    events == [] ||
    (&& AllAllowed(ps, w, events[..|events| - 1])
     && Allowed(ps, Exec(ps, w, events[..|events| - 1]), events[|events| - 1]))
  }

  // ----- The ladder

  function Root(root0: Key, ladder: seq<Secret>, k: nat): Key
    requires k < |ladder|
  {
    if k == 0 then root0 else RootOf(Root(root0, ladder, k - 1), Agree(ladder[k - 1], PublicKey(ladder[k])))
  }

  function ChainAt(root0: Key, ladder: seq<Secret>, k: nat, n: nat): Key
    requires 1 <= k < |ladder|
  {
    if n == 0 then ChainOf(Root(root0, ladder, k - 1), Agree(ladder[k - 1], PublicKey(ladder[k])))
    else NextChain(ChainAt(root0, ladder, k, n - 1))
  }

  lemma {:induction false} RootDepth(root0: Key, ladder: seq<Secret>, k: nat)
    requires k < |ladder|
    ensures Root(root0, ladder, k).Depth() == root0.Depth() + k
  {
    if k > 0 { RootDepth(root0, ladder, k - 1); }
  }

  lemma {:induction false} ChainRank(root0: Key, ladder: seq<Secret>, k: nat, n: nat)
    requires 1 <= k < |ladder|
    ensures ChainAt(root0, ladder, k, n).Depth() == root0.Depth() + k - 1
    ensures ChainAt(root0, ladder, k, n).Links() == n
  {
    if n == 0 { RootDepth(root0, ladder, k - 1); } else { ChainRank(root0, ladder, k, n - 1); }
  }

  lemma {:induction false} RootGrows(root0: Key, ladder: seq<Secret>, rung: Secret, k: nat)
    requires k < |ladder|
    ensures Root(root0, ladder + [rung], k) == Root(root0, ladder, k)
  {
    if k > 0 { RootGrows(root0, ladder, rung, k - 1); }
  }

  lemma {:induction false} ChainGrows(root0: Key, ladder: seq<Secret>, rung: Secret, k: nat, n: nat)
    requires 1 <= k < |ladder|
    ensures ChainAt(root0, ladder + [rung], k, n) == ChainAt(root0, ladder, k, n)
  {
    if n == 0 { RootGrows(root0, ladder, rung, k - 1); } else { ChainGrows(root0, ladder, rung, k, n - 1); }
  }

  // ----- The invariant

  /** Chain and number under which a message was sealed. */
  datatype Stamp = Stamp(chain: nat, number: nat)

  /** One party's rung, the stamps of what it sent, and which of the peer's messages it took. */
  datatype Track = Track(rung: nat, stamps: seq<Stamp>, taken: seq<nat>)

  datatype Story = Story(ladder: seq<Secret>, initiator: Track, responder: Track) {
    function At(r: Role): Track { if r == Initiator then initiator else responder }
    function With(r: Role, t: Track): Story {
      if r == Initiator then this.(initiator := t) else this.(responder := t)
    }
  }

  ghost predicate Follows(a: Stamp, b: Stamp) {
    b == Stamp(a.chain, a.number + 1) || b == Stamp(a.chain + 2, 0)
  }

  ghost predicate Before(a: Stamp, b: Stamp) {
    a.chain < b.chain || (a.chain == b.chain && a.number < b.number)
  }

  /** The session state that belongs to rung `t.rung`. */
  ghost predicate Holds(root0: Key, ladder: seq<Secret>, t: Track, s: RatchetState) {
    && 1 <= t.rung < |ladder|
    && s.rootKey == Root(root0, ladder, t.rung)
    && s.dhsSecretKey == ladder[t.rung]
    && s.dhsPublicKey == PublicKey(ladder[t.rung])
    && s.sendingChainKey == Some(ChainAt(root0, ladder, t.rung, s.sendMessageNumber))
    && if t.taken == [] then
         t.rung == 1 && s.dhrPublicKey == None && s.receivingChainKey == None && s.receiveMessageNumber == 0
       else
         && t.rung >= 2 && s.receiveMessageNumber >= 1
         && s.dhrPublicKey == Some(PublicKey(ladder[t.rung - 1]))
         && s.receivingChainKey == Some(ChainAt(root0, ladder, t.rung - 1, s.receiveMessageNumber))
  }

  /** Envelope `e` of sender `r` was sealed at `stamp`. */
  ghost predicate SealedAt(ps: Parties, ladder: seq<Secret>, r: Role, e: Envelope, stamp: Stamp) {
    && 1 <= stamp.chain < |ladder|
    && (e.HandshakeEnvelope? || e.RatchetEnvelope?)
    && e.signer == ps.SigningKey(r)
    && e.body.key == MessageKey(ChainAt(ps.Root0(), ladder, stamp.chain, stamp.number))
    && e.body.nonce == e.nonce
    && e.body.aad == ps.Aad(r)
    && e.number == Wire32(stamp.number)
    && (e.RatchetEnvelope? ==> e.dhPublicKey == PublicKey(ladder[stamp.chain]))
    && (e.HandshakeEnvelope? ==>
          && r == Initiator && stamp == Stamp(1, 0) && e.ea == PublicKey(ladder[1])
          && e.kyberCiphertext == KemCiphertext(ps.kyberSecret, ps.kemSeed))
  }

  ghost predicate SendsInOrder(r: Role, stamps: seq<Stamp>) {
    && (stamps != [] ==> stamps[0] == Stamp(r.First(), 0))
    && (forall i, j :: 0 <= i && j == i + 1 && j < |stamps| ==> Follows(stamps[i], stamps[j]))
  }

  /** The header's PN field is the length of the sender's previous chain. */
  ghost predicate AnnouncesPrevious(e: Envelope, before: Stamp, stamp: Stamp) {
    e.RatchetEnvelope? && stamp.chain == before.chain + 2 ==> e.previous == Wire32(before.number + 1)
  }

  ghost predicate SendsWell(ps: Parties, ladder: seq<Secret>, r: Role, me: Endpoint, t: Track) {
    && |me.sent| == |me.spoken| == |t.stamps|
    && SendsInOrder(r, t.stamps)
    && (forall i :: 0 <= i < |me.sent| ==> SealedAt(ps, ladder, r, me.sent[i], t.stamps[i]))
    && (forall i :: 0 <= i < |me.sent| ==> me.sent[i].body.plaintext == me.spoken[i])
    && (forall i :: 0 <= i < |me.sent| ==> (me.sent[i].HandshakeEnvelope? <==> i == 0 && r == Initiator))
    && (forall i, j :: 0 <= i && j == i + 1 && j < |me.sent| ==> AnnouncesPrevious(me.sent[j], t.stamps[i], t.stamps[j]))
  }

  /** Where the next message will go, given what has been sent. */
  ghost predicate SendCursor(r: Role, t: Track, s: RatchetState) {
    if t.stamps == [] then t.rung == r.First() && s.sendMessageNumber == 0
    else
      var last := t.stamps[|t.stamps| - 1];
      || (s.sendMessageNumber > 0 && last == Stamp(t.rung, s.sendMessageNumber - 1))
      || (s.sendMessageNumber == 0 && last.chain + 2 == t.rung && s.previousSendingChainLength == last.number + 1)
  }

  ghost predicate TakesWell(me: Endpoint, peer: Endpoint, t: Track, peerStamps: seq<Stamp>) {
    && |me.accepted| == |t.taken| && |peer.spoken| == |peerStamps|
    && (forall j :: 0 <= j < |t.taken| ==> t.taken[j] < |peer.spoken| && me.accepted[j] == peer.spoken[t.taken[j]])
    && (forall i, j :: 0 <= i < j < |t.taken| ==> t.taken[i] < t.taken[j])
    && (t.taken != [] && me.session.Some? ==>
          && t.rung >= 1 && me.session.value.receiveMessageNumber >= 1
          && peerStamps[t.taken[|t.taken| - 1]] == Stamp(t.rung - 1, me.session.value.receiveMessageNumber - 1))
  }

  ghost predicate Distinct(ladder: seq<Secret>) {
    forall i, j :: 0 <= i < j < |ladder| ==> ladder[i] != ladder[j]
  }

  ghost predicate LadderOk(ps: Parties, ladder: seq<Secret>, nextSecret: Secret) {
    && |ladder| >= 2
    && ladder[0] == ps.staticSecret && ladder[1] == ps.Ephemeral()
    && (forall i :: 0 <= i < |ladder| ==> ladder[i] < nextSecret)
    && Distinct(ladder)
  }

  /** The two parties stand on the two topmost rungs. */
  ghost predicate RungsOk(ladder: seq<Secret>, r: Role, rung: nat, peerRung: nat) {
    && (rung % 2 == 1 <==> r == Initiator)
    && (peerRung % 2 == 1 <==> r != Initiator)
    && (|ladder| == rung + 1 == peerRung + 2 || |ladder| == peerRung + 1 == rung + 2)
  }

  ghost predicate SessionOk(root0: Key, ladder: seq<Secret>, r: Role, me: Endpoint, t: Track) {
    if me.session.Some? then
      && Holds(root0, ladder, t, me.session.value)
      && SendCursor(r, t, me.session.value)
      && (t.taken == [] <==> t.rung == 1)
    else
      r == Responder && t == Track(0, [], [])
  }

  ghost predicate PartyOk(ps: Parties, ladder: seq<Secret>, r: Role, me: Endpoint, t: Track) {
    SendsWell(ps, ladder, r, me, t) && SessionOk(ps.Root0(), ladder, r, me, t)
  }

  /** What holds between one party and its peer, seen from the one. */
  ghost predicate PairOk(ps: Parties, ladder: seq<Secret>, r: Role, me: Endpoint, t: Track, peer: Endpoint, pt: Track) {
    && RungsOk(ladder, r, t.rung, pt.rung)
    && PartyOk(ps, ladder, r, me, t)
    && PartyOk(ps, ladder, r.Peer(), peer, pt)
    && TakesWell(me, peer, t, pt.stamps)
    && TakesWell(peer, me, pt, t.stamps)
    && (r == Initiator ==> me.sent != [])
    && (r == Responder ==> peer.sent != [])
    && (peer.session.None? ==> t.taken == [])
    && (me.session.None? ==> pt.taken == [])
  }

  ghost predicate Inv(ps: Parties, w: World, h: Story) {
    && LadderOk(ps, h.ladder, w.nextSecret)
    && PairOk(ps, h.ladder, Initiator, w.initiator, h.initiator, w.responder, h.responder)
  }

  /** The invariant read from either side. */
  lemma Sides(ps: Parties, w: World, h: Story, r: Role)
    ensures Inv(ps, w, h) <==>
            && LadderOk(ps, h.ladder, w.nextSecret)
            && PairOk(ps, h.ladder, r, w.At(r), h.At(r), w.At(r.Peer()), h.At(r.Peer()))
  {
    assert r.Peer().Peer() == r;
  }

  function FirstStory(ps: Parties): Story {
    Story([ps.staticSecret, ps.Ephemeral()], Track(1, [Stamp(1, 0)], []), Track(0, [], []))
  }

  lemma StartInv(ps: Parties, plaintext: Bytes, nonce: Bytes)
    ensures Inv(ps, Start(ps, plaintext, nonce), FirstStory(ps))
  {
    var ladder := FirstStory(ps).ladder;
    var root0 := ps.Root0();
    assert Root(root0, ladder, 0) == root0;
    assert Root(root0, ladder, 1) == RootOf(root0, Agree(ladder[0], PublicKey(ladder[1])));
    assert ChainAt(root0, ladder, 1, 0) == ChainOf(root0, Agree(ladder[0], PublicKey(ladder[1])));
    assert ChainAt(root0, ladder, 1, 1) == NextChain(ChainAt(root0, ladder, 1, 0));
  }

  // ----- Order of stamps

  lemma {:induction false} StampsIncrease(r: Role, stamps: seq<Stamp>, i: nat, j: nat)
    requires SendsInOrder(r, stamps) && i < j < |stamps|
    ensures Before(stamps[i], stamps[j])
    decreases j
  {
    assert Follows(stamps[j - 1], stamps[j]);
    if i < j - 1 { StampsIncrease(r, stamps, i, j - 1); }
  }

  lemma {:induction false} StampParity(r: Role, stamps: seq<Stamp>, i: nat)
    requires SendsInOrder(r, stamps) && i < |stamps|
    ensures (stamps[i].chain % 2 == 1 <==> r == Initiator) && stamps[i].chain >= r.First()
  {
    if i > 0 {
      assert Follows(stamps[i - 1], stamps[i]);
      StampParity(r, stamps, i - 1);
    }
  }

  lemma StampAtMostRung(root0: Key, ladder: seq<Secret>, r: Role, me: Endpoint, t: Track, i: nat)
    requires SessionOk(root0, ladder, r, me, t) && SendsInOrder(r, t.stamps) && i < |t.stamps|
    ensures t.stamps[i].chain <= t.rung
  {
    if i < |t.stamps| - 1 { StampsIncrease(r, t.stamps, i, |t.stamps| - 1); }
  }

  // ----- Sending

  lemma SpeakInOrder(r: Role, t: Track, s: RatchetState)
    requires SendsInOrder(r, t.stamps) && SendCursor(r, t, s)
    ensures SendsInOrder(r, t.stamps + [Stamp(t.rung, s.sendMessageNumber)])
  {
  }

  /** The log of one party, one well-sealed envelope longer. */
  lemma LogGrows(ps: Parties, ladder: seq<Secret>, r: Role, me: Endpoint, t: Track, me': Endpoint, e: Envelope, stamp: Stamp)
    requires SendsWell(ps, ladder, r, me, t) && (r == Initiator ==> me.sent != [])
    requires SendsInOrder(r, t.stamps + [stamp]) && SealedAt(ps, ladder, r, e, stamp) && e.RatchetEnvelope?
    requires t.stamps != [] ==> AnnouncesPrevious(e, t.stamps[|t.stamps| - 1], stamp)
    requires me'.sent == me.sent + [e] && me'.spoken == me.spoken + [e.body.plaintext]
    ensures SendsWell(ps, ladder, r, me', t.(stamps := t.stamps + [stamp]))
  {
    hide SealedAt, SendsInOrder, AnnouncesPrevious;
    var t' := t.(stamps := t.stamps + [stamp]);
    forall i | 0 <= i < |me'.sent| ensures SealedAt(ps, ladder, r, me'.sent[i], t'.stamps[i]) {
      if i < |me.sent| { assert SealedAt(ps, ladder, r, me.sent[i], t.stamps[i]); }
    }
  }

  /** What one send does to an endpoint that has a session. */
  lemma SpeakSealed(ps: Parties, ladder: seq<Secret>, r: Role, me: Endpoint, t: Track, plaintext: Bytes, nonce: Bytes)
    returns (e: Envelope)
    requires SessionOk(ps.Root0(), ladder, r, me, t) && me.session.Some?
    ensures DeriveNextSendingMessageKey(me.session.value).Sending?
    ensures var s := me.session.value;
            && Speak(ps, r, me, plaintext, nonce) ==
               Endpoint(Some(DeriveNextSendingMessageKey(s).nextState), me.sent + [e], me.spoken + [plaintext], me.accepted)
            && SealedAt(ps, ladder, r, e, Stamp(t.rung, s.sendMessageNumber))
            && e.RatchetEnvelope? && e.body.plaintext == plaintext && e.previous == Wire32(s.previousSendingChainLength)
            && SessionOk(ps.Root0(), ladder, r, Speak(ps, r, me, plaintext, nonce),
                         t.(stamps := t.stamps + [Stamp(t.rung, s.sendMessageNumber)]))
  {
    var me' := Speak(ps, r, me, plaintext, nonce);
    e := me'.sent[|me.sent|];
  }

  /** Sending never hits the missing-chain error, and extends the sender's log by the next stamp. */
  lemma SpeakOk(ps: Parties, ladder: seq<Secret>, r: Role, me: Endpoint, t: Track, plaintext: Bytes, nonce: Bytes)
    returns (t': Track)
    requires PartyOk(ps, ladder, r, me, t) && me.session.Some?
    requires r == Initiator ==> me.sent != []
    ensures DeriveNextSendingMessageKey(me.session.value).Sending?
    ensures PartyOk(ps, ladder, r, Speak(ps, r, me, plaintext, nonce), t')
    ensures t' == t.(stamps := t.stamps + [Stamp(t.rung, me.session.value.sendMessageNumber)])
  {
    hide SealedAt, Holds, Speak, SendsInOrder;
    var s, me' := me.session.value, Speak(ps, r, me, plaintext, nonce);
    var stamp := Stamp(t.rung, s.sendMessageNumber);
    t' := t.(stamps := t.stamps + [stamp]);
    var e := SpeakSealed(ps, ladder, r, me, t, plaintext, nonce);
    SpeakInOrder(r, t, s);
    LogGrows(ps, ladder, r, me, t, me', e, stamp);
  }

  lemma TakesWellAfterSend(me: Endpoint, peer: Endpoint, t: Track, peerStamps: seq<Stamp>,
                           peer': Endpoint, stamp: Stamp, plaintext: Bytes)
    requires TakesWell(me, peer, t, peerStamps)
    requires peer'.spoken == peer.spoken + [plaintext]
    ensures TakesWell(me, peer', t, peerStamps + [stamp])
  {
  }

  /** What a party took does not change when it sends. */
  lemma TakesWellKept(me: Endpoint, peer: Endpoint, t: Track, peerStamps: seq<Stamp>, me': Endpoint, t': Track)
    requires TakesWell(me, peer, t, peerStamps)
    requires me'.accepted == me.accepted && t'.taken == t.taken && t'.rung == t.rung
    requires me.session.Some? && me'.session.Some?
    requires me'.session.value.receiveMessageNumber == me.session.value.receiveMessageNumber
    ensures TakesWell(me', peer, t', peerStamps)
  {
  }

  lemma SpeakPair(ps: Parties, ladder: seq<Secret>, r: Role, me: Endpoint, t: Track, peer: Endpoint, pt: Track,
                  plaintext: Bytes, nonce: Bytes) returns (t': Track)
    requires PairOk(ps, ladder, r, me, t, peer, pt) && me.session.Some?
    ensures DeriveNextSendingMessageKey(me.session.value).Sending?
    ensures PairOk(ps, ladder, r, Speak(ps, r, me, plaintext, nonce), t', peer, pt)
    ensures t' == t.(stamps := t.stamps + [Stamp(t.rung, me.session.value.sendMessageNumber)])
  {
    var me' := Speak(ps, r, me, plaintext, nonce);
    t' := SpeakOk(ps, ladder, r, me, t, plaintext, nonce);
    var stamp := Stamp(t.rung, me.session.value.sendMessageNumber);
    TakesWellAfterSend(peer, me, pt, t.stamps, me', stamp, plaintext);
    TakesWellKept(me, peer, t, pt.stamps, me', t');
  }

  lemma SendInv(ps: Parties, w: World, h: Story, r: Role, plaintext: Bytes, nonce: Bytes) returns (h': Story)
    requires Inv(ps, w, h) && w.At(r).session.Some?
    ensures DeriveNextSendingMessageKey(w.At(r).session.value).Sending?
    ensures Inv(ps, Step(ps, w, Send(r, plaintext, nonce)), h')
    ensures h'.At(r.Peer()) == h.At(r.Peer()) && h'.At(r).taken == h.At(r).taken
    ensures h'.At(r).stamps == h.At(r).stamps + [Stamp(h.At(r).rung, w.At(r).session.value.sendMessageNumber)]
  {
    Sides(ps, w, h, r);
    var p := r.Peer();
    var t' := SpeakPair(ps, h.ladder, r, w.At(r), h.At(r), w.At(p), h.At(p), plaintext, nonce);
    h' := h.With(r, t');
    Sides(ps, Step(ps, w, Send(r, plaintext, nonce)), h', r);
  }

  // ----- Receiving

  /** An envelope of the peer's reaches the derivation: version, signature and AAD are right. */
  lemma PeerEnvelopeReachesDerivation(ps: Parties, ladder: seq<Secret>, r: Role, me: Endpoint, e: Envelope,
                                      stamp: Stamp, newSecret: Secret)
    requires me.session.Some? && e.RatchetEnvelope? && SealedAt(ps, ladder, r.Peer(), e, stamp)
    ensures var received := DeriveNextReceivingMessageKey(me.session.value, PublicKey(ladder[stamp.chain]),
                                                          Wire32(stamp.number), newSecret);
            Decode(ps, r, me, e, newSecret) ==
            if received.Receiving? && received.messageKey == MessageKey(ChainAt(ps.Root0(), ladder, stamp.chain, stamp.number))
            then Decoded(e.body.plaintext, received.nextState)
            else Failed(if received.Receiving? then AeadFailure else Rejected)
  {
    assert r.Peer().Peer() == r;
  }

  /** Exactly which of the peer's ratchet envelopes a party accepts: the next number of the chain it
      is receiving on, or number 0 of the peer's next chain. Old chains, gaps and repeats fail. */
  lemma AcceptsExactly(ps: Parties, ladder: seq<Secret>, r: Role, me: Endpoint, t: Track, e: Envelope,
                       stamp: Stamp, newSecret: Secret)
    requires me.session.Some? && e.RatchetEnvelope? && SealedAt(ps, ladder, r.Peer(), e, stamp)
    requires Holds(ps.Root0(), ladder, t, me.session.value) && Distinct(ladder)
    requires stamp.chain <= t.rung + 1 && stamp.chain != t.rung
    ensures Decode(ps, r, me, e, newSecret).Decoded? <==>
              || (stamp == Stamp(t.rung - 1, me.session.value.receiveMessageNumber) && stamp.number < 0x1_0000_0000)
              || stamp == Stamp(t.rung + 1, 0)
  {
    var s, root0 := me.session.value, ps.Root0();
    PeerEnvelopeReachesDerivation(ps, ladder, r, me, e, stamp, newSecret);
    RootDepth(root0, ladder, t.rung);
    ChainRank(root0, ladder, stamp.chain, stamp.number);
    if stamp.chain == t.rung - 1 {
      ChainRank(root0, ladder, t.rung - 1, s.receiveMessageNumber);
    } else {
      assert s.dhrPublicKey != Some(e.dhPublicKey);
      if stamp == Stamp(t.rung + 1, 0) {
        assert Root(root0, ladder, t.rung) == s.rootKey;
        assert ChainAt(root0, ladder, t.rung + 1, 0) == ChainOf(s.rootKey, Agree(s.dhsSecretKey, e.dhPublicKey));
      }
    }
  }

  /** The rung below the peer's was used: the peer climbed because it took a message from it. */
  lemma PeerAheadMeansSent(root0: Key, ladder: seq<Secret>, r: Role, me: Endpoint, t: Track, peer: Endpoint, pt: Track)
    requires SessionOk(root0, ladder, r, me, t) && SendsInOrder(r, t.stamps) && TakesWell(peer, me, pt, t.stamps)
    requires me.session.Some? && peer.session.Some? && pt.taken != [] && pt.rung == t.rung + 1
    ensures me.session.value.sendMessageNumber > 0 && t.stamps != []
  {
    var i := pt.taken[|pt.taken| - 1];
    assert t.stamps[i].chain == t.rung;
    if i < |t.stamps| - 1 { StampsIncrease(r, t.stamps, i, |t.stamps| - 1); }
  }

  lemma AheadHasTaken(ps: Parties, ladder: seq<Secret>, r: Role, me: Endpoint, t: Track, peer: Endpoint, pt: Track)
    requires PairOk(ps, ladder, r, me, t, peer, pt) && me.session.Some? && pt.rung == t.rung + 1
    ensures peer.session.Some? && pt.taken != [] && t.rung >= 1
  {
  }

  /** Entry i of the peer's log, and what is known about it. */
  lemma PeerEntry(ps: Parties, ladder: seq<Secret>, r: Role, me: Endpoint, t: Track, peer: Endpoint, pt: Track, i: nat)
    requires PairOk(ps, ladder, r, me, t, peer, pt) && i < |peer.sent|
    ensures |peer.sent| == |peer.spoken| == |pt.stamps|
    ensures SealedAt(ps, ladder, r.Peer(), peer.sent[i], pt.stamps[i])
    ensures SendsInOrder(r.Peer(), pt.stamps) && SendsInOrder(r, t.stamps)
    ensures peer.spoken[i] == peer.sent[i].body.plaintext
  {
  }

  /** The message just accepted lies beyond every message accepted before. */
  lemma TakesLater(r: Role, me: Endpoint, peer: Endpoint, t: Track, peerStamps: seq<Stamp>, i: nat)
    requires TakesWell(me, peer, t, peerStamps) && SendsInOrder(r.Peer(), peerStamps)
    requires me.session.Some? && i < |peerStamps| && t.rung >= 1
    requires peerStamps[i] == Stamp(t.rung - 1, me.session.value.receiveMessageNumber) || peerStamps[i].chain == t.rung + 1
    ensures forall j :: 0 <= j < |t.taken| ==> t.taken[j] < i
  {
    if t.taken != [] {
      var last := t.taken[|t.taken| - 1];
      if i < last { StampsIncrease(r.Peer(), peerStamps, i, last); }
      assert last < i;
    }
  }

  lemma TakesOneMore(me: Endpoint, peer: Endpoint, t: Track, peerStamps: seq<Stamp>, i: nat, me': Endpoint, t': Track)
    requires TakesWell(me, peer, t, peerStamps) && i < |peerStamps|
    requires forall j :: 0 <= j < |t.taken| ==> t.taken[j] < i
    requires me'.accepted == me.accepted + [peer.spoken[i]] && t'.taken == t.taken + [i] && me'.session.Some?
    requires t'.rung >= 1 && me'.session.value.receiveMessageNumber >= 1
    requires peerStamps[i] == Stamp(t'.rung - 1, me'.session.value.receiveMessageNumber - 1)
    ensures TakesWell(me', peer, t', peerStamps)
  {
  }

  /** Nothing the peer relies on changes when this party takes a message. */
  lemma PeerUnaffected(me: Endpoint, peer: Endpoint, pt: Track, stamps: seq<Stamp>, me': Endpoint)
    requires TakesWell(peer, me, pt, stamps) && me'.spoken == me.spoken
    ensures TakesWell(peer, me', pt, stamps)
  {
  }

  lemma LogKept(ps: Parties, ladder: seq<Secret>, r: Role, me: Endpoint, t: Track, me': Endpoint, t': Track)
    requires SendsWell(ps, ladder, r, me, t)
    requires me'.sent == me.sent && me'.spoken == me.spoken && t'.stamps == t.stamps
    ensures SendsWell(ps, ladder, r, me', t')
  {
  }

  /** A larger ladder changes no earlier key, so everything said about the old one still holds. */
  lemma LogOnLargerLadder(ps: Parties, ladder: seq<Secret>, rung: Secret, r: Role, me: Endpoint, t: Track)
    requires SendsWell(ps, ladder, r, me, t)
    ensures SendsWell(ps, ladder + [rung], r, me, t)
  {
    forall i | 0 <= i < |me.sent| ensures SealedAt(ps, ladder + [rung], r, me.sent[i], t.stamps[i]) {
      assert SealedAt(ps, ladder, r, me.sent[i], t.stamps[i]);
      ChainGrows(ps.Root0(), ladder, rung, t.stamps[i].chain, t.stamps[i].number);
    }
  }

  lemma SessionOnLargerLadder(root0: Key, ladder: seq<Secret>, rung: Secret, r: Role, me: Endpoint, t: Track)
    requires SessionOk(root0, ladder, r, me, t)
    ensures SessionOk(root0, ladder + [rung], r, me, t)
  {
    if me.session.Some? {
      var s := me.session.value;
      RootGrows(root0, ladder, rung, t.rung);
      ChainGrows(root0, ladder, rung, t.rung, s.sendMessageNumber);
      if t.taken != [] { ChainGrows(root0, ladder, rung, t.rung - 1, s.receiveMessageNumber); }
    }
  }

  /** `me'` is `me` with one more plaintext shown and a new session. */
  ghost predicate Took(me: Endpoint, me': Endpoint, plaintext: Bytes, next: RatchetState) {
    me' == Endpoint(Some(next), me.sent, me.spoken, me.accepted + [plaintext])
  }

  lemma NextSession(ps: Parties, ladder: seq<Secret>, r: Role, me: Endpoint, t: Track, e: Envelope, stamp: Stamp,
                    newSecret: Secret, t': Track) returns (me': Endpoint)
    requires SessionOk(ps.Root0(), ladder, r, me, t) && me.session.Some? && t.taken != []
    requires e.RatchetEnvelope? && SealedAt(ps, ladder, r.Peer(), e, stamp)
    requires stamp == Stamp(t.rung - 1, me.session.value.receiveMessageNumber)
    requires Decode(ps, r, me, e, newSecret).Decoded?
    requires t'.rung == t.rung && t'.stamps == t.stamps && t'.taken != []
    ensures me' == Hear(me, Decode(ps, r, me, e, newSecret))
    ensures me'.session.Some? && Took(me, me', e.body.plaintext, me'.session.value)
    ensures me'.session.value.receiveMessageNumber == stamp.number + 1
    ensures SessionOk(ps.Root0(), ladder, r, me', t')
  {
    var s := me.session.value;
    PeerEnvelopeReachesDerivation(ps, ladder, r, me, e, stamp, newSecret);
    me' := Hear(me, Decode(ps, r, me, e, newSecret));
    assert ChainAt(ps.Root0(), ladder, t.rung - 1, s.receiveMessageNumber + 1)
        == NextChain(ChainAt(ps.Root0(), ladder, t.rung - 1, s.receiveMessageNumber));
    assert me'.session.value == s.(receivingChainKey := me'.session.value.receivingChainKey,
                                   receiveMessageNumber := s.receiveMessageNumber + 1);
  }

  lemma AcceptNext(ps: Parties, ladder: seq<Secret>, r: Role, me: Endpoint, t: Track, peer: Endpoint, pt: Track,
                   i: nat, newSecret: Secret) returns (t': Track)
    requires PairOk(ps, ladder, r, me, t, peer, pt) && me.session.Some? && t.taken != []
    requires i < |peer.sent| && peer.sent[i].RatchetEnvelope?
    requires pt.stamps[i] == Stamp(t.rung - 1, me.session.value.receiveMessageNumber)
    requires Decode(ps, r, me, peer.sent[i], newSecret).Decoded?
    ensures t' == t.(taken := t.taken + [i])
    ensures PairOk(ps, ladder, r, Hear(me, Decode(ps, r, me, peer.sent[i], newSecret)), t', peer, pt)
  {
    hide SendsWell, SendsInOrder, TakesWell, SessionOk, Decode, Hear, SealedAt, Holds;
    var e := peer.sent[i];
    PeerEntry(ps, ladder, r, me, t, peer, pt, i);
    t' := t.(taken := t.taken + [i]);
    var me' := NextSession(ps, ladder, r, me, t, e, pt.stamps[i], newSecret, t');
    TakesLater(r, me, peer, t, pt.stamps, i);
    TakesOneMore(me, peer, t, pt.stamps, i, me', t');
    PeerUnaffected(me, peer, pt, t.stamps, me');
    LogKept(ps, ladder, r, me, t, me', t');
  }

  /** One DH ratchet step moves a party two rungs up, onto the keys the peer will derive. */
  lemma RatchetHolds(root0: Key, ladder: seq<Secret>, rung: Secret, t: Track, t': Track, s: RatchetState)
    requires Holds(root0, ladder, t, s) && |ladder| == t.rung + 2
    requires t'.rung == t.rung + 2 && t'.taken != [] && s.dhrPublicKey != Some(PublicKey(ladder[t.rung + 1]))
    ensures var next := DeriveNextReceivingMessageKey(s, PublicKey(ladder[t.rung + 1]), 0, rung).nextState;
            Holds(root0, ladder + [rung], t', next)
  {
    var k, up, peer := t.rung, ladder + [rung], PublicKey(ladder[t.rung + 1]);
    RootGrows(root0, ladder, rung, k);
    assert Root(root0, up, k + 1) == RootOf(s.rootKey, Agree(s.dhsSecretKey, peer));
    assert Root(root0, up, k + 2) == RootOf(Root(root0, up, k + 1), Agree(ladder[k + 1], PublicKey(rung)));
    assert ChainAt(root0, up, k + 1, 0) == ChainOf(s.rootKey, Agree(s.dhsSecretKey, peer));
    assert ChainAt(root0, up, k + 1, 1) == NextChain(ChainAt(root0, up, k + 1, 0));
    assert ChainAt(root0, up, k + 2, 0) == ChainOf(Root(root0, up, k + 1), Agree(ladder[k + 1], PublicKey(rung)));
  }

  lemma RatchetSession(ps: Parties, ladder: seq<Secret>, r: Role, me: Endpoint, t: Track, e: Envelope, rung: Secret,
                       t': Track) returns (me': Endpoint)
    requires SessionOk(ps.Root0(), ladder, r, me, t) && me.session.Some? && Distinct(ladder)
    requires me.session.value.sendMessageNumber > 0 && t.stamps != []
    requires |ladder| == t.rung + 2
    requires e.RatchetEnvelope? && SealedAt(ps, ladder, r.Peer(), e, Stamp(t.rung + 1, 0))
    requires Decode(ps, r, me, e, rung).Decoded?
    requires t'.rung == t.rung + 2 && t'.stamps == t.stamps && t'.taken != []
    ensures me' == Hear(me, Decode(ps, r, me, e, rung))
    ensures me'.session.Some? && Took(me, me', e.body.plaintext, me'.session.value)
    ensures me'.session.value.receiveMessageNumber == 1
    ensures SessionOk(ps.Root0(), ladder + [rung], r, me', t')
  {
    var s := me.session.value;
    PeerEnvelopeReachesDerivation(ps, ladder, r, me, e, Stamp(t.rung + 1, 0), rung);
    me' := Hear(me, Decode(ps, r, me, e, rung));
    assert s.dhrPublicKey != Some(PublicKey(ladder[t.rung + 1]));
    RatchetHolds(ps.Root0(), ladder, rung, t, t', s);
    assert SendCursor(r, t', me'.session.value);
  }

  lemma AcceptRatchet(ps: Parties, ladder: seq<Secret>, r: Role, me: Endpoint, t: Track, peer: Endpoint, pt: Track,
                      i: nat, rung: Secret) returns (t': Track)
    requires PairOk(ps, ladder, r, me, t, peer, pt) && me.session.Some? && Distinct(ladder)
    requires i < |peer.sent| && peer.sent[i].RatchetEnvelope?
    requires pt.stamps[i] == Stamp(t.rung + 1, 0) && pt.rung == t.rung + 1
    requires Decode(ps, r, me, peer.sent[i], rung).Decoded?
    ensures t' == t.(rung := t.rung + 2, taken := t.taken + [i])
    ensures PairOk(ps, ladder + [rung], r, Hear(me, Decode(ps, r, me, peer.sent[i], rung)), t', peer, pt)
  {
    hide SendsWell, SendsInOrder, TakesWell, SessionOk, Decode, Hear, SealedAt, Holds;
    var e := peer.sent[i];
    PeerEntry(ps, ladder, r, me, t, peer, pt, i);
    t' := t.(rung := t.rung + 2, taken := t.taken + [i]);
    AheadHasTaken(ps, ladder, r, me, t, peer, pt);
    PeerAheadMeansSent(ps.Root0(), ladder, r, me, t, peer, pt);
    var me' := RatchetSession(ps, ladder, r, me, t, e, rung, t');
    TakesLater(r, me, peer, t, pt.stamps, i);
    TakesOneMore(me, peer, t, pt.stamps, i, me', t');
    PeerUnaffected(me, peer, pt, t.stamps, me');
    LogKept(ps, ladder, r, me, t, me', t');
    PartyOnLargerLadder(ps, ladder, rung, r.Peer(), peer, pt);
    LogOnLargerLadder(ps, ladder, rung, r, me', t');
  }

  lemma PartyOnLargerLadder(ps: Parties, ladder: seq<Secret>, rung: Secret, r: Role, me: Endpoint, t: Track)
    requires PartyOk(ps, ladder, r, me, t)
    ensures PartyOk(ps, ladder + [rung], r, me, t)
  {
    LogOnLargerLadder(ps, ladder, rung, r, me, t);
    SessionOnLargerLadder(ps.Root0(), ladder, rung, r, me, t);
  }

  /** The responder derives from the handshake envelope what the initiator derived to make it. */
  lemma HandshakeAgrees(ps: Parties, ladder: seq<Secret>, me: Endpoint, e: Envelope, rung: Secret, t': Track)
    requires |ladder| == 2 && ladder[0] == ps.staticSecret && ladder[1] == ps.Ephemeral()
    requires e.HandshakeEnvelope? && SealedAt(ps, ladder, Initiator, e, Stamp(1, 0))
    requires t'.rung == 2 && t'.taken != []
    ensures var result := Decode(ps, Responder, me, e, rung);
            && result.Decoded? && result.plaintext == e.body.plaintext
            && Holds(ps.Root0(), ladder + [rung], t', result.nextState)
            && result.nextState.sendMessageNumber == 0 && result.nextState.receiveMessageNumber == 1
  {
    var root0, up, ea := ps.Root0(), ladder + [rung], PublicKey(ladder[1]);
    RootKeyInfoIsSymmetric(ps.initiatorId, ps.responderId);
    assert Agree(ps.staticSecret, ea) == Agree(ladder[1], PublicKey(ladder[0])) == Agree(ladder[0], ea);
    assert Root(root0, up, 0) == Root(root0, ladder, 0) == root0;
    assert Root(root0, up, 1) == RootOf(root0, Agree(ladder[0], ea));
    assert Root(root0, up, 2) == RootOf(Root(root0, up, 1), Agree(ladder[1], PublicKey(rung)));
    assert ChainAt(root0, ladder, 1, 0) == ChainAt(root0, up, 1, 0) == ChainOf(root0, Agree(ladder[0], ea));
    assert ChainAt(root0, up, 1, 1) == NextChain(ChainAt(root0, up, 1, 0));
    assert ChainAt(root0, up, 2, 0) == ChainOf(Root(root0, up, 1), Agree(ladder[1], PublicKey(rung)));
  }

  lemma AcceptHandshake(ps: Parties, ladder: seq<Secret>, me: Endpoint, t: Track, peer: Endpoint, pt: Track, rung: Secret)
    returns (t': Track)
    requires PairOk(ps, ladder, Responder, me, t, peer, pt) && me.session.None?
    requires |ladder| >= 2 && ladder[0] == ps.staticSecret && ladder[1] == ps.Ephemeral()
    ensures t' == Track(2, [], [0])
    ensures Decode(ps, Responder, me, peer.sent[0], rung).Decoded?
    ensures PairOk(ps, ladder + [rung], Responder, Hear(me, Decode(ps, Responder, me, peer.sent[0], rung)), t', peer, pt)
  {
    PeerEntry(ps, ladder, Responder, me, t, peer, pt, 0);
    var e := peer.sent[0];
    assert e.HandshakeEnvelope? && pt.stamps[0] == Stamp(1, 0);
    hide SendsWell, SendsInOrder, TakesWell, Decode, Hear, SealedAt, Holds;
    t' := Track(2, [], [0]);
    HandshakeAgrees(ps, ladder, me, e, rung, t');
    var me' := Hear(me, Decode(ps, Responder, me, e, rung));
    assert SessionOk(ps.Root0(), ladder + [rung], Responder, me', t');
    TakesOneMore(me, peer, t, pt.stamps, 0, me', t');
    PeerUnaffected(me, peer, pt, t.stamps, me');
    LogKept(ps, ladder, Responder, me, t, me', t');
    LogOnLargerLadder(ps, ladder, rung, Responder, me', t');
    PartyOnLargerLadder(ps, ladder, rung, Initiator, peer, pt);
  }

  /** An envelope the network has no signature for, or a signature made for someone else, fails. */
  lemma ForeignFails(ps: Parties, w: World, r: Role, e: Envelope)
    requires Allowed(ps, w, Deliver(r, e)) && e !in w.At(r.Peer()).sent
    ensures Decode(ps, r, w.At(r), e, w.nextSecret).Failed?
  {
    if w.At(r).session.Some? && e.RatchetEnvelope? && e.signer == ps.SigningKey(r.Peer()) {
      var other: string :| other != ps.Id(r) && |other| == |ps.Id(r)| && e.body.aad == DirectionAad(ps.Id(r.Peer()), other);
      DirectionAadNamesRecipient(ps.Id(r.Peer()), other, ps.Id(r));
    }
  }

  /** Receiving entry i of the peer's log, when it decodes. */
  lemma TakePair(ps: Parties, ladder: seq<Secret>, r: Role, me: Endpoint, t: Track, peer: Endpoint, pt: Track,
                 i: nat, rung: Secret) returns (ladder': seq<Secret>, t': Track)
    requires PairOk(ps, ladder, r, me, t, peer, pt) && me.session.Some? && Distinct(ladder)
    requires i < |peer.sent| && peer.sent[i].RatchetEnvelope? && Decode(ps, r, me, peer.sent[i], rung).Decoded?
    ensures ladder' == ladder || ladder' == ladder + [rung]
    ensures t'.taken == t.taken + [i] && t'.stamps == t.stamps
    ensures PairOk(ps, ladder', r, Hear(me, Decode(ps, r, me, peer.sent[i], rung)), t', peer, pt)
  {
    var p, stamp := r.Peer(), pt.stamps[i];
    assert SealedAt(ps, ladder, p, peer.sent[i], stamp);
    StampAtMostRung(ps.Root0(), ladder, p, peer, pt, i);
    StampParity(p, pt.stamps, i);
    AcceptsExactly(ps, ladder, r, me, t, peer.sent[i], stamp, rung);
    if stamp.chain == t.rung + 1 {
      t' := AcceptRatchet(ps, ladder, r, me, t, peer, pt, i, rung);
      ladder' := ladder + [rung];
    } else {
      t' := AcceptNext(ps, ladder, r, me, t, peer, pt, i, rung);
      ladder' := ladder;
    }
  }

  lemma LadderGrows(ps: Parties, ladder: seq<Secret>, nextSecret: Secret)
    requires LadderOk(ps, ladder, nextSecret)
    ensures LadderOk(ps, ladder, nextSecret + 1) && LadderOk(ps, ladder + [nextSecret], nextSecret + 1)
  {
  }

  lemma TakeInv(ps: Parties, w: World, h: Story, r: Role, i: nat) returns (h': Story)
    requires Inv(ps, w, h) && i < |w.At(r.Peer()).sent| && Allowed(ps, w, Deliver(r, w.At(r.Peer()).sent[i]))
    requires Decode(ps, r, w.At(r), w.At(r.Peer()).sent[i], w.nextSecret).Decoded?
    ensures Inv(ps, Step(ps, w, Deliver(r, w.At(r.Peer()).sent[i])), h')
    ensures h'.At(r).stamps == h.At(r).stamps && h'.At(r.Peer()) == h.At(r.Peer())
    ensures h'.At(r).taken == h.At(r).taken + [if w.At(r.Peer()).sent[i].HandshakeEnvelope? then 0 else i]
  {
    var p := r.Peer();
    var e, rung := w.At(p).sent[i], w.nextSecret;
    assert !e.HandshakeEnvelope? ==> w.At(r).session.Some?;
    hide PairOk, Decode, Hear;
    Sides(ps, w, h, r);
    LadderGrows(ps, h.ladder, rung);
    if e.HandshakeEnvelope? {
      var t' := AcceptHandshake(ps, h.ladder, w.At(r), h.At(r), w.At(p), h.At(p), rung);
      h' := h.With(r, t').(ladder := h.ladder + [rung]);
    } else {
      var ladder', t' := TakePair(ps, h.ladder, r, w.At(r), h.At(r), w.At(p), h.At(p), i, rung);
      h' := h.With(r, t').(ladder := ladder');
    }
    Sides(ps, Step(ps, w, Deliver(r, e)), h', r);
  }

  /** The invariant is kept by every allowed step, whatever the network does. */
  lemma StepInv(ps: Parties, w: World, h: Story, ev: Event) returns (h': Story)
    requires Inv(ps, w, h) && Allowed(ps, w, ev)
    ensures Inv(ps, Step(ps, w, ev), h')
  {
    match ev
    case Send(r, plaintext, nonce) => h' := SendInv(ps, w, h, r, plaintext, nonce);
    case Deliver(r, e) =>
      if Decode(ps, r, w.At(r), e, w.nextSecret).Failed? {
        h' := h;
        assert Step(ps, w, ev) == w;
      } else {
        if e !in w.At(r.Peer()).sent { ForeignFails(ps, w, r, e); }
        var i :| 0 <= i < |w.At(r.Peer()).sent| && w.At(r.Peer()).sent[i] == e;
        h' := TakeInv(ps, w, h, r, i);
      }
  }

  lemma {:induction false} ExecInv(ps: Parties, plaintext: Bytes, nonce: Bytes, events: seq<Event>) returns (h: Story)
    requires AllAllowed(ps, Start(ps, plaintext, nonce), events)
    ensures Inv(ps, Exec(ps, Start(ps, plaintext, nonce), events), h)
  {
    if events == [] {
      StartInv(ps, plaintext, nonce);
      h := FirstStory(ps);
    } else {
      var before := ExecInv(ps, plaintext, nonce, events[..|events| - 1]);
      h := StepInv(ps, Exec(ps, Start(ps, plaintext, nonce), events[..|events| - 1]), before, events[|events| - 1]);
    }
  }

  // ----- Every run

  /** `got` is `said` at the strictly increasing positions `at`. */
  ghost predicate Subsequence(got: seq<Bytes>, said: seq<Bytes>, at: seq<nat>) {
    && |got| == |at|
    && (forall j :: 0 <= j < |at| ==> at[j] < |said| && got[j] == said[at[j]])
    && (forall i, j :: 0 <= i < j < |at| ==> at[i] < at[j])
  }

  /** Whatever the network drops, reorders, replays or invents, what a party shows is a strictly
      increasing subsequence of what its peer said. */
  lemma AcceptedIsSubsequence(ps: Parties, plaintext: Bytes, nonce: Bytes, events: seq<Event>, r: Role)
    returns (at: seq<nat>)
    requires AllAllowed(ps, Start(ps, plaintext, nonce), events)
    ensures var w := Exec(ps, Start(ps, plaintext, nonce), events);
            Subsequence(w.At(r).accepted, w.At(r.Peer()).spoken, at)
  {
    hide Inv, Exec, AllAllowed, Start;
    var w := Exec(ps, Start(ps, plaintext, nonce), events);
    var h := ExecInv(ps, plaintext, nonce, events);
    TakesSubsequence(ps, w, h, r);
    at := h.At(r).taken;
  }

  lemma TakesSubsequence(ps: Parties, w: World, h: Story, r: Role)
    requires Inv(ps, w, h)
    ensures Subsequence(w.At(r).accepted, w.At(r.Peer()).spoken, h.At(r).taken)
  {
    hide PartyOk, RungsOk, LadderOk;
    Sides(ps, w, h, r);
  }

  lemma HeldIsWellFormed(root0: Key, ladder: seq<Secret>, t: Track, s: RatchetState)
    requires Holds(root0, ladder, t, s)
    ensures WellFormed(s)
  {
    RootDepth(root0, ladder, t.rung);
    if t.taken != [] { ChainRank(root0, ladder, t.rung - 1, s.receiveMessageNumber); }
  }

  /** In every run a stored session is well formed, so the error of the send derivation and the
      defensive branch of the receive derivation are unreachable, whatever an envelope claims. */
  lemma ErrorBranchesUnreachable(ps: Parties, plaintext: Bytes, nonce: Bytes, events: seq<Event>, r: Role)
    requires AllAllowed(ps, Start(ps, plaintext, nonce), events)
    ensures var me := Exec(ps, Start(ps, plaintext, nonce), events).At(r);
            me.session.Some? ==>
              && WellFormed(me.session.value)
              && DeriveNextSendingMessageKey(me.session.value).Sending?
              && (forall peer, number, newSecret ::
                    !DeriveNextReceivingMessageKey(me.session.value, peer, number, newSecret).NoReceivingChain?)
  {
    hide Exec, AllAllowed, Start, SendsWell, TakesWell, RungsOk, LadderOk;
    var w := Exec(ps, Start(ps, plaintext, nonce), events);
    var h := ExecInv(ps, plaintext, nonce, events);
    Sides(ps, w, h, r);
    if w.At(r).session.Some? {
      HeldIsWellFormed(ps.Root0(), h.ladder, h.At(r), w.At(r).session.value);
    }
  }

  ghost predicate SpentAt(w: World, r: Role, key: Key) {
    w.At(r).session.Some? && Spent(key, w.At(r).session.value)
  }

  ghost predicate SoundAt(w: World, r: Role) {
    w.At(r).session.Some? ==> WellFormed(w.At(r).session.value)
  }

  lemma StepKeepsSpent(ps: Parties, w: World, ev: Event, r: Role, key: Key)
    requires SpentAt(w, r, key) && SoundAt(w, r) && Allowed(ps, w, ev)
    ensures SpentAt(Step(ps, w, ev), r, key)
  {
    var s := w.At(r).session.value;
    if ev.role == r {
      match ev
      case Send(_, _, _) => SendKeepsWellFormed(s);
      case Deliver(_, e) =>
        if Decode(ps, r, w.At(r), e, w.nextSecret).Decoded? {
          DecodeSpendsItsKey(e, s, ps.Id(r.Peer()), ps.Id(r), ps.SigningKey(r.Peer()), w.nextSecret);
        }
    }
  }

  ghost predicate Accepts(ps: Parties, w: World, r: Role, e: Envelope) {
    Decode(ps, r, w.At(r), e, w.nextSecret).Decoded?
  }

  lemma AcceptingSpends(ps: Parties, w: World, r: Role, e: Envelope)
    requires SoundAt(w, r) && e.RatchetEnvelope? && Accepts(ps, w, r, e)
    ensures SpentAt(Step(ps, w, Deliver(r, e)), r, e.body.key)
  {
    DecodeSpendsItsKey(e, w.At(r).session.value, ps.Id(r.Peer()), ps.Id(r), ps.SigningKey(r.Peer()), w.nextSecret);
  }

  lemma SpentIsRefused(ps: Parties, w: World, r: Role, e: Envelope)
    requires SoundAt(w, r) && e.RatchetEnvelope? && SpentAt(w, r, e.body.key)
    ensures !Accepts(ps, w, r, e)
  {
    SpentNeverDecodes(e, w.At(r).session.value, ps.Id(r.Peer()), ps.Id(r), ps.SigningKey(r.Peer()), w.nextSecret);
  }

  lemma {:induction false} AllowedPrefix(ps: Parties, w: World, events: seq<Event>, k: nat)
    requires AllAllowed(ps, w, events) && k <= |events|
    ensures AllAllowed(ps, w, events[..k])
    ensures k < |events| ==> Allowed(ps, Exec(ps, w, events[..k]), events[k])
  {
    if k < |events| {
      var front := events[..|events| - 1];
      assert front[..k] == events[..k];
      if k < |front| { assert front[k] == events[k]; }
      AllowedPrefix(ps, w, front, k);
    } else {
      assert events[..k] == events;
    }
  }

  /** Once a ratchet envelope has been accepted, delivering it again fails, however many sends,
      receipts and ratchet steps lie in between. */
  lemma {:induction false} NeverAcceptedTwice(ps: Parties, plaintext: Bytes, nonce: Bytes, events: seq<Event>,
                                              r: Role, e: Envelope, i: nat, j: nat)
    requires AllAllowed(ps, Start(ps, plaintext, nonce), events)
    requires i < j <= |events| && events[i] == Deliver(r, e) && e.RatchetEnvelope?
    requires Accepts(ps, Exec(ps, Start(ps, plaintext, nonce), events[..i]), r, e)
    ensures SpentAt(Exec(ps, Start(ps, plaintext, nonce), events[..j]), r, e.body.key)
    ensures !Accepts(ps, Exec(ps, Start(ps, plaintext, nonce), events[..j]), r, e)
    decreases j
  {
    hide AllAllowed, SpentAt, Accepts, Step, Allowed, Start, WellFormed;
    var w0 := Start(ps, plaintext, nonce);
    var k := j - 1;
    var w, w' := Exec(ps, w0, events[..k]), Exec(ps, w0, events[..j]);
    AllowedPrefix(ps, w0, events, k);
    AllowedPrefix(ps, w0, events, j);
    assert events[..j][..k] == events[..k] && events[..j][k] == events[k];
    assert w' == Step(ps, w, events[k]);
    ErrorBranchesUnreachable(ps, plaintext, nonce, events[..k], r);
    if i == k {
      AcceptingSpends(ps, w, r, e);
    } else {
      NeverAcceptedTwice(ps, plaintext, nonce, events, r, e, i, k);
      StepKeepsSpent(ps, w, events[k], r, e.body.key);
    }
    ErrorBranchesUnreachable(ps, plaintext, nonce, events[..j], r);
    SpentIsRefused(ps, w', r, e);
  }

  // ----- FIFO delivery

  /** `delivered` counts, per recipient, the envelopes handed over so far, accepted or not. */
  datatype FifoWorld = FifoWorld(world: World, toInitiator: nat, toResponder: nat) {
    function Delivered(r: Role): nat { if r == Initiator then toInitiator else toResponder }
    function WithDelivered(r: Role, n: nat): FifoWorld {
      if r == Initiator then this.(toInitiator := n) else this.(toResponder := n)
    }
  }

  datatype FifoEvent =
    | Say(role: Role, plaintext: Bytes, nonce: Bytes)
    | Arrive(role: Role)

  /** The oldest undelivered envelope for `r`. */
  function NextFor(f: FifoWorld, r: Role): Envelope
    requires f.Delivered(r) < |f.world.At(r.Peer()).sent|
  {
    f.world.At(r.Peer()).sent[f.Delivered(r)]
  }

  /** A party speaks within a session while its counter fits the wire; an envelope arrives if one
      is in flight. */
  ghost predicate Enabled(f: FifoWorld, ev: FifoEvent) {
    match ev
    case Say(r, _, _) => f.world.At(r).session.Some? && f.world.At(r).session.value.sendMessageNumber < 0x1_0000_0000
    case Arrive(r) => f.Delivered(r) < |f.world.At(r.Peer()).sent|
  }

  ghost function FifoStep(ps: Parties, f: FifoWorld, ev: FifoEvent): FifoWorld
    requires Enabled(f, ev)
  {
    match ev
    case Say(r, plaintext, nonce) => f.(world := Step(ps, f.world, Send(r, plaintext, nonce)))
    case Arrive(r) =>
      f.(world := Step(ps, f.world, Deliver(r, NextFor(f, r)))).WithDelivered(r, f.Delivered(r) + 1)
  }

  ghost predicate FifoRun(ps: Parties, trace: seq<FifoWorld>, events: seq<FifoEvent>) {
    && |trace| == |events| + 1
    && (exists plaintext, nonce :: trace[0] == FifoWorld(Start(ps, plaintext, nonce), 0, 0))
    && (forall k :: 0 <= k < |events| ==> Enabled(trace[k], events[k]) && trace[k + 1] == FifoStep(ps, trace[k], events[k]))
  }

  ghost predicate TakenAll(taken: seq<nat>, n: nat) {
    |taken| == n && forall j :: 0 <= j < n ==> taken[j] == j
  }

  ghost predicate NumbersFit(stamps: seq<Stamp>) {
    forall i :: 0 <= i < |stamps| ==> stamps[i].number < 0x1_0000_0000
  }

  ghost predicate FifoInv(ps: Parties, f: FifoWorld, h: Story) {
    && Inv(ps, f.world, h)
    && forall r :: TakenAll(h.At(r).taken, f.Delivered(r)) && NumbersFit(h.At(r).stamps)
  }

  /** Delivered in order, the next ratchet envelope decodes exactly when its number fits the wire. */
  lemma NextInOrderDecodesIffFits(ps: Parties, ladder: seq<Secret>, r: Role, me: Endpoint, t: Track, peer: Endpoint,
                                  pt: Track, newSecret: Secret)
    requires PairOk(ps, ladder, r, me, t, peer, pt) && Distinct(ladder) && me.session.Some?
    requires TakenAll(t.taken, |t.taken|) && |t.taken| < |peer.sent| && peer.sent[|t.taken|].RatchetEnvelope?
    ensures Decode(ps, r, me, peer.sent[|t.taken|], newSecret).Decoded? <==>
            pt.stamps[|t.taken|].number < 0x1_0000_0000
  {
    var m, p := |t.taken|, r.Peer();
    var stamp := pt.stamps[m];
    PeerEntry(ps, ladder, r, me, t, peer, pt, m);
    StampAtMostRung(ps.Root0(), ladder, p, peer, pt, m);
    StampParity(p, pt.stamps, m);
    AcceptsExactly(ps, ladder, r, me, t, peer.sent[m], stamp, newSecret);
    NextInOrder(ps, ladder, r, me, t, peer, pt);
  }

  /** In order, what comes next is the next number of the current chain or the start of the next. */
  lemma NextInOrder(ps: Parties, ladder: seq<Secret>, r: Role, me: Endpoint, t: Track, peer: Endpoint, pt: Track)
    requires PairOk(ps, ladder, r, me, t, peer, pt) && me.session.Some?
    requires TakenAll(t.taken, |t.taken|) && |t.taken| < |pt.stamps|
    ensures t.rung >= 1
    ensures var stamp := pt.stamps[|t.taken|];
            stamp == Stamp(t.rung - 1, me.session.value.receiveMessageNumber) || stamp == Stamp(t.rung + 1, 0)
  {
    hide SealedAt, AnnouncesPrevious, Holds;
    var m := |t.taken|;
    if m > 0 {
      assert t.taken[m - 1] == m - 1;
      assert Follows(pt.stamps[m - 1], pt.stamps[m]);
    }
  }

  /** The next envelope always decodes, to what was said. */
  lemma ArriveDecodes(ps: Parties, f: FifoWorld, h: Story, r: Role)
    requires FifoInv(ps, f, h) && Enabled(f, Arrive(r))
    ensures Allowed(ps, f.world, Deliver(r, NextFor(f, r)))
    ensures NextFor(f, r).HandshakeEnvelope? ==> f.Delivered(r) == 0
    ensures Decode(ps, r, f.world.At(r), NextFor(f, r), f.world.nextSecret).Decoded?
  {
    var w, p := f.world, r.Peer();
    var e := NextFor(f, r);
    assert e in w.At(p).sent;
    Sides(ps, w, h, r);
    assert TakenAll(h.At(r).taken, f.Delivered(r)) && NumbersFit(h.At(p).stamps);
    HandshakeComesFirst(ps, h.ladder, r, w.At(r), h.At(r), w.At(p), h.At(p), f.Delivered(r));
    if e.HandshakeEnvelope? {
      var _ := AcceptHandshake(ps, h.ladder, w.At(r), h.At(r), w.At(p), h.At(p), w.nextSecret);
    } else {
      NextInOrderDecodesIffFits(ps, h.ladder, r, w.At(r), h.At(r), w.At(p), h.At(p), w.nextSecret);
    }
  }

  lemma HandshakeComesFirst(ps: Parties, ladder: seq<Secret>, r: Role, me: Endpoint, t: Track, peer: Endpoint, pt: Track, i: nat)
    requires PairOk(ps, ladder, r, me, t, peer, pt) && i == |t.taken| < |peer.sent|
    ensures peer.sent[i].HandshakeEnvelope? <==> me.session.None?
    ensures peer.sent[i].HandshakeEnvelope? ==> i == 0 && r == Responder
  {
  }

  lemma FifoStepInv(ps: Parties, f: FifoWorld, h: Story, ev: FifoEvent) returns (h': Story)
    requires FifoInv(ps, f, h) && Enabled(f, ev)
    ensures FifoInv(ps, FifoStep(ps, f, ev), h')
  {
    hide Inv, Step, Decode;
    match ev
    case Say(r, plaintext, nonce) =>
      assert TakenAll(h.At(r).taken, f.Delivered(r)) && TakenAll(h.At(r.Peer()).taken, f.Delivered(r.Peer()));
      h' := SendInv(ps, f.world, h, r, plaintext, nonce);
    case Arrive(r) =>
      assert TakenAll(h.At(r).taken, f.Delivered(r)) && TakenAll(h.At(r.Peer()).taken, f.Delivered(r.Peer()));
      ArriveDecodes(ps, f, h, r);
      h' := TakeInv(ps, f.world, h, r, f.Delivered(r));
  }

  lemma {:induction false} FifoTraceInv(ps: Parties, trace: seq<FifoWorld>, events: seq<FifoEvent>, k: nat) returns (h: Story)
    requires FifoRun(ps, trace, events) && k < |trace|
    ensures FifoInv(ps, trace[k], h)
  {
    if k == 0 {
      var plaintext, nonce :| trace[0] == FifoWorld(Start(ps, plaintext, nonce), 0, 0);
      StartInv(ps, plaintext, nonce);
      h := FirstStory(ps);
    } else {
      var before := FifoTraceInv(ps, trace, events, k - 1);
      assert trace[k] == FifoStep(ps, trace[k - 1], events[k - 1]);
      h := FifoStepInv(ps, trace[k - 1], before, events[k - 1]);
    }
  }

  /** With FIFO delivery each way the parties stay in agreement: at every point of every run, what a
      party shows is exactly what its peer said, up to the last envelope delivered. */
  lemma FifoAgreement(ps: Parties, trace: seq<FifoWorld>, events: seq<FifoEvent>, k: nat, r: Role)
    requires FifoRun(ps, trace, events) && k < |trace|
    ensures trace[k].Delivered(r) <= |trace[k].world.At(r.Peer()).spoken|
    ensures trace[k].world.At(r).accepted == trace[k].world.At(r.Peer()).spoken[..trace[k].Delivered(r)]
  {
    var f := trace[k];
    var h := FifoTraceInv(ps, trace, events, k);
    var me, peer, t := f.world.At(r), f.world.At(r.Peer()), h.At(r);
    Sides(ps, f.world, h, r);
    assert TakenAll(t.taken, f.Delivered(r));
    PrefixTaken(me, peer, t, h.At(r.Peer()).stamps, f.Delivered(r));
  }

  lemma PrefixTaken(me: Endpoint, peer: Endpoint, t: Track, peerStamps: seq<Stamp>, n: nat)
    requires TakesWell(me, peer, t, peerStamps) && TakenAll(t.taken, n)
    ensures n <= |peer.spoken| && me.accepted == peer.spoken[..n]
  {
    if n > 0 { assert t.taken[n - 1] == n - 1; }
    forall j | 0 <= j < n ensures me.accepted[j] == peer.spoken[..n][j] {
      assert t.taken[j] == j;
    }
  }

  /** When everything `r` sent has been delivered and its current rung has been seen, its sending
      chain is the very chain its peer receives on. */
  lemma DrainedChainsAgree(ps: Parties, trace: seq<FifoWorld>, events: seq<FifoEvent>, k: nat, r: Role)
    requires FifoRun(ps, trace, events) && k < |trace|
    requires var me, peer := trace[k].world.At(r), trace[k].world.At(r.Peer());
             && me.session.Some? && peer.session.Some?
             && trace[k].Delivered(r.Peer()) == |me.sent|
             && peer.session.value.dhrPublicKey == Some(me.session.value.dhsPublicKey)
    ensures var me, peer := trace[k].world.At(r).session.value, trace[k].world.At(r.Peer()).session.value;
            && peer.receivingChainKey == me.sendingChainKey
            && peer.receiveMessageNumber == me.sendMessageNumber
  {
    hide FifoRun;
    var f, p := trace[k], r.Peer();
    var h := FifoTraceInv(ps, trace, events, k);
    Sides(ps, f.world, h, r);
    assert TakenAll(h.At(p).taken, f.Delivered(p));
    DrainedPair(ps, h.ladder, r, f.world.At(r), h.At(r), f.world.At(p), h.At(p));
  }

  lemma DrainedPair(ps: Parties, ladder: seq<Secret>, r: Role, me: Endpoint, t: Track, peer: Endpoint, pt: Track)
    requires PairOk(ps, ladder, r, me, t, peer, pt) && Distinct(ladder)
    requires me.session.Some? && peer.session.Some?
    requires TakenAll(pt.taken, |me.sent|)
    requires peer.session.value.dhrPublicKey == Some(me.session.value.dhsPublicKey)
    ensures peer.session.value.receivingChainKey == me.session.value.sendingChainKey
    ensures peer.session.value.receiveMessageNumber == me.session.value.sendMessageNumber
  {
    hide SealedAt, AnnouncesPrevious;
    assert pt.taken != [] && pt.taken[|pt.taken| - 1] == |me.sent| - 1;
    assert ladder[pt.rung - 1] == ladder[t.rung];
    assert pt.rung - 1 == t.rung;
  }
}
