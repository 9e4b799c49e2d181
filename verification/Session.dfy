/** Ratchet state and per-message key derivation (apps/mobile/src/crypto/session.ts), and the
    envelopes sealed with those keys (apps/mobile/src/crypto/envelope.ts) at the level of fields.

    Key generation is the parameter `newSecret`; nothing here mutates a state.
 */
module Session {
  import opened Wrappers
  import opened Keys
  import opened Words

  datatype RatchetState = RatchetState(
    rootKey: Key,
    dhsPublicKey: PublicKey,
    dhsSecretKey: Secret,
    dhrPublicKey: Option<PublicKey>,
    sendingChainKey: Option<Key>,
    receivingChainKey: Option<Key>,
    sendMessageNumber: nat,
    receiveMessageNumber: nat,
    previousSendingChainLength: nat)

  datatype RootStep = RootStep(rootKey: Key, chainKey: Key)

  datatype ChainStep = ChainStep(nextChainKey: Key, messageKey: Key)

  function KdfRk(rootKey: Key, dh: Agreement): RootStep {
    RootStep(RootOf(rootKey, dh), ChainOf(rootKey, dh))
  }

  function KdfCk(chainKey: Key): ChainStep {
    ChainStep(NextChain(chainKey), MessageKey(chainKey))
  }

  /** Signal's DHRatchet: a receiving chain from the current key pair, then a fresh key pair and
      a sending chain from it. */
  function DhRatchetStep(state: RatchetState, newDhr: PublicKey, newSecret: Secret): RatchetState {
    var receiving := KdfRk(state.rootKey, Agree(state.dhsSecretKey, newDhr));
    var sending := KdfRk(receiving.rootKey, Agree(newSecret, newDhr));
    RatchetState(sending.rootKey, PublicKey(newSecret), newSecret, Some(newDhr),
                 Some(sending.chainKey), Some(receiving.chainKey),
                 0, 0, state.sendMessageNumber)
  }

  datatype Initiated = Initiated(state: RatchetState, ea: PublicKey, kyberCiphertext: KemCiphertext)

  function InitiateSession(contact: string, self: string, x25519: PublicKey, kyber: PublicKey,
                           ephemeral: Secret, seed: Secret): Initiated
  {
    var dh := Agree(ephemeral, x25519);
    var root0 := InitialRoot(dh, Encapsulated(kyber.secret, seed), RootKeyInfo(contact, self));
    var step := KdfRk(root0, dh);
    Initiated(
      RatchetState(step.rootKey, PublicKey(ephemeral), ephemeral, None, Some(step.chainKey), None, 0, 0, 0),
      PublicKey(ephemeral),
      KemCiphertext(kyber.secret, seed))
  }

  function ReceiveHandshake(contact: string, self: string, ea: PublicKey, kyberCiphertext: KemCiphertext,
                            x25519Secret: Secret, kyberSecret: Secret, newSecret: Secret): RatchetState
  {
    var dh := Agree(x25519Secret, ea);
    var root0 := InitialRoot(dh, Decapsulate(kyberCiphertext, kyberSecret), RootKeyInfo(contact, self));
    var starting := RatchetState(root0, PublicKey(x25519Secret), x25519Secret, None, None, None, 0, 0, 0);
    DhRatchetStep(starting, ea, newSecret)
  }

  datatype Header = Header(dhPublicKey: PublicKey, previousChainLength: nat, messageNumber: nat)

  datatype SendDerivation =
    | NoSendingChain  // the throw
    | Sending(messageKey: Key, nextState: RatchetState, header: Header)

  function DeriveNextSendingMessageKey(state: RatchetState): SendDerivation {
    if state.sendingChainKey.None? then NoSendingChain
    else
      var step := KdfCk(state.sendingChainKey.value);
      Sending(step.messageKey,
              state.(sendingChainKey := Some(step.nextChainKey),
                     sendMessageNumber := state.sendMessageNumber + 1),
              Header(state.dhsPublicKey, state.previousSendingChainLength, state.sendMessageNumber))
  }

  datatype ReceiveDerivation =
    | OutOfOrder
    | NoReceivingChain  // the defensive branch
    | Receiving(messageKey: Key, nextState: RatchetState)

  function DeriveNextReceivingMessageKey(state: RatchetState, peer: PublicKey, messageNumber: nat,
                                         newSecret: Secret): ReceiveDerivation
  {
    if state.dhrPublicKey != Some(peer) then
      var ratcheted := DhRatchetStep(state, peer, newSecret);
      var step := KdfCk(ratcheted.receivingChainKey.value);
      Receiving(step.messageKey,
                ratcheted.(receivingChainKey := Some(step.nextChainKey),
                           receiveMessageNumber := ratcheted.receiveMessageNumber + 1))
    else if messageNumber != state.receiveMessageNumber then OutOfOrder
    else if state.receivingChainKey.None? then NoReceivingChain
    else
      var step := KdfCk(state.receivingChainKey.value);
      Receiving(step.messageKey,
                state.(receivingChainKey := Some(step.nextChainKey),
                       receiveMessageNumber := state.receiveMessageNumber + 1))
  }

  /** An XChaCha20-Poly1305 ciphertext: it opens only under the same key, nonce and AAD. */
  datatype Sealed = Sealed(key: Key, nonce: Bytes, aad: string, plaintext: Bytes)

  function Open(key: Key, nonce: Bytes, aad: string, body: Sealed): Option<Bytes> {
    if body.key == key && body.nonce == nonce && body.aad == aad then Some(body.plaintext) else None
  }

  /** The Dilithium key pair that made a signature; signatures cover every other field. */
  type Signer = nat

  /** `TooShort` is shorter than the format its first byte names; `UnknownVersion` is any other
      byte string that starts with neither version. */
  datatype Envelope =
    | TooShort(start: Option<Byte>)
    | UnknownVersion(version: Byte)
    | HandshakeEnvelope(ea: PublicKey, kyberCiphertext: KemCiphertext, number: nat, nonce: Bytes,
                        body: Sealed, signer: Signer)
    | RatchetEnvelope(dhPublicKey: PublicKey, previous: nat, number: nat, nonce: Bytes,
                      body: Sealed, signer: Signer)

  function DirectionAad(sender: string, recipient: string): string { sender + recipient }

  /** What is left of a number after a four-byte wire field. */
  function Wire32(n: nat): nat { n % TWO_TO_THE_32 }

  function EncodeHandshakeEnvelope(initiated: Initiated, messageKey: Key, plaintext: Bytes, nonce: Bytes,
                                   self: string, contact: string, signer: Signer): Envelope
  {
    HandshakeEnvelope(initiated.ea, initiated.kyberCiphertext, 0, nonce,
                      Sealed(messageKey, nonce, DirectionAad(self, contact), plaintext), signer)
  }

  function EncodeRatchetEnvelope(header: Header, messageKey: Key, plaintext: Bytes, nonce: Bytes,
                                 self: string, contact: string, signer: Signer): Envelope
  {
    RatchetEnvelope(header.dhPublicKey, Wire32(header.previousChainLength), Wire32(header.messageNumber), nonce,
                    Sealed(messageKey, nonce, DirectionAad(self, contact), plaintext), signer)
  }

  datatype FailureReason = UnrecognizedVersion | Malformed | SignatureFailure | Rejected | AeadFailure

  datatype DecodeResult =
    | Decoded(plaintext: Bytes, nextState: RatchetState)
    | Failed(reason: FailureReason)

  function OpenWith(received: ReceiveDerivation, nonce: Bytes, aad: string, body: Sealed): DecodeResult {
    match received
    case Receiving(messageKey, nextState) =>
      (match Open(messageKey, nonce, aad, body)
       case Some(plaintext) => Decoded(plaintext, nextState)
       case None => Failed(AeadFailure))
    case _ => Failed(Rejected)
  }

  function DecodeHandshakeEnvelope(e: Envelope, contact: string, self: string, x25519Secret: Secret,
                                   kyberSecret: Secret, senderKey: Signer, newSecret: Secret): DecodeResult
  {
    match e
    case TooShort(_) => Failed(Malformed)
    case HandshakeEnvelope(ea, kyberCiphertext, number, nonce, body, signer) =>
      if number != 0 then Failed(Malformed)
      else if signer != senderKey then Failed(SignatureFailure)
      else
        var state := ReceiveHandshake(contact, self, ea, kyberCiphertext, x25519Secret, kyberSecret, newSecret);
        OpenWith(DeriveNextReceivingMessageKey(state, ea, 0, newSecret), nonce, DirectionAad(contact, self), body)
    case _ => Failed(UnrecognizedVersion)
  }

  function DecodeRatchetEnvelope(e: Envelope, state: RatchetState, contact: string, self: string,
                                 senderKey: Signer, newSecret: Secret): DecodeResult
  {
    match e
    case TooShort(_) => Failed(Malformed)
    case RatchetEnvelope(dhPublicKey, _, number, nonce, body, signer) =>
      if signer != senderKey then Failed(SignatureFailure)
      else
        OpenWith(DeriveNextReceivingMessageKey(state, dhPublicKey, number, newSecret),
                 nonce, DirectionAad(contact, self), body)
    case _ => Failed(UnrecognizedVersion)
  }

  // ----- What one party's states guarantee whatever it is sent

  /** The receiving chain sits two KDF_RK steps below the root and has moved once per receipt. */
  ghost predicate WellFormed(s: RatchetState) {
    && s.sendingChainKey.Some?
    && s.dhsPublicKey == PublicKey(s.dhsSecretKey)
    && (s.dhrPublicKey.Some? <==> s.receivingChainKey.Some?)
    && (s.receivingChainKey.Some? ==>
          && s.receivingChainKey.value.Depth() + 2 == s.rootKey.Depth()
          && s.receivingChainKey.value.Links() == s.receiveMessageNumber)
  }

  /** Message keys are ordered by root, then by position in the chain. */
  ghost predicate Below(a: Key, b: Key) {
    a.Depth() < b.Depth() || (a.Depth() == b.Depth() && a.Links() < b.Links())
  }

  /** The key has been derived by, or skipped on the way to, state `s`. */
  ghost predicate Spent(key: Key, s: RatchetState) {
    && s.receivingChainKey.Some?
    && Below(key, s.receivingChainKey.value)
  }

  lemma SendKeepsWellFormed(s: RatchetState)
    requires WellFormed(s)
    ensures DeriveNextSendingMessageKey(s).Sending?
    ensures WellFormed(DeriveNextSendingMessageKey(s).nextState)
    ensures forall key | Spent(key, s) :: Spent(key, DeriveNextSendingMessageKey(s).nextState)
  {
  }

  /** Every successful decode opens a key that was not spent before and spends it; what was spent
      stays spent. Nothing is assumed about the envelope. */
  lemma DecodeSpendsItsKey(e: Envelope, s: RatchetState, contact: string, self: string, senderKey: Signer,
                           newSecret: Secret)
    requires WellFormed(s)
    requires DecodeRatchetEnvelope(e, s, contact, self, senderKey, newSecret).Decoded?
    ensures var next := DecodeRatchetEnvelope(e, s, contact, self, senderKey, newSecret).nextState;
            && WellFormed(next)
            && e.RatchetEnvelope? && !Spent(e.body.key, s) && Spent(e.body.key, next)
            && (forall key | Spent(key, s) :: Spent(key, next))
  {
  }

  /** A spent envelope never decodes again: no fresh key pair and no claimed number helps it. */
  lemma SpentNeverDecodes(e: Envelope, s: RatchetState, contact: string, self: string, senderKey: Signer,
                          newSecret: Secret)
    requires WellFormed(s) && e.RatchetEnvelope? && Spent(e.body.key, s)
    ensures DecodeRatchetEnvelope(e, s, contact, self, senderKey, newSecret).Failed?
  {
    if DecodeRatchetEnvelope(e, s, contact, self, senderKey, newSecret).Decoded? {
      DecodeSpendsItsKey(e, s, contact, self, senderKey, newSecret);
    }
  }

  /** The defensive branch of the receive derivation cannot be taken from a well-formed state. */
  lemma DefensiveBranchUnreachable(s: RatchetState, peer: PublicKey, messageNumber: nat, newSecret: Secret)
    requires WellFormed(s)
    ensures !DeriveNextReceivingMessageKey(s, peer, messageNumber, newSecret).NoReceivingChain?
  {
  }

  /** The id strings of one deployment have one length (they are UUIDs), so the concatenation
      without a separator still names the recipient. */
  lemma DirectionAadNamesRecipient(sender: string, r1: string, r2: string)
    requires |r1| == |r2| && r1 != r2
    ensures DirectionAad(sender, r1) != DirectionAad(sender, r2)
  {
    assert forall r :: DirectionAad(sender, r)[|sender|..] == r;
  }

  /** So does it the sender: the AAD is the sender's id and then the recipient's, and no other two ids
      of these lengths give the same. */
  lemma DirectionAadNamesBoth(sender: string, recipient: string, sender': string, recipient': string)
    requires |sender| == |sender'|
    ensures |DirectionAad(sender, recipient)| == |sender| + |recipient|
    ensures DirectionAad(sender, recipient)[..|sender|] == sender && DirectionAad(sender, recipient)[|sender|..] == recipient
    ensures DirectionAad(sender, recipient) == DirectionAad(sender', recipient') ==> sender == sender' && recipient == recipient'
  {
    assert DirectionAad(sender', recipient')[..|sender'|] == sender' && DirectionAad(sender', recipient')[|sender'|..] == recipient';
  }

  /** What a send puts on the wire and keeps: the current ratchet key, the length of the sending chain before
      this one and the message's place in this one, both as 32-bit fields, and the plaintext sealed in this
      direction under the chain's next key. */
  lemma SentEnvelopeIs(s: RatchetState, plaintext: Bytes, nonce: Bytes, self: string, contact: string, signer: Signer)
    ensures var d := DeriveNextSendingMessageKey(s);
            match s.sendingChainKey
            case None => d == NoSendingChain
            case Some(chain) =>
              && d.Sending?
              && EncodeRatchetEnvelope(d.header, d.messageKey, plaintext, nonce, self, contact, signer)
                 == RatchetEnvelope(s.dhsPublicKey, s.previousSendingChainLength % 0x1_0000_0000, s.sendMessageNumber % 0x1_0000_0000,
                                    nonce, Sealed(MessageKey(chain), nonce, self + contact, plaintext), signer)
              && d.nextState == s.(sendingChainKey := Some(NextChain(chain)), sendMessageNumber := s.sendMessageNumber + 1)
  {
  }

  // ----- When an envelope decodes

  /** The chain an envelope's key comes from: the current one for the current ratchet key, which has no
      chain to offer out of order, and otherwise the one that the key begins. */
  function ReceivingChain(s: RatchetState, peer: PublicKey, number: nat): Option<Key> {
    if s.dhrPublicKey != Some(peer) then Some(ChainOf(s.rootKey, Agree(s.dhsSecretKey, peer)))
    else if number == s.receiveMessageNumber then s.receivingChainKey
    else None
  }

  /** A ratchet envelope decodes exactly if the expected sender signed it and it was sealed, with the nonce
      it carries and for this sender and recipient in this order, under the next key of its chain; each
      failure has exactly one cause. */
  lemma RatchetDecodesIff(e: Envelope, s: RatchetState, contact: string, self: string, senderKey: Signer, newSecret: Secret)
    ensures var d := DecodeRatchetEnvelope(e, s, contact, self, senderKey, newSecret);
            && (d == Failed(Malformed) <==> e.TooShort?)
            && (d == Failed(UnrecognizedVersion) <==> e.UnknownVersion? || e.HandshakeEnvelope?)
            && (d == Failed(SignatureFailure) <==> e.RatchetEnvelope? && e.signer != senderKey)
            && (e.RatchetEnvelope? && e.signer == senderKey ==>
                  var chain := ReceivingChain(s, e.dhPublicKey, e.number);
                  && (d == Failed(Rejected) <==> chain.None?)
                  && (chain.Some? ==>
                        && (d == Failed(AeadFailure) <==>
                              e.body != Sealed(MessageKey(chain.value), e.nonce, contact + self, e.body.plaintext))
                        && (d.Decoded? <==> e.body == Sealed(MessageKey(chain.value), e.nonce, contact + self, e.body.plaintext))
                        && (d.Decoded? ==> d.plaintext == e.body.plaintext)
                        && (d.Decoded? ==> d.nextState.receivingChainKey == Some(NextChain(chain.value)))))
  {
  }

  /** After a message of the current chain only that chain has moved. After the first of a new one, the
      root has gone through two steps, the second of them with a fresh key pair that begins the sending
      chain, and the length of the old sending chain is kept. */
  lemma DecodedStateIs(e: Envelope, s: RatchetState, contact: string, self: string, senderKey: Signer, newSecret: Secret)
    requires DecodeRatchetEnvelope(e, s, contact, self, senderKey, newSecret).Decoded?
    ensures var next := DecodeRatchetEnvelope(e, s, contact, self, senderKey, newSecret).nextState;
            if s.dhrPublicKey == Some(e.dhPublicKey) then
              next == s.(receivingChainKey := next.receivingChainKey, receiveMessageNumber := s.receiveMessageNumber + 1)
            else
              var middle := RootOf(s.rootKey, Agree(s.dhsSecretKey, e.dhPublicKey));
              next == RatchetState(RootOf(middle, Agree(newSecret, e.dhPublicKey)), PublicKey(newSecret), newSecret,
                                   Some(e.dhPublicKey), Some(ChainOf(middle, Agree(newSecret, e.dhPublicKey))),
                                   next.receivingChainKey, 0, 1, s.sendMessageNumber)
  {
    RatchetDecodesIff(e, s, contact, self, senderKey, newSecret);
  }

  /** A handshake decodes exactly if the expected sender signed it, it carries number 0, and it was sealed
      in this direction under the first key of the chain that the static X25519 agreement and the
      encapsulated secret begin for this pair of users. */
  lemma HandshakeDecodesIff(e: Envelope, contact: string, self: string, x25519Secret: Secret, kyberSecret: Secret,
                            senderKey: Signer, newSecret: Secret)
    ensures var d := DecodeHandshakeEnvelope(e, contact, self, x25519Secret, kyberSecret, senderKey, newSecret);
            && (d == Failed(Malformed) <==> e.TooShort? || (e.HandshakeEnvelope? && e.number != 0))
            && (d == Failed(UnrecognizedVersion) <==> e.UnknownVersion? || e.RatchetEnvelope?)
            && d != Failed(Rejected)
            && (e.HandshakeEnvelope? && e.number == 0 ==>
                  var dh := Agree(x25519Secret, e.ea);
                  var root := InitialRoot(dh, Decapsulate(e.kyberCiphertext, kyberSecret), RootKeyInfo(contact, self));
                  var sealed := e.body == Sealed(MessageKey(ChainOf(root, dh)), e.nonce, contact + self, e.body.plaintext);
                  && (d == Failed(SignatureFailure) <==> e.signer != senderKey)
                  && (d == Failed(AeadFailure) <==> e.signer == senderKey && !sealed)
                  && (d.Decoded? <==> e.signer == senderKey && sealed)
                  && (d.Decoded? ==> d.plaintext == e.body.plaintext && d.nextState.dhrPublicKey == Some(e.ea)
                                     && d.nextState.receivingChainKey == Some(NextChain(ChainOf(root, dh)))
                                     && d.nextState.dhsSecretKey == newSecret
                                     && d.nextState.sendingChainKey == Some(ChainOf(RootOf(root, dh), Agree(newSecret, e.ea)))))
  {
    hide RootKeyInfo;
  }
}
