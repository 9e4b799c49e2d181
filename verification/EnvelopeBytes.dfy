/** The two byte layouts of apps/mobile/src/crypto/envelope.ts.

    Signing, sealing and key derivation are parameters: what is proved here holds for every
    signature scheme, AEAD and ratchet of the right sizes.
 */
module EnvelopeBytes {
  import opened Wrappers
  import opened Words

  const HANDSHAKE_ENVELOPE_VERSION: Byte := 0x02
  const RATCHET_ENVELOPE_VERSION: Byte := 0x03
  const X25519_PUBLIC_KEY_LENGTH := 32
  const KYBER_CIPHERTEXT_LENGTH := 1088
  const UINT32_FIELD_LENGTH := 4
  const NONCE_LENGTH := 24
  const AEAD_TAG_LENGTH := 16
  const SIGNATURE_LENGTH := 3309

  const HANDSHAKE_ENVELOPE_MIN_LENGTH :=
    1 + X25519_PUBLIC_KEY_LENGTH + KYBER_CIPHERTEXT_LENGTH + UINT32_FIELD_LENGTH + NONCE_LENGTH + AEAD_TAG_LENGTH
    + SIGNATURE_LENGTH

  const RATCHET_ENVELOPE_MIN_LENGTH :=
    1 + X25519_PUBLIC_KEY_LENGTH + UINT32_FIELD_LENGTH * 2 + NONCE_LENGTH + AEAD_TAG_LENGTH + SIGNATURE_LENGTH

  // ----- Big-endian 32-bit fields

  function WriteUint32BE(value: nat): (bytes: Bytes)
    ensures |bytes| == UINT32_FIELD_LENGTH
  {
    var v := ToUint32(value);
    [v / 0x100_0000 % 0x100, v / 0x1_0000 % 0x100, v / 0x100 % 0x100, v % 0x100]
  }

  function ReadUint32BE(bytes: Bytes, offset: nat): nat
    requires offset + 4 <= |bytes|
  {
    var b0: int, b1: int, b2: int, b3: int := bytes[offset], bytes[offset + 1], bytes[offset + 2], bytes[offset + 3];
    ToUint32(OrBytes(ToInt32(b0 * 0x100_0000), b1, b2, b3))
  }

  /** `high | b1 << 16 | b2 << 8 | b3`. The first shift may have turned `high` negative, but it leaves
      the low 24 bits free. */
  function OrBytes(high: int, b1: nat, b2: nat, b3: nat): int
    requires high % 0x100_0000 == 0 && b1 < 0x100 && b2 < 0x100 && b3 < 0x100
  {
    LowBitsFree(high, b1, b2);
    Or(Or(Or(high, b1 * 0x1_0000, 0x100_0000), b2 * 0x100, 0x1_0000), b3, 0x100)
  }

  /** Each shifted byte leaves the bits below it free for the next. */
  lemma LowBitsFree(high: int, b1: int, b2: int)
    requires high % 0x100_0000 == 0
    ensures (high + b1 * 0x1_0000) % 0x1_0000 == 0 && (high + b1 * 0x1_0000 + b2 * 0x100) % 0x100 == 0
  {
    var q := high / 0x100_0000;
    assert high == q * 0x100_0000;
    Multiples(q * 0x100 + b1, q * 0x1_0000 + b1 * 0x100 + b2);
  }

  lemma Multiples(m: int, n: int)
    ensures m * 0x1_0000 % 0x1_0000 == 0 && n * 0x100 % 0x100 == 0
  {
  }

  function BigEndian(b0: nat, b1: nat, b2: nat, b3: nat): nat { b0 * 0x100_0000 + b1 * 0x1_0000 + b2 * 0x100 + b3 }

  lemma ReadIsBigEndian(bytes: Bytes, offset: nat)
    requires offset + 4 <= |bytes|
    ensures ReadUint32BE(bytes, offset) == BigEndian(bytes[offset], bytes[offset + 1], bytes[offset + 2], bytes[offset + 3])
  {
  }

  lemma FourZeros(bytes: Bytes, offset: nat)
    requires offset + 4 <= |bytes|
    ensures ReadUint32BE(bytes, offset) == 0 <==> bytes[offset..offset + 4] == [0, 0, 0, 0]
  {
    hide ReadUint32BE;
    ReadIsBigEndian(bytes, offset);
    var field := bytes[offset..offset + 4];
    assert field == [bytes[offset], bytes[offset + 1], bytes[offset + 2], bytes[offset + 3]];
  }

  lemma BigEndianDigits(v: nat, b0: nat, b1: nat, b2: nat, b3: nat)
    requires b0 < 0x100 && b1 < 0x100 && b2 < 0x100 && b3 < 0x100
    requires v == b0 * 0x100_0000 + b1 * 0x1_0000 + b2 * 0x100 + b3
    ensures v / 0x100_0000 % 0x100 == b0 && v / 0x1_0000 % 0x100 == b1 && v / 0x100 % 0x100 == b2 && v % 0x100 == b3
  {
    assert v / 0x100 == b0 * 0x1_0000 + b1 * 0x100 + b2;
    assert v / 0x1_0000 == b0 * 0x100 + b1;
    assert v / 0x100_0000 == b0;
  }

  lemma Bytes4(v: nat)
    requires v < TWO_TO_THE_32
    ensures v == v / 0x100_0000 % 0x100 * 0x100_0000 + v / 0x1_0000 % 0x100 * 0x1_0000 + v / 0x100 % 0x100 * 0x100 + v % 0x100
  {
    assert v / 0x100 / 0x100 == v / 0x1_0000 && v / 0x1_0000 / 0x100 == v / 0x100_0000;
  }

  /** Reading what was written returns the number, up to the width of the field. */
  lemma WriteThenRead(value: nat, before: Bytes, after: Bytes)
    ensures ReadUint32BE(before + WriteUint32BE(value) + after, |before|) == value % TWO_TO_THE_32
  {
    hide ReadUint32BE;
    var bytes := before + WriteUint32BE(value) + after;
    assert bytes[|before|..|before| + 4] == WriteUint32BE(value);
    ReadIsBigEndian(bytes, |before|);
    Bytes4(ToUint32(value));
    forall k | 0 <= k < 4 ensures bytes[|before| + k] == WriteUint32BE(value)[k] {
      assert bytes[|before|..|before| + 4][k] == bytes[|before| + k];
    }
  }

  /** Writing what was read returns the four bytes. */
  lemma ReadThenWrite(bytes: Bytes)
    requires |bytes| == 4
    ensures WriteUint32BE(ReadUint32BE(bytes, 0)) == bytes
  {
    hide ReadUint32BE;
    var v := ReadUint32BE(bytes, 0);
    ReadIsBigEndian(bytes, 0);
    assert v < TWO_TO_THE_32 && ToUint32(v) == v;
    BigEndianDigits(v, bytes[0], bytes[1], bytes[2], bytes[3]);
  }

  // ----- The layouts

  datatype DecodeFailure = UnrecognizedVersion | Malformed | SignatureFailure | Rejected | AeadFailure

  datatype DecodeResult<S> = Decoded(plaintext: Bytes, nextState: S) | Failed(reason: DecodeFailure)

  datatype HandshakeFields = HandshakeFields(ea: Bytes, kyberCiphertext: Bytes, nonce: Bytes, ciphertext: Bytes) {
    predicate Sized() {
      |ea| == X25519_PUBLIC_KEY_LENGTH && |kyberCiphertext| == KYBER_CIPHERTEXT_LENGTH && |nonce| == NONCE_LENGTH
      && |ciphertext| >= AEAD_TAG_LENGTH
    }
    function SignedPortion(): Bytes {
      [HANDSHAKE_ENVELOPE_VERSION] + ea + kyberCiphertext + WriteUint32BE(0) + nonce + ciphertext
    }
  }

  datatype RatchetFields = RatchetFields(dhPublicKey: Bytes, previousChainLength: nat, messageNumber: nat,
                                         nonce: Bytes, ciphertext: Bytes)
  {
    predicate Sized() {
      |dhPublicKey| == X25519_PUBLIC_KEY_LENGTH && |nonce| == NONCE_LENGTH && |ciphertext| >= AEAD_TAG_LENGTH
    }
    function SignedPortion(): Bytes {
      [RATCHET_ENVELOPE_VERSION] + dhPublicKey + WriteUint32BE(previousChainLength) + WriteUint32BE(messageNumber)
      + nonce + ciphertext
    }
  }

  /** A signature scheme with fixed-length signatures that verifies what it signs. */
  ghost predicate SignsFor(sign: Bytes -> Bytes, verify: (Bytes, Bytes) -> bool) {
    forall m: Bytes :: |sign(m)| == SIGNATURE_LENGTH && verify(sign(m), m)
  }

  /** The signature is sliced from the end. */
  function SplitSignature(envelope: Bytes): (Bytes, Bytes)
    requires |envelope| >= SIGNATURE_LENGTH
  {
    (envelope[..|envelope| - SIGNATURE_LENGTH], envelope[|envelope| - SIGNATURE_LENGTH..])
  }

  /** What opening comes to once the signature is good: `derived` is the message key and next state,
      None for a fail-closed rejection. */
  function Opened<K, S>(derived: Option<(K, S)>, open: (K, Bytes, Bytes) -> Option<Bytes>, nonce: Bytes, ciphertext: Bytes)
    : DecodeResult<S>
  {
    match derived
    case None => Failed(Rejected)
    case Some((key, next)) =>
      match open(key, nonce, ciphertext)
      case None => Failed(AeadFailure)
      case Some(plaintext) => Decoded(plaintext, next)
  }

  function EncodeHandshakeEnvelope(f: HandshakeFields, sign: Bytes -> Bytes): Bytes {
    f.SignedPortion() + sign(f.SignedPortion())
  }

  function EncodeRatchetEnvelope(f: RatchetFields, sign: Bytes -> Bytes): Bytes {
    f.SignedPortion() + sign(f.SignedPortion())
  }

  /** The meaning of the handshake decoder, field by field at fixed positions. */
  function HandshakeDecoding<K, S>(envelope: Bytes, verify: (Bytes, Bytes) -> bool,
                                   derive: (Bytes, Bytes) -> Option<(K, S)>,
                                   open: (K, Bytes, Bytes) -> Option<Bytes>): DecodeResult<S>
  {
    if |envelope| < HANDSHAKE_ENVELOPE_MIN_LENGTH then Failed(Malformed)
    else if envelope[0] != HANDSHAKE_ENVELOPE_VERSION then Failed(UnrecognizedVersion)
    else if ReadUint32BE(envelope, 1121) != 0 then Failed(Malformed)
    else
      var (signed, signature) := SplitSignature(envelope);
      if !verify(signature, signed) then Failed(SignatureFailure)
      else Opened(derive(signed[1..33], signed[33..1121]), open, signed[1125..1149], signed[1149..])
  }

  function RatchetDecoding<K, S>(envelope: Bytes, verify: (Bytes, Bytes) -> bool,
                                 derive: (Bytes, nat) -> Option<(K, S)>,
                                 open: (K, Bytes, Bytes) -> Option<Bytes>): DecodeResult<S>
  {
    if |envelope| < RATCHET_ENVELOPE_MIN_LENGTH then Failed(Malformed)
    else if envelope[0] != RATCHET_ENVELOPE_VERSION then Failed(UnrecognizedVersion)
    else
      var (signed, signature) := SplitSignature(envelope);
      if !verify(signature, signed) then Failed(SignatureFailure)
      else Opened(derive(signed[1..33], ReadUint32BE(signed, 37)), open, signed[41..65], signed[65..])
  }

  /** Long enough, of the right version, and with the number 0 that a handshake carries. */
  predicate HandshakeShaped(envelope: Bytes) {
    |envelope| >= 4474 && envelope[0] == 0x02 && envelope[1121..1125] == [0, 0, 0, 0]
  }

  predicate RatchetShaped(envelope: Bytes) {
    |envelope| >= 3390 && envelope[0] == 0x03
  }

  /** Walks the buffer with an offset; every slice is in bounds on every input. */
  method DecodeHandshakeEnvelope<K, S>(envelope: Bytes, verify: (Bytes, Bytes) -> bool,
                                       derive: (Bytes, Bytes) -> Option<(K, S)>,
                                       open: (K, Bytes, Bytes) -> Option<Bytes>) returns (r: DecodeResult<S>)
    ensures r == HandshakeDecoding(envelope, verify, derive, open)
    ensures r == Failed(Malformed) <==>
            |envelope| < 4474 || (envelope[0] == 0x02 && envelope[1121..1125] != [0, 0, 0, 0])
    ensures r == Failed(UnrecognizedVersion) <==> |envelope| >= 4474 && envelope[0] != 0x02
    ensures HandshakeShaped(envelope) ==>
            var (message, signature) := (envelope[..|envelope| - 3309], envelope[|envelope| - 3309..]);
            var derived := derive(message[1..33], message[33..1121]);
            && (r == Failed(SignatureFailure) <==> !verify(signature, message))
            && (r == Failed(Rejected) <==> verify(signature, message) && derived.None?)
            && (r == Failed(AeadFailure) <==> verify(signature, message) && derived.Some?
                                              && open(derived.value.0, message[1125..1149], message[1149..]).None?)
            && (r.Decoded? <==> verify(signature, message) && derived.Some?
                                && open(derived.value.0, message[1125..1149], message[1149..]).Some?)
            && (r.Decoded? ==> r.nextState == derived.value.1
                               && Some(r.plaintext) == open(derived.value.0, message[1125..1149], message[1149..]))
  {
    hide ReadUint32BE;
    if |envelope| >= 1125 {
      FourZeros(envelope, 1121);
    }
    if |envelope| < HANDSHAKE_ENVELOPE_MIN_LENGTH {
      return Failed(Malformed);
    }
    if envelope[0] != HANDSHAKE_ENVELOPE_VERSION {
      return Failed(UnrecognizedVersion);
    }
    var offset := 1;
    var ea := envelope[offset..offset + X25519_PUBLIC_KEY_LENGTH];
    offset := offset + X25519_PUBLIC_KEY_LENGTH;
    var kyberCiphertext := envelope[offset..offset + KYBER_CIPHERTEXT_LENGTH];
    offset := offset + KYBER_CIPHERTEXT_LENGTH;
    var messageNumber := ReadUint32BE(envelope, offset);
    offset := offset + UINT32_FIELD_LENGTH;
    var nonce := envelope[offset..offset + NONCE_LENGTH];
    offset := offset + NONCE_LENGTH;

    var signedLength := |envelope| - SIGNATURE_LENGTH;
    if signedLength <= offset || messageNumber != 0 {
      return Failed(Malformed);
    }
    var ciphertext := envelope[offset..signedLength];
    var signedPortion := envelope[..signedLength];
    var signature := envelope[signedLength..];
    if !verify(signature, signedPortion) {
      return Failed(SignatureFailure);
    }
    assert ea == signedPortion[1..33] && kyberCiphertext == signedPortion[33..1121];
    assert nonce == signedPortion[1125..1149] && ciphertext == signedPortion[1149..];
    match derive(ea, kyberCiphertext)
    case None => return Failed(Rejected);
    case Some((key, next)) =>
      match open(key, nonce, ciphertext)
      case None => return Failed(AeadFailure);
      case Some(plaintext) => return Decoded(plaintext, next);
  }

  method DecodeRatchetEnvelope<K, S>(envelope: Bytes, verify: (Bytes, Bytes) -> bool,
                                     derive: (Bytes, nat) -> Option<(K, S)>,
                                     open: (K, Bytes, Bytes) -> Option<Bytes>) returns (r: DecodeResult<S>)
    ensures r == RatchetDecoding(envelope, verify, derive, open)
    ensures r == Failed(Malformed) <==> |envelope| < 3390
    ensures r == Failed(UnrecognizedVersion) <==> |envelope| >= 3390 && envelope[0] != 0x03
    ensures RatchetShaped(envelope) ==>
            var (message, signature) := (envelope[..|envelope| - 3309], envelope[|envelope| - 3309..]);
            var derived := derive(message[1..33], BigEndian(message[37], message[38], message[39], message[40]));
            && (r == Failed(SignatureFailure) <==> !verify(signature, message))
            && (r == Failed(Rejected) <==> verify(signature, message) && derived.None?)
            && (r == Failed(AeadFailure) <==> verify(signature, message) && derived.Some?
                                              && open(derived.value.0, message[41..65], message[65..]).None?)
            && (r.Decoded? <==> verify(signature, message) && derived.Some?
                                && open(derived.value.0, message[41..65], message[65..]).Some?)
            && (r.Decoded? ==> r.nextState == derived.value.1
                               && Some(r.plaintext) == open(derived.value.0, message[41..65], message[65..]))
  {
    hide ReadUint32BE;
    if |envelope| >= 3390 {
      ReadIsBigEndian(envelope[..|envelope| - 3309], 37);
    }
    if |envelope| < RATCHET_ENVELOPE_MIN_LENGTH {
      return Failed(Malformed);
    }
    if envelope[0] != RATCHET_ENVELOPE_VERSION {
      return Failed(UnrecognizedVersion);
    }
    var offset := 1;
    var dhPublicKey := envelope[offset..offset + X25519_PUBLIC_KEY_LENGTH];
    offset := offset + X25519_PUBLIC_KEY_LENGTH;
    offset := offset + UINT32_FIELD_LENGTH;
    var messageNumber := ReadUint32BE(envelope, offset);
    offset := offset + UINT32_FIELD_LENGTH;
    var nonce := envelope[offset..offset + NONCE_LENGTH];
    offset := offset + NONCE_LENGTH;

    var signedLength := |envelope| - SIGNATURE_LENGTH;
    if signedLength <= offset {
      return Failed(Malformed);
    }
    var ciphertext := envelope[offset..signedLength];
    var signedPortion := envelope[..signedLength];
    var signature := envelope[signedLength..];
    if !verify(signature, signedPortion) {
      return Failed(SignatureFailure);
    }
    assert dhPublicKey == signedPortion[1..33];
    assert nonce == signedPortion[41..65] && ciphertext == signedPortion[65..];
    ReadSame(envelope, signedPortion, 37);
    match derive(dhPublicKey, messageNumber)
    case None => return Failed(Rejected);
    case Some((key, next)) =>
      match open(key, nonce, ciphertext)
      case None => return Failed(AeadFailure);
      case Some(plaintext) => return Decoded(plaintext, next);
  }

  lemma ReadSame(bytes: Bytes, prefix: Bytes, offset: nat)
    requires offset + 4 <= |prefix| <= |bytes| && bytes[..|prefix|] == prefix
    ensures ReadUint32BE(bytes, offset) == ReadUint32BE(prefix, offset)
  {
    assert forall k :: 0 <= k < |prefix| ==> bytes[..|prefix|][k] == bytes[k];
  }

  // ----- Round trips

  lemma HandshakeLayout(f: HandshakeFields, tail: Bytes)
    requires f.Sized()
    ensures var b := f.SignedPortion() + tail;
            && |f.SignedPortion()| == 1149 + |f.ciphertext|
            && b[0] == HANDSHAKE_ENVELOPE_VERSION && ReadUint32BE(b, 1121) == 0
    ensures var signed := f.SignedPortion();
            && signed[1..33] == f.ea && signed[33..1121] == f.kyberCiphertext
            && signed[1125..1149] == f.nonce && signed[1149..] == f.ciphertext
  {
    hide ReadUint32BE, WriteUint32BE;
    var front := [HANDSHAKE_ENVELOPE_VERSION] + f.ea + f.kyberCiphertext;
    var rest := f.nonce + f.ciphertext + tail;
    assert f.SignedPortion() + tail == front + WriteUint32BE(0) + rest;
    WriteThenRead(0, front, rest);
  }

  lemma RatchetLayout(f: RatchetFields)
    requires f.Sized()
    ensures var signed := f.SignedPortion();
            && |signed| == 65 + |f.ciphertext|
            && signed[0] == RATCHET_ENVELOPE_VERSION && signed[1..33] == f.dhPublicKey
            && ReadUint32BE(signed, 33) == f.previousChainLength % TWO_TO_THE_32
            && ReadUint32BE(signed, 37) == f.messageNumber % TWO_TO_THE_32
            && signed[41..65] == f.nonce && signed[65..] == f.ciphertext
  {
    hide ReadUint32BE, WriteUint32BE;
    var previous, number := WriteUint32BE(f.previousChainLength), WriteUint32BE(f.messageNumber);
    var front := [RATCHET_ENVELOPE_VERSION] + f.dhPublicKey;
    assert f.SignedPortion() == front + previous + (number + f.nonce + f.ciphertext);
    WriteThenRead(f.previousChainLength, front, number + f.nonce + f.ciphertext);
    assert f.SignedPortion() == (front + previous) + number + (f.nonce + f.ciphertext);
    WriteThenRead(f.messageNumber, front + previous, f.nonce + f.ciphertext);
  }

  lemma SplitsAtSignature(signed: Bytes, signature: Bytes)
    requires |signature| == SIGNATURE_LENGTH
    ensures SplitSignature(signed + signature) == (signed, signature)
  {
  }

  /** Decoding an encoded handshake envelope hands exactly the encoded fields to the key derivation
      and to the AEAD. */
  lemma HandshakeRoundTrip<K(!new), S(!new)>(f: HandshakeFields, sign: Bytes -> Bytes, verify: (Bytes, Bytes) -> bool,
                                             derive: (Bytes, Bytes) -> Option<(K, S)>,
                                             open: (K, Bytes, Bytes) -> Option<Bytes>)
    requires f.Sized() && SignsFor(sign, verify)
    ensures HandshakeDecoding(EncodeHandshakeEnvelope(f, sign), verify, derive, open)
         == Opened(derive(f.ea, f.kyberCiphertext), open, f.nonce, f.ciphertext)
  {
    hide ReadUint32BE, WriteUint32BE;
    var signed := f.SignedPortion();
    HandshakeLayout(f, sign(signed));
    SplitsAtSignature(signed, sign(signed));
    assert signed[1..33] == f.ea && signed[33..1121] == f.kyberCiphertext;
    assert signed[1125..1149] == f.nonce && signed[1149..] == f.ciphertext;
  }

  /** Likewise for a ratchet envelope, whose number comes back up to the width of its field. */
  lemma RatchetRoundTrip<K(!new), S(!new)>(f: RatchetFields, sign: Bytes -> Bytes, verify: (Bytes, Bytes) -> bool,
                                           derive: (Bytes, nat) -> Option<(K, S)>,
                                           open: (K, Bytes, Bytes) -> Option<Bytes>)
    requires f.Sized() && SignsFor(sign, verify)
    ensures RatchetDecoding(EncodeRatchetEnvelope(f, sign), verify, derive, open)
         == Opened(derive(f.dhPublicKey, f.messageNumber % TWO_TO_THE_32), open, f.nonce, f.ciphertext)
  {
    hide ReadUint32BE, WriteUint32BE;
    var signed := f.SignedPortion();
    RatchetLayout(f);
    SplitsAtSignature(signed, sign(signed));
    assert (signed + sign(signed))[0] == signed[0];
    assert signed[1..33] == f.dhPublicKey && signed[41..65] == f.nonce && signed[65..] == f.ciphertext;
  }

  /** A sealed plaintext comes back, whatever its length. */
  lemma PlaintextRoundTrip<K(!new), S(!new)>(f: RatchetFields, key: K, next: S, plaintext: Bytes,
                                             seal: (K, Bytes, Bytes) -> Bytes,
                                             sign: Bytes -> Bytes, verify: (Bytes, Bytes) -> bool,
                                             derive: (Bytes, nat) -> Option<(K, S)>,
                                             open: (K, Bytes, Bytes) -> Option<Bytes>)
    requires SignsFor(sign, verify)
    requires forall k: K, n: Bytes, p: Bytes ::
               |seal(k, n, p)| == |p| + AEAD_TAG_LENGTH && open(k, n, seal(k, n, p)) == Some(p)
    requires |f.dhPublicKey| == X25519_PUBLIC_KEY_LENGTH && |f.nonce| == NONCE_LENGTH
    requires f.ciphertext == seal(key, f.nonce, plaintext)
    requires derive(f.dhPublicKey, f.messageNumber % TWO_TO_THE_32) == Some((key, next))
    ensures RatchetDecoding(EncodeRatchetEnvelope(f, sign), verify, derive, open) == Decoded(plaintext, next)
  {
    hide RatchetDecoding, EncodeRatchetEnvelope;
    RatchetRoundTrip(f, sign, verify, derive, open);
  }

  /** An envelope of one version is never taken for the other, whatever keys are at hand. */
  lemma VersionsNeverConfused<K(!new), S(!new)>(h: HandshakeFields, f: RatchetFields, sign: Bytes -> Bytes,
                                                verify: (Bytes, Bytes) -> bool,
                                                deriveH: (Bytes, Bytes) -> Option<(K, S)>,
                                                deriveR: (Bytes, nat) -> Option<(K, S)>,
                                                open: (K, Bytes, Bytes) -> Option<Bytes>)
    requires h.Sized() && f.Sized() && SignsFor(sign, verify)
    ensures RatchetDecoding(EncodeHandshakeEnvelope(h, sign), verify, deriveR, open) == Failed(UnrecognizedVersion)
    ensures HandshakeDecoding(EncodeRatchetEnvelope(f, sign), verify, deriveH, open)
         == Failed(if |f.ciphertext| < HANDSHAKE_ENVELOPE_MIN_LENGTH - 65 - SIGNATURE_LENGTH then Malformed else UnrecognizedVersion)
  {
    hide ReadUint32BE, WriteUint32BE;
    HandshakeLayout(h, sign(h.SignedPortion()));
    RatchetLayout(f);
    assert EncodeRatchetEnvelope(f, sign)[0] == f.SignedPortion()[0];
  }

  /** The encoding loses nothing: two envelopes are equal only if all their fields are. */
  lemma RatchetEncodingInjective(f: RatchetFields, g: RatchetFields, sign: Bytes -> Bytes, verify: (Bytes, Bytes) -> bool)
    requires f.Sized() && g.Sized() && SignsFor(sign, verify)
    requires EncodeRatchetEnvelope(f, sign) == EncodeRatchetEnvelope(g, sign)
    ensures f.dhPublicKey == g.dhPublicKey && f.nonce == g.nonce && f.ciphertext == g.ciphertext
    ensures f.previousChainLength % TWO_TO_THE_32 == g.previousChainLength % TWO_TO_THE_32
    ensures f.messageNumber % TWO_TO_THE_32 == g.messageNumber % TWO_TO_THE_32
  {
    hide ReadUint32BE, WriteUint32BE;
    RatchetLayout(f);
    RatchetLayout(g);
    SplitsAtSignature(f.SignedPortion(), sign(f.SignedPortion()));
    SplitsAtSignature(g.SignedPortion(), sign(g.SignedPortion()));
  }

  // ----- Altered envelopes

  /** The scheme verifies nothing but what the sender signed. */
  ghost predicate VerifiesOnly(signed: iset<Bytes>, verify: (Bytes, Bytes) -> bool) {
    forall signature: Bytes, message: Bytes :: verify(signature, message) ==> message in signed
  }

  /** Whatever part of the signed bytes was altered, both decoders refuse before any key is derived: the
      answer is the same for every derivation and every AEAD. */
  lemma AlteredIsRefused<K(!new), S(!new)>(envelope: Bytes, signed: iset<Bytes>, verify: (Bytes, Bytes) -> bool,
                                           deriveH: (Bytes, Bytes) -> Option<(K, S)>,
                                           deriveR: (Bytes, nat) -> Option<(K, S)>,
                                           open: (K, Bytes, Bytes) -> Option<Bytes>)
    requires VerifiesOnly(signed, verify)
    requires |envelope| >= 3309 ==> envelope[..|envelope| - 3309] !in signed
    ensures HandshakeDecoding(envelope, verify, deriveH, open)
         == Failed(if HandshakeShaped(envelope) then SignatureFailure
                   else if |envelope| >= 4474 && envelope[0] != 0x02 then UnrecognizedVersion else Malformed)
    ensures RatchetDecoding(envelope, verify, deriveR, open)
         == Failed(if RatchetShaped(envelope) then SignatureFailure
                   else if |envelope| >= 3390 then UnrecognizedVersion else Malformed)
  {
    hide ReadUint32BE;
    if |envelope| >= 3309 {
      assert !verify(envelope[|envelope| - 3309..], envelope[..|envelope| - 3309]);
    }
    if |envelope| >= 1125 {
      FourZeros(envelope, 1121);
    }
  }

  /** So whatever decodes hands on the fields of some envelope that the sender signed. */
  lemma DecodedWasSigned<K(!new), S(!new)>(envelope: Bytes, sent: seq<RatchetFields>, verify: (Bytes, Bytes) -> bool,
                                           derive: (Bytes, nat) -> Option<(K, S)>,
                                           open: (K, Bytes, Bytes) -> Option<Bytes>)
    returns (k: nat)
    requires forall i :: 0 <= i < |sent| ==> sent[i].Sized()
    requires VerifiesOnly(iset i | 0 <= i < |sent| :: sent[i].SignedPortion(), verify)
    requires RatchetDecoding(envelope, verify, derive, open).Decoded?
    ensures k < |sent| && envelope[..|envelope| - 3309] == sent[k].SignedPortion()
    ensures RatchetDecoding(envelope, verify, derive, open)
         == Opened(derive(sent[k].dhPublicKey, sent[k].messageNumber % TWO_TO_THE_32), open, sent[k].nonce, sent[k].ciphertext)
  {
    hide ReadUint32BE, WriteUint32BE;
    var message := envelope[..|envelope| - 3309];
    assert verify(envelope[|envelope| - 3309..], message);
    k :| 0 <= k < |sent| && message == sent[k].SignedPortion();
    RatchetLayout(sent[k]);
  }
}
