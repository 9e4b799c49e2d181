# Epistl, verified

A Dafny model of the parts of Epistl, an end-to-end encrypted messenger, whose correctness depends on
more than one function at a time, and proofs of what those parts are for. Every statement below is proved
for all inputs, all runs or all reachable states of the model; a property the code does not have comes with
an input that breaks it and the exact condition under which it holds.

`dafny verify dfyconfig.toml` checks the project.

## What is modelled

**The session protocol** (`Keys`, `Session`, `RatchetRun`). A PQXDH handshake followed by a Double
Ratchet in which skipped-message keys are dropped, so every gap fails closed. Keys are terms of a free
algebra: an X25519 agreement is an unordered pair of secrets, each KDF and the KEM secret are
constructors, an AEAD opens only under the same key, nonce and AAD, and a signature is made only by its
signer. `RatchetRun` runs two parties against a network that may drop, reorder, replay and invent
envelopes. Its invariant places both parties on the rungs of one ladder of ratchet secrets, always one
apart, and stamps every message ever sent with the chain and number it was sealed under. Hypotheses,
part of `Allowed` and `Enabled`: one side initiates, its handshake envelope is handed over once, and
receives of one contact do not overlap. Handshakes of other signers may be invented like anything else. FIFO
delivery each way, with counters below 2^32, is assumed only by the lemmas of its section.

**The shared session store** (`SharedSession`, `SharedReceive`). The app and the notification process
receive over one store. A receive is split at each of its awaits; any number of them interleave, and
the lock is granted whenever the environment likes, so nothing rests on mutual exclusion. A successful
decode may end in any next state, since a ratchet step draws a secret. A write that throws may have
taken effect first. `SharedReceive` is the same code as methods with early exits; with others stepping in
at every await, its execution is proved to be a run of the split form, and its result and the store it leaves
are pinned down from what each await finds and answers.

**The envelope bytes and codecs** (`Words`, `Utf8`, `Base64`, `EnvelopeBytes`). Loops over byte and
code-unit sequences with JavaScript's 32-bit bitwise arithmetic written out. Signature, key derivation
and AEAD are function parameters of the envelope decoders.

**The transport store** (`Transport`, `TransportRuns`, `TransportWinner`, `TransportHeld`, `TransportEffects`,
`TransportStore`). QUIC first, WebSocket as fallback, with generations, attempts, timers and promises that
resolve late or reject. `Transport` has one function per handler; `TransportStore` is the class with the
module's variables, each method proved against the function of its handler, and `Drive` states of the
variables what holds of the runs. The drivers may report anything in any order that `Possible` lets through.
`TransportRuns` assumes no more. `TransportEffects` says by variable, naming no handler, when a step changes it
and to what. `TransportWinner` is about runs of `Expected` events, and `SafeIff` shows
that these are exactly the safe ones: a QUIC rejection for an undecided attempt that has dialled WebSocket
is not expected, nor is a close of a QUIC dial that never resolved, where the listener's guard compares
null with null and there is something to disturb.

**The relay and its registry** (`Registry`, `Relay`, `RelayOutcomes`, `RelayAlone`). Connections over both transports
register, are replaced, and clean up; sends, catch-up fetches and redeliveries interleave with them over
channels, a registry map and per-user queues. `RelayAlone` says what each task comes to when nothing steps in.

**Contacts** (`Contacts`, `ContactRaces`). The two tables and five handlers, first in serial runs, then
with the statements of their transactions interleaved under row locks.

**Text and limits** (`ShellJoin`, `Text`, `Profile`, `RateLimiter`). Shell quoting against a shell's own
word splitting, the idempotent profile block, and the fixed-window limiter over all request histories.

## Where the code does not do what was expected of it

Each with an input and the exact condition.

- A QUIC rejection that arrives after the timer has dialled WebSocket dials it again
  (store.ts:374-385, nothing looks at `ws`). If both sockets open, the loser marks the winner discarded:
  its frames are dropped, its close goes unnoticed, and the store shows 'connected' for good
  (`RejectionStrandsTheStore`). `DialsOnceIff` says when every attempt dials once.
- A QUIC close reported for a dial that has not resolved passes the guard `null === null`
  (store.ts:335-338) and forks the generation (`EarlyCallbackForks`). `SafeIff` says exactly which such closes
  do harm: those that find anything pending or connected, and those that would take a disconnected store
  out of 'disconnected'. Early frames do none.
- A `getToken()` that rejects is caught by nothing (store.ts:182): the store shows 'connecting' with nothing
  pending (`RejectedTokenStrands`). `NeverStuck` says that this is the only way: it happens exactly if the
  generation's latest token call was rejected and no timer is due.
- `send` is documented as a no-op while not connected (store.ts:65-68); the code hands the frame to any
  socket it holds (`SendsWhileConnecting`). `SendsUnconnectedIff` says when it holds one.
- `connect()` on a connected store leaves the connection it supersedes open. `SupersededLeftOpenIff` says when,
  and `SupersededSocketClosedIff` and `SupersededQuicClosedIff` what still closes it.
- The registry's entry is not always the latest connection that has not cleaned up: when a replacer
  cleans up before the connection it replaced, no entry is left (`OutlivedReplacerLeavesNoEntry`).
  `EntryIsLatestLiveIff` says exactly when it is.
- A send that reports `queue_unavailable` "is not delivered by any path" (relay.rs:225-226) if and only if its
  publish was not stored with the confirmation lost (`UnavailableCopiedIff`); `UnavailableYetDelivered` is a
  run in which it is delivered.
- Two users who ask each other at the same time can end with two pending requests between them, since the
  unique index is on ordered pairs (`CrossedAsksLeaveTwoPending`). `OnePendingIff` says exactly which
  interleavings do it.
- A user who asks twice, with the first request accepted before the second is inserted, ends with a request
  pending towards a contact (`AskedTwiceLeavesRequestBetweenContacts`). `ApartIff` is the exact condition.
- A receive that fails has not always left the store alone: a write may throw after taking effect
  (`LateThrowCommits`). `FailureCommittedIff` says that this is the only way.
- `ensure_profile_block` is not idempotent after an unterminated begin marker, nor for a body with an end
  marker in it; in all other cases it is (`IdempotentIff`).
- `shell_join` prints an empty argument as nothing (`RoundTripIff`).

## Model

| member | source | states |
|---|---|---|
| Keys.AtMostIsTotalAndAntisymmetric | apps/mobile/src/crypto/session.ts:78-81 | the sort that canonicalises the two user ids has one answer for any two |
| Keys.RootKeyInfoIsSymmetric | apps/mobile/src/crypto/session.ts:78-81 | both parties derive the same info string, whoever initiated |
| Keys.AtMostIff | apps/mobile/src/crypto/session.ts:78-81 | the order the ids are sorted by is that of their first difference, a prefix coming first |
| Keys.RootKeyInfoIs | apps/mobile/src/crypto/session.ts:78-81 | for either order of the two ids the info string is the prefix, the smaller id, a slash and the larger id |
| Keys.RootKeyInfoNamesPair | apps/mobile/src/crypto/session.ts:63-81 | different pairs of ids, all of one length, get different info strings |
| Session.DecodeSpendsItsKey | apps/mobile/src/crypto/session.ts:450-498 | from a well-formed state any envelope that decodes opens a key not spent before and spends it; spent keys stay spent |
| Session.SpentNeverDecodes | apps/mobile/src/crypto/envelope.ts:314-360 | an envelope whose key is spent never decodes again, whatever its header claims and whatever secret is drawn |
| Session.SendKeepsWellFormed | apps/mobile/src/crypto/session.ts:396-423 | from a well-formed state a send always has a chain and leaves a well-formed state with nothing un-spent |
| Session.DefensiveBranchUnreachable | apps/mobile/src/crypto/session.ts:450-498 | the null-chain branch of the receive derivation is not taken from a well-formed state |
| Session.DirectionAadNamesRecipient | apps/mobile/src/crypto/envelope.ts:103-105 | the unseparated AAD still tells recipients apart, their ids being of one length |
| Session.DirectionAadNamesBoth | apps/mobile/src/crypto/envelope.ts:103-105 | the AAD is the sender followed by the recipient, and tells both apart from any other two of these lengths |
| Session.SentEnvelopeIs | apps/mobile/src/crypto/envelope.ts:266-282 | a sent envelope carries the current ratchet key, the length of the sending chain before and the message's place in this one modulo 2^32, sealed in this direction under the chain's next key; only the chain and its counter move; without a chain the send throws |
| Session.RatchetDecodesIff | apps/mobile/src/crypto/envelope.ts:314-360 | a ratchet envelope decodes if and only if the expected sender signed it and it was sealed with its nonce and for this direction under the next key of its chain; each failure reason has exactly its one cause |
| Session.DecodedStateIs | apps/mobile/src/crypto/session.ts:286-307 | within a chain a decode moves that chain only; at a new ratchet key it takes two root steps, the second with a fresh key pair for sending, and keeps the length of the old sending chain |
| Session.HandshakeDecodesIff | apps/mobile/src/crypto/envelope.ts:187-243 | a handshake decodes if and only if the sender signed it, its number is 0, and it was sealed in this direction under the first key that the static agreement and the encapsulated secret begin for this pair; each failure reason has exactly its one cause, and `rejected` is never given |
| RatchetRun.StepInv | apps/mobile/src/crypto/session.ts:286-498 | every send and every delivery of any envelope keeps the invariant between both states and both logs |
| RatchetRun.ExecInv | apps/mobile/src/crypto/session.ts:286-498 | the invariant holds at the end of every run |
| RatchetRun.SendInv | apps/mobile/src/crypto/session.ts:396-423 | a send keeps the invariant: the message is sealed under the next stamp of the sender's chain |
| RatchetRun.SpeakOk | apps/mobile/src/crypto/session.ts:396-423 | in a run a send never throws |
| RatchetRun.HandshakeAgrees | apps/mobile/src/crypto/session.ts:317-386 | the responder derives from the handshake envelope the keys the initiator made it with |
| RatchetRun.RatchetHolds | apps/mobile/src/crypto/session.ts:286-307 | one DH ratchet step moves a party two rungs up, onto the keys its peer derives |
| RatchetRun.AcceptsExactly | apps/mobile/src/crypto/session.ts:450-498 | a peer's envelope decodes if and only if it is the next number of the current receiving chain or the first of the next |
| RatchetRun.AcceptedIsSubsequence | apps/mobile/src/crypto/session.ts:450-498 | whatever the network does, what a party accepts is a strictly increasing subsequence of what its peer said |
| RatchetRun.NeverAcceptedTwice | apps/mobile/src/crypto/envelope.ts:314-360 | an accepted ratchet envelope is refused ever after, across any sends, receipts and ratchet steps |
| RatchetRun.ForeignFails | apps/mobile/src/crypto/envelope.ts:187-360 | an envelope the peer did not sign, handshake or ratchet, or signed for someone else, fails |
| RatchetRun.ErrorBranchesUnreachable | apps/mobile/src/crypto/session.ts:396-498 | in every run neither the throw of a send nor the defensive branch of a receive is reached |
| RatchetRun.NextInOrderDecodesIffFits | apps/mobile/src/crypto/session.ts:450-498 | delivered in order, the next ratchet envelope decodes if and only if its number fits the four-byte field |
| RatchetRun.ArriveDecodes | apps/mobile/src/crypto/session.ts:359-498 | with FIFO delivery the next envelope, handshake or ratchet, always decodes |
| RatchetRun.FifoAgreement | apps/mobile/src/crypto/session.ts:286-498 | with FIFO delivery what a party shows is exactly what its peer said, up to the last envelope delivered |
| RatchetRun.DrainedChainsAgree | apps/mobile/src/crypto/session.ts:286-498 | once everything sent is delivered and the peer has seen the sender's current ratchet key, the sender's chain and counter are the ones its peer receives on |
| SharedSession.StepInv | apps/mobile/src/crypto/notificationDecrypt.ts:123-205 | every answered await of every call, and every deletion, keeps the invariant of store, records and calls |
| SharedSession.ExecInv | apps/mobile/src/crypto/notificationDecrypt.ts:123-205 | the invariant holds after every interleaving |
| SharedSession.StoreIsOneChain | apps/mobile/src/crypto/notificationDecrypt.ts:43-62 | generation n+1 is a successful decode from the state at generation n, and the stored session is the end of that chain |
| SharedSession.OneWinnerPerGeneration | apps/mobile/src/crypto/notificationDecrypt.ts:181-195 | each generation has one writer, each call writes at most once, and a writer reports success, or `storage_error` if its write threw after taking effect |
| SharedSession.StoreChangesOnlyByCommit | apps/mobile/src/crypto/notificationDecrypt.ts:123-205 | nothing but a successful compare-and-set or the app's deletion changes the store |
| SharedSession.FailureCommittedIff | apps/mobile/src/crypto/notificationDecrypt.ts:123-205 | a call that returned a failure has committed if and only if its write threw after taking effect, and then the failure is `storage_error` |
| SharedSession.UnconfirmedIsLate | apps/mobile/src/crypto/notificationDecrypt.ts:181-198 | a commit goes unconfirmed exactly when its write throws after taking effect |
| SharedSession.LateThrowCommits | apps/mobile/src/crypto/notificationDecrypt.ts:181-198 | any call about to win its write commits and fails on such a throw |
| SharedSession.LockReleasedOnce | apps/mobile/src/crypto/notificationDecrypt.ts:129-205 | a finished call has released exactly what it acquired, at most one lock; without one it timed out |
| SharedSession.ReceivesAgree | apps/mobile/src/crypto/notificationDecrypt.ts:109-205 | two successful receives of one envelope return the same plaintext, decoded, cached or read after a lost race |
| SharedSession.RecordIsStored | apps/mobile/src/crypto/notificationDecrypt.ts:109-121 | the record of a message is that of its latest commit since the app last deleted it |
| SharedSession.LoserReadsWinner | apps/mobile/src/crypto/notificationDecrypt.ts:187-194 | a lookup, first or after a lost race, returns a plaintext exactly if it is the record's and the record is of this very envelope; a loser without one reports the conflict |
| SharedSession.SpentAlongChain | apps/mobile/src/crypto/notificationDecrypt.ts:164-185 | the key of every commit is spent at every later state of the chain |
| SharedSession.AdvancesOncePerEnvelope | apps/mobile/src/crypto/notificationDecrypt.ts:123-205 | no two commits, by whatever processes, are of the same envelope |
| SharedReceive.SessionStore.Write | apps/mobile/src/crypto/notificationDecrypt.ts:43-62 | an atomic compare-and-set: succeeds exactly at the expected generation, then bumps it and stores the record; else changes nothing |
| SharedReceive.SessionStore.Let | apps/mobile/src/crypto/notificationDecrypt.ts:123-205 | what others do during an await is what the split form lets them do, and leaves this call where it stands |
| SharedReceive.OthersPassBy | apps/mobile/src/crypto/notificationDecrypt.ts:123-205 | what others do does not depend on where a call stands |
| SharedReceive.Locked | apps/mobile/src/crypto/notificationDecrypt.ts:138-198 | the code between acquire and release, with its early exits and others stepping in at each await, is a run of the split form; a read that throws or finds no session ends it |
| SharedReceive.LookAndDecode | apps/mobile/src/crypto/notificationDecrypt.ts:144-158 | a run of the split form; and, as others leave the store: a record of this envelope is returned, an envelope starting with 0x02 is unsupported, one not starting with 0x03 corrupt, and all others go on to be decoded |
| SharedReceive.DecodeAndWrite | apps/mobile/src/crypto/notificationDecrypt.ts:159-195 | a run of the split form; and, without a key `no_session`, on a failed decoding the reason it maps to, and on a good one the write |
| SharedReceive.Recheck | apps/mobile/src/crypto/notificationDecrypt.ts:187-194 | a run of the split form; and the plaintext recorded for this envelope if there is one, else the conflict, and the store as others leave it |
| SharedReceive.WriteBack | apps/mobile/src/crypto/notificationDecrypt.ts:180-195 | a run of the split form; and at the expected generation exactly one commit, success unless the write threw late, otherwise nothing written |
| SharedReceive.ReceiveLocked | apps/mobile/src/crypto/notificationDecrypt.ts:123-205 | a receive, whatever others do at each await, is a run of the split form. Success and each of the seven failures are returned if and only if a stated condition on the awaits and the store at them holds. The store ends moved on by exactly the one commit of the decoded state, record and plaintext, or as others alone leave it. With the lock and the key granted, nothing throwing, no record, nobody else moving the session and an envelope that decodes, the plaintext is returned and the session moves |
| SharedReceive.LockedAnswers | apps/mobile/src/crypto/notificationDecrypt.ts:138-198 | the if-and-only-if of success and of every failure, from the parts of the body |
| SharedReceive.LockedLeaves | apps/mobile/src/crypto/notificationDecrypt.ts:138-204 | the store a receive leaves, with others going on until the release |
| Utf8.Utf8Bytes | apps/mobile/src/utils/base64.ts:13-46 | the encoding loop computes `Encoded` for every sequence of code units |
| Utf8.DecodeUtf8Bytes | apps/mobile/src/utils/base64.ts:48-96 | the decoding loop terminates on every byte sequence and computes `Decoded` |
| Utf8.RoundTrip | apps/mobile/src/utils/base64.ts:13-96 | decoding an encoding returns the code units, lone surrogates included |
| Utf8.MalformedIsDropped | apps/mobile/src/utils/base64.ts:48-96 | a byte that can begin no character, anywhere in between, and a character cut off at the end are dropped and nothing else is |
| Utf8.LeadTakesAll | apps/mobile/src/utils/base64.ts:56-93 | a lead byte takes as many bytes as it announces, whatever they are, by their low six bits |
| Utf8.EncodePointIsRfc3629 | apps/mobile/src/utils/base64.ts:29-43 | each scalar value is encoded as section 3 of RFC 3629 says |
| Utf8.EncoderMatchesRfc3629 | apps/mobile/src/utils/base64.ts:13-46 | on well-formed UTF-16 the output is the RFC 3629 encoding of its scalar values |
| Utf8.Rfc3629IsUnique | apps/mobile/src/utils/base64.ts:29-43 | the reference admits one byte sequence per scalar value |
| Base64.BytesToBase64 | apps/mobile/src/utils/base64.ts:118-134 | the encoding loop computes the base64 of section 4 of RFC 4648 |
| Base64.Base64ToBytes | apps/mobile/src/utils/base64.ts:136-156 | the decoding loop computes `Decoded` although its accumulator overflows as a signed 32-bit integer |
| Base64.Rfc4648Length | apps/mobile/src/utils/base64.ts:118-134 | the output has 4·ceil(n/3) characters |
| Base64.PushedOctet | apps/mobile/src/utils/base64.ts:143-153 | the octet pushed depends only on the last two sextets, whatever the accumulator has overflowed to |
| Base64.AccumulateOne | apps/mobile/src/utils/base64.ts:143-153 | shifting one character in keeps bytes and pending bits those of the characters read |
| Base64.IndexUndoes | apps/mobile/src/utils/base64.ts:118-156 | looking a written character up gives its sextet back, and no written character is padding |
| Base64.StripRemovesPadding | apps/mobile/src/utils/base64.ts:136-139 | stripping the padding leaves exactly the characters of the data |
| Base64.RoundTrip | apps/mobile/src/utils/base64.ts:118-156 | decoding the base64 of any byte sequence returns it |
| Base64.OnlyAlphabetCounts | apps/mobile/src/utils/base64.ts:136-156 | characters outside the alphabet, padding among them, change nothing wherever they stand; four that count make three bytes, rounded down |
| Base64.TextRoundTrip | apps/mobile/src/utils/base64.ts:98-181 | text survives `utf8ToBase64` and `base64ToUtf8` |
| EnvelopeBytes.WriteThenRead | apps/mobile/src/crypto/envelope.ts:78-95 | reading a written number anywhere in an envelope gives it back modulo 2^32 |
| EnvelopeBytes.ReadThenWrite | apps/mobile/src/crypto/envelope.ts:78-95 | writing a read number gives the four bytes back |
| EnvelopeBytes.ReadIsBigEndian | apps/mobile/src/crypto/envelope.ts:87-95 | a read field is the number whose base-256 digits its bytes are, highest first |
| EnvelopeBytes.HandshakeLayout | apps/mobile/src/crypto/envelope.ts:139-152 | version, EA, KEM ciphertext, number 0, nonce and AEAD ciphertext stand at 0, 1, 33, 1121, 1125 and 1149 |
| EnvelopeBytes.RatchetLayout | apps/mobile/src/crypto/envelope.ts:266-279 | version, ratchet key, both numbers, nonce and ciphertext stand at 0, 1, 33, 37, 41 and 65 |
| EnvelopeBytes.DecodeHandshakeEnvelope | apps/mobile/src/crypto/envelope.ts:187-243 | the offset walk is in bounds on every input. Each failure reason and success is given if and only if a stated condition on the bytes, the signature check, the derivation and the AEAD holds; an envelope whose signature does not verify never decodes |
| EnvelopeBytes.DecodeRatchetEnvelope | apps/mobile/src/crypto/envelope.ts:314-360 | the same for ratchet envelopes |
| EnvelopeBytes.HandshakeRoundTrip | apps/mobile/src/crypto/envelope.ts:139-243 | decoding an encoded handshake derives from the very key and KEM ciphertext and opens the very nonce and ciphertext |
| EnvelopeBytes.RatchetRoundTrip | apps/mobile/src/crypto/envelope.ts:266-360 | decoding an encoded ratchet envelope derives from the very header, numbers modulo 2^32, and opens the very nonce and ciphertext |
| EnvelopeBytes.PlaintextRoundTrip | apps/mobile/src/crypto/envelope.ts:266-360 | with a working AEAD and the same key derived, the plaintext comes back |
| EnvelopeBytes.VersionsNeverConfused | apps/mobile/src/crypto/envelope.ts:187-360 | neither decoder takes an envelope of the other version |
| EnvelopeBytes.RatchetEncodingInjective | apps/mobile/src/crypto/envelope.ts:266-282 | equal encodings have equal headers modulo 2^32, nonces and ciphertexts |
| EnvelopeBytes.AlteredIsRefused | apps/mobile/src/crypto/envelope.ts:187-360 | under a scheme that verifies only what was signed, an envelope whose signed bytes were altered in any way is refused by both decoders before anything is derived |
| EnvelopeBytes.DecodedWasSigned | apps/mobile/src/crypto/envelope.ts:314-360 | what decodes derives from and opens the very fields of an envelope the sender signed |
| TransportRuns.StaleIsolation | apps/mobile/src/transport/store.ts:199-387 | no event of a superseded generation or attempt changes status, carrier, last frame or backoff or starts anything, and a connection it brings up is closed by its handler |
| TransportRuns.ClosedUntilConnect | apps/mobile/src/transport/store.ts:409-421 | after `close()` the store stays disconnected, dials and sets nothing, and closes whatever comes up, until `connect` |
| TransportRuns.StepKeeps | apps/mobile/src/transport/store.ts:254-387 | a step dials one socket, for the undecided attempt whose QUIC just failed or timed out, or none; settled attempts stay settled |
| TransportRuns.ConnectedBySettling | apps/mobile/src/transport/store.ts:220-239 | the store becomes connected only in the step that settles the attempt under way |
| TransportRuns.NeverTwoLive | apps/mobile/src/transport/store.ts:175-387 | in every run, of two sockets of an attempt that are up, or a socket that is up and a QUIC connection that is open, one has been closed by the store |
| TransportRuns.DialsOnceIff | apps/mobile/src/transport/store.ts:250-260 | every attempt dials WebSocket at most once if and only if no QUIC rejection arrives for an undecided attempt that has dialled |
| TransportRuns.StepBackoff | apps/mobile/src/transport/store.ts:159-170 | only a scheduled reconnect doubles the backoff, only a success or `connect` resets it |
| TransportRuns.BackoffIsExact | apps/mobile/src/transport/store.ts:83-170 | backoffMs is min(1000·2^k, 30000) for the k reconnects since the last success or `connect`, and every delay lies within a fifth of a backoff |
| TransportRuns.Jittered | apps/mobile/src/transport/store.ts:114-117 | a delay lies in [0.8, 1.2) times the backoff it was made from |
| TransportEffects.DelayIs | apps/mobile/src/transport/store.ts:114-117 | the delay is the backoff times 0.8 + 0.4 of the draw |
| TransportEffects.StepExactly | apps/mobile/src/transport/store.ts:158-424 | when each variable and each local of each attempt changes in a step, and to what, told by variable: the frame shown changes exactly at a parseable frame of an attempt neither stale nor discarded, or one QUIC's guard lets through; the status, carrier, backoff, timers, token calls, references, dials, closes and settled flags likewise |
| TransportEffects.DescribedIff | apps/mobile/src/transport/store.ts:158-424 | a state meets that description if and only if it is the one the step leads to |
| TransportEffects.LastFrameIs | apps/mobile/src/transport/store.ts:262-334 | in every run the frame shown is the last one that reached the reader |
| TransportEffects.LiveFramesAreShown | apps/mobile/src/transport/store.ts:262-334 | in every expected run a frame reported by the live connection of the current generation, WebSocket or QUIC, is shown |
| TransportWinner.StepInv | apps/mobile/src/transport/store.ts:158-424 | every expected event keeps the invariant of attempts, connections, timers and token calls |
| TransportWinner.ExecInv | apps/mobile/src/transport/store.ts:158-424 | the invariant holds after every run of expected events |
| TransportWinner.WinnerHolds | apps/mobile/src/transport/store.ts:175-407 | the current generation has one live connection while connected, on the carrier shown and where `send` goes, and none while not |
| TransportWinner.NeverStuck | apps/mobile/src/transport/store.ts:159-387 | while connecting or reconnecting exactly one of a timer, a token call and an attempt is pending, and one that can report; nothing is, if and only if the generation's latest token call was rejected and no timer is due |
| TransportWinner.RejectedTokenStrands | apps/mobile/src/transport/store.ts:175-185 | the run that gets there |
| TransportWinner.StuckStays | apps/mobile/src/transport/store.ts:175-185 | from there nothing begins, short of `connect`, `close` or a close of a QUIC dial that never resolved |
| TransportWinner.SafeIff | apps/mobile/src/transport/store.ts:250-387 | an event leaves every expected continuation with the one live winner, and 'disconnected' idle and left only by `connect`, if and only if it is expected |
| TransportWinner.RunIsSafeIff | apps/mobile/src/transport/store.ts:250-387 | every step of a run is safe if and only if every event of it is expected |
| TransportWinner.SecondDialIsUnsafe | apps/mobile/src/transport/store.ts:254-289 | from every reachable state, after a second dial the first socket to open wins and frames go to the other |
| TransportWinner.EarlyCloseIsUnsafe | apps/mobile/src/transport/store.ts:335-346 | from every reachable state, an early close that finds anything pending or connected leads to a winner that is not the one live connection, or to 'disconnected' with something pending |
| TransportWinner.EarlyClosedInv | apps/mobile/src/transport/store.ts:335-346 | any other early close keeps the invariant, and changes nothing where it is ignored or the store is disconnected |
| TransportWinner.DisconnectedUntilConnect | apps/mobile/src/transport/store.ts:186-421 | once disconnected, for whatever reason, nothing starts until `connect` |
| TransportWinner.UnauthorizedIsTerminal | apps/mobile/src/transport/store.ts:291-346 | an unauthorized close of the connection in use schedules nothing, and nothing follows it until `connect` |
| TransportWinner.RejectionStrandsTheStore | apps/mobile/src/transport/store.ts:275-297 | a run with a late QUIC rejection ends connected to nothing, with nothing pending |
| TransportWinner.EarlyCallbackForks | apps/mobile/src/transport/store.ts:328-346 | a run with a QUIC close before `connectQuic` resolves ends with two live connections |
| TransportHeld.SendsUnconnectedIff | apps/mobile/src/transport/store.ts:402-408 | while not connected, `send` hands a frame somewhere if and only if the undecided attempt under way has dialled WebSocket or a superseded generation's socket is held, and to that one |
| TransportHeld.SendsWhileConnecting | apps/mobile/src/transport/store.ts:402-408 | a run in which a frame goes to a socket that is dialling |
| TransportHeld.SupersededLeftOpenIff | apps/mobile/src/transport/store.ts:390-421 | `connect` leaves a connection of the generation it supersedes open if and only if the store was connected; `close` leaves none |
| TransportHeld.SupersededSocketClosedIff | apps/mobile/src/transport/store.ts:409-421 | a superseded generation's live socket is told to close exactly by `close`, while the store still holds it |
| TransportHeld.SupersededQuicClosedIff | apps/mobile/src/transport/store.ts:409-421 | the same for its QUIC connection |
| TransportStore.Store.Drive | apps/mobile/src/transport/store.ts:126-424 | whatever is reported from the start, the variables hold the exact backoff and the last frame that reached the reader, nothing has happened since a `close` without a `connect`, and after expected events the winner is the one live connection and a frame it has just reported is shown |
| TransportStore.Store.Handle | apps/mobile/src/transport/store.ts:158-424 | one event does to the variables what the step does, and what the description by variable says |
| TransportStore.Store.constructor | apps/mobile/src/transport/store.ts:126-157 | the variables' initial values are the runs' start |
| TransportStore.Store.Connect | apps/mobile/src/transport/store.ts:390-401 | does to the variables what the `connect` step does |
| TransportStore.Store.Close | apps/mobile/src/transport/store.ts:409-421 | does to the variables what the `close` step does |
| TransportStore.Store.ScheduleReconnect | apps/mobile/src/transport/store.ts:159-170 | status, backoff and timer change together, or nothing does if superseded |
| TransportStore.Store.OnReconnectTimer | apps/mobile/src/transport/store.ts:166-169 | does what the timer step does |
| TransportStore.Store.AttemptConnect | apps/mobile/src/transport/store.ts:175-182 | asks for a token unless superseded |
| TransportStore.Store.OnToken | apps/mobile/src/transport/store.ts:183-212 | does what the token step does: nothing, disconnect, or a new attempt |
| TransportStore.Store.OnTokenFailed | apps/mobile/src/transport/store.ts:182 | a rejected token call ends, and nothing else happens |
| TransportStore.Store.FinishWithQuic | apps/mobile/src/transport/store.ts:220-233 | the win of QUIC, with WebSocket discarded |
| TransportStore.Store.FinishWithWs | apps/mobile/src/transport/store.ts:235-239 | the win of WebSocket |
| TransportStore.Store.GiveUp | apps/mobile/src/transport/store.ts:244-248 | the attempt settles and a reconnect is scheduled |
| TransportStore.Store.StartWs | apps/mobile/src/transport/store.ts:254-260 | dials unless stale or settled |
| TransportStore.Store.OnWsMessage | apps/mobile/src/transport/store.ts:262-273 | the frame shown becomes this one if it parses and its attempt is under way in an open store and not discarded, and stays otherwise |
| TransportStore.Store.OnWsOpen | apps/mobile/src/transport/store.ts:275-289 | does what the open step does |
| TransportStore.Store.OnWsClose | apps/mobile/src/transport/store.ts:291-319 | does what the close step does |
| TransportStore.Store.OnQuicFrame | apps/mobile/src/transport/store.ts:329-334 | the frame shown becomes this one if the connection is the store's, and stays otherwise |
| TransportStore.Store.OnQuicClosed | apps/mobile/src/transport/store.ts:335-346 | does what the QUIC close step does |
| TransportStore.Store.OnQuicTimer | apps/mobile/src/transport/store.ts:349-359 | does what the QUIC timer step does |
| TransportStore.Store.OnQuicResolved | apps/mobile/src/transport/store.ts:362-373 | does what the resolution step does |
| TransportStore.Store.OnQuicRejected | apps/mobile/src/transport/store.ts:374-385 | does what the rejection step does |
| TransportStore.Store.Send | apps/mobile/src/transport/store.ts:402-408 | hands the frame where `SendTarget` says |
| Registry.ConnectionRegistry.Insert | apps/api/src/registry.rs:56-61 | registers the sender, returns the one it replaces, touches no other user |
| Registry.ConnectionRegistry.Get | apps/api/src/registry.rs:63-67 | the user's entry |
| Registry.ConnectionRegistry.RemoveIfCurrent | apps/api/src/registry.rs:69-81 | removes the entry exactly if it is still the sender's |
| Registry.EntryIsLastInserted | apps/api/src/registry.rs:56-81 | in every run over both transports the entry is the connection inserted last, exactly until it cleans up |
| Registry.EntryIsLatestLiveIff | apps/api/src/ws.rs:96-148 | the entry is the latest connection not cleaned up if and only if the one inserted last has not cleaned up or all have |
| Registry.OutlivedReplacerLeavesNoEntry | apps/api/src/quic.rs:284-327 | a run in which a replaced connection outlives its replacer and has no entry |
| Registry.CleanUpSparesOthers | apps/api/src/ws.rs:145-147 | a connection's cleanup removes no entry but its own; a replaced one's changes nothing |
| Registry.ReplacedClosedOnce | apps/api/src/ws.rs:100-105 | a connection that had not cleaned up when the next was inserted is sent 4002 once, by that next one; nobody else is |
| Relay.StepMoves | apps/api/src/relay.rs:82-348 | in every step what leaves the queue has been pushed, sequence numbers are not used again, and pushed frames stay |
| Relay.StepInv | apps/api/src/relay.rs:82-348 | every step of every task keeps the invariant of registry, channels, queue and tasks |
| Relay.ExecInv | apps/api/src/relay.rs:82-348 | the invariant holds after every interleaving |
| Relay.AckedIsConserved | apps/api/src/relay.rs:158-297 | every message whose sender was acked is in its addressee's queue or was pushed to a channel of the addressee |
| RelayOutcomes.AcksAreCounted | apps/api/src/relay.rs:158-297 | a channel carries exactly as many acks for a user as it has acked sends to that user |
| RelayOutcomes.OthersCopyNothing | apps/api/src/relay.rs:82-348 | only its own send makes the first copy of a message |
| RelayOutcomes.UnavailableCopiedIff | apps/api/src/relay.rs:244-297 | a message answered with `queue_unavailable` is queued or pushed if and only if its publish was stored and the confirmation lost |
| Relay.NoStrayCopy | apps/api/src/relay.rs:82-348 | no copy is queued for or pushed to anyone but the addressee, and only sends to contacts have copies |
| Relay.LeavesOnlyAfterPush | apps/api/src/relay.rs:111-134 | a queued message stays queued until it has been pushed to a channel of its addressee |
| Relay.RefusedHasNoCopy | apps/api/src/relay.rs:178-189 | a send refused as not to a contact has no copy anywhere |
| RelayOutcomes.UnavailableYetDelivered | apps/api/src/relay.rs:225-297 | a run in which a send is answered with `queue_unavailable` and its message then pushed to the addressee |
| Relay.DeliverQueuedMessages | apps/api/src/relay.rs:111-134 | pushed are exactly the messages that parse before the first error, in order, as far as there is room, none passed over; removed exactly those of them whose acknowledgement got through; with no error and room enough every message that parses is pushed |
| Relay.DeliversExactly | apps/api/src/relay.rs:111-134 | the same of `Deliver`, with the positions delivered |
| Relay.RemovedWasPushed | apps/api/src/relay.rs:111-134 | what the loop removes it has pushed and had acknowledged, and a channel takes no more frames than it has room for |
| RelayAlone.SendAlone | apps/api/src/relay.rs:158-297 | a send nobody steps into: to a contact who is there it is pushed and acked; otherwise stored, acked and offered for redelivery, or refused as the publish ends; to anyone else refused |
| RelayAlone.RedeliveryAlone | apps/api/src/relay.rs:331-348 | a redelivery nobody steps into is pushed to a user who is there by then and leaves the queue if the delete gets through; else nothing happens |
| RelayAlone.CatchUpAlone | apps/api/src/relay.rs:111-134 | a catch-up nobody steps into pushes all it fetched in order and removes what is acknowledged |
| RelayAlone.ConnectDelivers | apps/api/src/relay.rs:82-134 | a user who connects has every message of the fetch pushed to the new channel, and exactly the acknowledged ones leave the queue |
| RelayAlone.ChannelEvents | apps/api/src/relay.rs:140-156 | a channel that leaves or dies is reached no more and nobody else is affected; a frame that does not parse is answered with an error, one that does begins a send |
| Contacts.Service.CreateContactRequest | apps/api/src/contacts.rs:326-470 | each of the six refusals, the internal error and the creation is the answer if and only if a stated condition on payload, users, contacts, requests and failing statements holds; a creation adds exactly one pending request under the next id, and nothing else ever changes anything |
| Contacts.Service.AcceptContactRequest | apps/api/src/contacts.rs:605-676 | 204 if and only if the caller is the recipient of a pending request, 403 and 404 likewise; after 204 requester and recipient are contacts both ways, the request is gone and all else is as it was; after anything else nothing has changed |
| Contacts.Service.DeclineContactRequest | apps/api/src/contacts.rs:756-796 | 204, 403 and 404 each if and only if; after 204 the request is kept as declined and all else is as it was |
| Contacts.Service.CancelContactRequest | apps/api/src/contacts.rs:719-754 | 204, 403 and 404 each if and only if, for the requester; after 204 the request is gone and all else is as it was |
| Contacts.Service.RemoveContact | apps/api/src/contacts.rs:261-316 | 204 if and only if the caller has the contact; then both directions go, and requests stay |
| Contacts.SerialRunsKeep | apps/api/src/contacts.rs:261-796 | in every serial run contacts are symmetric and irreflexive, at most one pending request joins two users, none joins contacts |
| Contacts.RequestWasCreated | apps/api/src/contacts.rs:433-445 | every stored request goes back to a create by its requester |
| Contacts.ContactsConsented | apps/api/src/contacts.rs:605-676 | every contact goes back to a request by one and an accept of that request by the other |
| Contacts.ContactsIff | apps/api/src/contacts.rs:261-676 | in every serial run two users are contacts, in both directions, if and only if an accept of a request between them succeeded after the last successful remove between them |
| Contacts.RequestCanBeUndone | apps/api/src/contacts.rs:261-754 | asking and cancelling, or asking, accepting and removing, restores the tables |
| Contacts.ResolvedOnce | apps/api/src/contacts.rs:566-711 | a resolved request cannot be accepted, declined or cancelled again |
| ContactRaces.OneResolutionCommits | apps/api/src/contacts.rs:605-796 | under every interleaving of statements, with any of them failing, at most one accept, decline or cancel of a request commits |
| ContactRaces.OnePendingIff | apps/api/src/contacts.rs:404-445 | at every point of a run at most one pending request joins two users, if and only if no create inserts while the other user's request is pending |
| ContactRaces.StepOnePendingIff | apps/api/src/contacts.rs:404-445 | the same for one step |
| ContactRaces.CrossedAsksLeaveTwoPending | apps/api/src/contacts.rs:378-446 | an interleaving of two creates that leaves two pending requests between two users |
| ContactRaces.ApartIff | apps/api/src/contacts.rs:378-446 | at every point of a run no pending request joins two contacts, if and only if no create inserts one between contacts and no accept commits beside another pending request of the pair |
| ContactRaces.StepApartIff | apps/api/src/contacts.rs:378-446 | the same for one step |
| ContactRaces.AskedTwiceLeavesRequestBetweenContacts | apps/api/src/contacts.rs:378-676 | an interleaving of two creates and an accept that leaves a pending request between contacts |
| ContactRaces.TransactionAlone | apps/api/src/contacts.rs:605-796 | an accept, decline or cancel that no statement steps into does and answers what the serial one does |
| ContactRaces.CreationAlone | apps/api/src/contacts.rs:378-469 | so does a create |
| ShellJoin.SplitEscaped | packages/dev-setup/src/tools/docker.rs:80 | a quoted argument reads back as itself, single quotes included |
| ShellJoin.ReadsBackNonEmpty | packages/dev-setup/src/tools/docker.rs:72-85 | a shell reads a joined line as its arguments without the empty ones |
| ShellJoin.RoundTripIff | packages/dev-setup/src/tools/docker.rs:72-85 | a shell reads back exactly the arguments if and only if none is empty |
| ShellJoin.DockerCommandLine | packages/dev-setup/src/tools/docker.rs:88-100 | the line given to `sg docker -c` runs docker on the arguments |
| ShellJoin.JoinIsInjective | packages/dev-setup/src/tools/docker.rs:72-85 | lists without empty arguments that print alike are equal |
| ShellJoin.PrintedAsIsIff | packages/dev-setup/src/tools/docker.rs:71-85 | an argument is printed unquoted if and only if it is made of ASCII letters, digits and the eight safe signs; any other stands between single quotes |
| Text.JoinSplits | packages/dev-setup/src/profile.rs:15-29 | lines as the block keeps them survive joining and splitting |
| Text.LinesContain | packages/dev-setup/src/profile.rs:15-19 | a text contains a marker if and only if one of the lines kept of it does |
| Profile.ProfileFile.MergeLines | packages/dev-setup/src/profile.rs:71-80 | the loop computes `Merge` |
| Profile.ProfileFile.EnsureProfileBlock | packages/dev-setup/src/profile.rs:14-53 | leaves the file exactly as it was on AlreadyPresent, and else the text `Ensured` |
| Profile.MergeKeeps | packages/dev-setup/src/profile.rs:71-80 | prior lines come first in their order, every incoming line is there, nothing else is |
| Profile.MergeAddsOnce | packages/dev-setup/src/profile.rs:71-80 | an added line occurs once |
| Profile.MergeInOrder | packages/dev-setup/src/profile.rs:71-80 | the lines added keep the order in which they come in |
| Profile.BlockText | packages/dev-setup/src/profile.rs:27-30 | the block is the begin marker, the lines and the end marker, each on lines of their own |
| Profile.PresentIff | packages/dev-setup/src/profile.rs:32-46 | AlreadyPresent is reported if and only if the text would stay as it is |
| Profile.BlockFound | packages/dev-setup/src/profile.rs:56-104 | a written block is found again, its lines come out as they are, and another takes exactly its place |
| Profile.BlockHoldsMerged | packages/dev-setup/src/profile.rs:14-53 | after a call the block holds the merged lines and a second call reports AlreadyPresent with the text identical |
| Profile.UnterminatedChangesAgain | packages/dev-setup/src/profile.rs:37-45 | after an unterminated begin marker a second call always rewrites the text |
| Profile.IdempotentIff | packages/dev-setup/src/profile.rs:14-53 | a second call reports AlreadyPresent if and only if the text had no unterminated begin marker and the body has no end marker |
| Profile.RestUntouched | packages/dev-setup/src/profile.rs:89-104 | text before the block, and after its end marker and one newline, is untouched; without a block the text is kept, ended with a newline and a blank line; prior lines keep their order, each line of the body is there and nothing else |
| RateLimiter.SearchRateLimiter.TryAcquire | apps/api/src/search.rs:113-129 | a request is admitted if and only if 60 s have passed since the window began or fewer than 30 were counted; a new window begins at that very request |
| RateLimiter.AtMostOneBudgetMore | apps/api/src/search.rs:113-129 | over every non-decreasing history, k windows' time admits at most (k+1)·30 requests |
| RateLimiter.BoundIsReached | apps/api/src/search.rs:113-129 | for every k ≥ 1 a history admits exactly (k+1)·30 in k windows' time |
| RateLimiter.CountIsAccepted | apps/api/src/search.rs:113-129 | the counter is the number of requests accepted since the window began |
| RateLimiter.RefusedOnlyWhenSpent | apps/api/src/search.rs:123-128 | a request is refused only in a window less than 60 s old that has accepted 30 |

## Left out

- ContactRaces.OneResolutionCommits: interleaves accept, decline, cancel and create, not `remove_contact`,
  and takes an accept's inserts to become visible with its commit.
- Contacts.Service.AcceptContactRequest: its database errors, and those of decline, cancel and remove, are only
  in `ContactRaces`, where a failing statement rolls its transaction back.
- EnvelopeBytes.DecodeRatchetEnvelope: signature check, key derivation and AEAD are arbitrary functions.
- Relay.ExecInv: messages do not expire, queued payloads are the relay's own, and a fetch may answer in any
  order; no claim of exactly-once or in-order delivery is made, as the code makes none.
- RatchetRun.FifoAgreement: FIFO delivery and counters below 2^32 are hypotheses. `listener.ts` does not
  serialise frames of one contact and the relay may push a live message ahead of queued ones.
- Replayed handshakes, both sides initiating at once, and overlapping sends: the code gives no guarantee,
  so runs do not contain them.
- `loadSession`, `saveSession`, the session index and `clearAllSessions` (session.ts:110-240): storage
  wrappers.
- Real cryptography: X25519, ML-KEM, ML-DSA, HKDF and XChaCha20-Poly1305 are foreign library code.
- JavaScript numbers beyond 2^53, and crashes between a commit and its caller learning of it.
- Malformed JSON frames beyond their `invalid_payload` answer, and push notifications.
- Postgres, JetStream, Quinn, WebSocket and file system internals, I/O errors of the profile writer, and
  `add_contact`, the legacy one-way endpoint.
- Screens, API clients, avatars, sign-up, key upload, bindings, installers and worktree database names:
  thin wrappers, user interface, or easy branches.
