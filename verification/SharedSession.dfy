/** One contact's session, shared by the app and the notification process
    (apps/mobile/src/crypto/notificationDecrypt.ts).

    A receive is split at every await; any number of receives interleave, in any process. The lock
    is granted whenever the environment likes, so nothing below rests on mutual exclusion.
 */
module SharedSession {
  import opened Wrappers
  import opened Keys
  import opened Session
  import opened Words

  type CallId = nat
  type MessageId = string

  /** SHA-256 of an envelope, taken to be collision-free. */
  datatype Digest = DigestOf(envelope: Envelope)

  datatype StoredSession = StoredSession(state: RatchetState, generation: nat)

  datatype StoredDecrypted = StoredDecrypted(envelopeDigest: Digest, plaintext: Bytes)

  datatype Reason = NoSession | LockTimeout | CorruptEnvelope | UnsupportedEnvelope | DecryptFailure
                  | StateConflict | StorageError

  datatype ReceiveResult = Ok(plaintext: Bytes) | Err(reason: Reason)

  /** The await a receive is suspended in, with the locals that are live across it. */
  datatype Point =
    | Acquiring
    | Reading
    | CheckingCache(stored: StoredSession)
    | ResolvingKey(stored: StoredSession)
    | Writing(stored: StoredSession, plaintext: Bytes, next: RatchetState)
    | Rechecking
    | Releasing(result: ReceiveResult)
    | Done(result: ReceiveResult)

  /** `acquired` and `released` count what happened to the lock on behalf of this call. */
  datatype Call = Call(messageId: MessageId, envelope: Envelope, at: Point, acquired: nat, released: nat)

  /** A compare-and-set that took effect: which call moved which state to which, and whether the call
      was told so. */
  datatype Commit = Commit(call: CallId, messageId: MessageId, envelope: Envelope, before: RatchetState,
                           after: RatchetState, plaintext: Bytes, confirmed: bool)

  datatype Contact = Contact(self: string, contact: string)

  datatype World = World(
    session: Option<StoredSession>,
    decrypted: map<MessageId, StoredDecrypted>,
    calls: map<CallId, Call>,
    commits: seq<Commit>)

  /** How the environment answers an await. A write that threw may have taken effect first. */
  datatype Answer = Fulfilled | Empty | Threw | ThrewLate | SenderKey(key: Signer)

  predicate Throws(answer: Answer) { answer == Threw || answer == ThrewLate }

  datatype Event =
    | Begin(id: CallId, messageId: MessageId, envelope: Envelope)
    | Resume(id: CallId, answer: Answer, newSecret: Secret)
    | DeleteDecrypted(messageId: MessageId)

  function CachedFor(w: World, messageId: MessageId, digest: Digest): Option<Bytes> {
    if messageId in w.decrypted && w.decrypted[messageId].envelopeDigest == digest
    then Some(w.decrypted[messageId].plaintext) else None
  }

  function FirstByte(e: Envelope): Option<Byte> {
    match e
    case TooShort(start) => start
    case UnknownVersion(version) => Some(version)
    case HandshakeEnvelope(_, _, _, _, _, _) => Some(0x02)
    case RatchetEnvelope(_, _, _, _, _, _) => Some(0x03)
  }

  /** Where a receive stands after the record lookup came back empty. */
  function AfterMiss(stored: StoredSession, e: Envelope): Point {
    if FirstByte(e) == Some(0x02) then Releasing(Err(UnsupportedEnvelope))
    else if FirstByte(e) != Some(0x03) then Releasing(Err(CorruptEnvelope))
    else ResolvingKey(stored)
  }

  function AfterDecode(stored: StoredSession, decoded: DecodeResult): Point {
    match decoded
    case Decoded(plaintext, next) => Writing(stored, plaintext, next)
    case Failed(reason) =>
      Releasing(Err(if reason == Malformed || reason == UnrecognizedVersion then CorruptEnvelope else DecryptFailure))
  }

  /** Where a receive stands after its await is answered; only a write touches the store. */
  function Advance(c: Contact, w: World, call: Call, answer: Answer, newSecret: Secret): Point {
    match call.at
    case Acquiring => if answer == Fulfilled then Reading else Done(Err(LockTimeout))
    case Reading =>
      if Throws(answer) then Releasing(Err(StorageError))
      else if w.session.None? then Releasing(Err(NoSession))
      else CheckingCache(w.session.value)
    case CheckingCache(stored) =>
      if Throws(answer) then Releasing(Err(StorageError))
      else (
        match CachedFor(w, call.messageId, DigestOf(call.envelope))
        case Some(plaintext) => Releasing(Ok(plaintext))
        case None => AfterMiss(stored, call.envelope))
    case ResolvingKey(stored) => (
      match answer
      case Threw | ThrewLate => Releasing(Err(StorageError))
      case SenderKey(key) =>
        AfterDecode(stored, DecodeRatchetEnvelope(call.envelope, stored.state, c.contact, c.self, key, newSecret))
      case _ => Releasing(Err(NoSession)))
    case Writing(stored, plaintext, _) =>
      if Throws(answer) then Releasing(Err(StorageError))
      else if WriteSucceeds(w, stored.generation) then Releasing(Ok(plaintext))
      else Rechecking
    case Rechecking =>
      if Throws(answer) then Releasing(Err(StorageError))
      else (
        match CachedFor(w, call.messageId, DigestOf(call.envelope))
        case Some(plaintext) => Releasing(Ok(plaintext))
        case None => Releasing(Err(StateConflict)))
    case Releasing(result) => Done(result)
    case Done(result) => Done(result)
  }

  /** The contract of SessionStore.write: the stored generation, 0 without a session, must match. */
  predicate WriteSucceeds(w: World, expectedGeneration: nat) {
    (if w.session.None? then 0 else w.session.value.generation) == expectedGeneration
  }

  predicate Commits(w: World, call: Call, answer: Answer) {
    call.at.Writing? && answer != Threw && WriteSucceeds(w, call.at.stored.generation)
  }

  function Step(c: Contact, w: World, ev: Event): World {
    match ev
    case Begin(id, messageId, envelope) =>
      if id in w.calls then w else w.(calls := w.calls[id := Call(messageId, envelope, Acquiring, 0, 0)])
    case DeleteDecrypted(messageId) => w.(decrypted := w.decrypted - {messageId})
    case Resume(id, answer, newSecret) =>
      if id !in w.calls then w
      else
        var call := w.calls[id];
        var call' := call.(at := Advance(c, w, call, answer, newSecret),
                           acquired := call.acquired + if call.at.Acquiring? && answer == Fulfilled then 1 else 0,
                           released := call.released + if call.at.Releasing? then 1 else 0);
        if Commits(w, call, answer) then
          World(Some(StoredSession(call.at.next, call.at.stored.generation + 1)),
                w.decrypted[call.messageId := StoredDecrypted(DigestOf(call.envelope), call.at.plaintext)],
                w.calls[id := call'],
                w.commits + [Commit(id, call.messageId, call.envelope, call.at.stored.state, call.at.next, call.at.plaintext,
                                    answer != ThrewLate)])
        else w.(calls := w.calls[id := call'])
  }

  function Exec(c: Contact, w: World, events: seq<Event>): World {
    if events == [] then w else Step(c, Exec(c, w, events[..|events| - 1]), events[|events| - 1])
  }

  function Start(session: Option<StoredSession>): World { World(session, map[], map[], []) }

  // ----- The invariant

  /** The state after the first k commits. */
  ghost function StateAt(first: RatchetState, commits: seq<Commit>, k: nat): RatchetState
    requires k <= |commits|
  {
    if k == 0 then first else commits[k - 1].after
  }

  /** `before` decodes the envelope to `plaintext` and `after`, for some key and some key generation. */
  ghost predicate Decodes(c: Contact, e: Envelope, before: RatchetState, plaintext: Bytes, after: RatchetState) {
    exists key, newSecret ::
      DecodeRatchetEnvelope(e, before, c.contact, c.self, key, newSecret) == Decoded(plaintext, after)
  }

  ghost predicate DecodesTo(c: Contact, commit: Commit) {
    Decodes(c, commit.envelope, commit.before, commit.plaintext, commit.after)
  }

  /** The stored session is the end of one chain of successful decodes. */
  ghost predicate ChainOk(c: Contact, initial: Option<StoredSession>, w: World) {
    if initial.None? then w.session.None? && w.commits == []
    else
      var first, g := initial.value.state, initial.value.generation;
      && w.session == Some(StoredSession(StateAt(first, w.commits, |w.commits|), g + |w.commits|))
      && (w.commits != [] ==> w.commits[0].before == first)
      && (forall j, k :: 0 <= j && k == j + 1 && k < |w.commits| ==> w.commits[k].before == w.commits[j].after)
      && (forall k :: 0 <= k < |w.commits| ==> DecodesTo(c, w.commits[k]))
  }

  /** A session read earlier is on the chain. */
  ghost predicate OnChain(initial: Option<StoredSession>, w: World, stored: StoredSession) {
    && initial.Some?
    && initial.value.generation <= stored.generation <= initial.value.generation + |w.commits|
    && stored.state == StateAt(initial.value.state, w.commits, stored.generation - initial.value.generation)
  }

  /** A plaintext handed out for an envelope is the one sealed in it. */
  ghost predicate Genuine(e: Envelope, plaintext: Bytes) {
    e.RatchetEnvelope? && plaintext == e.body.plaintext
  }

  ghost predicate CallOk(c: Contact, initial: Option<StoredSession>, w: World, call: Call) {
    && (match call.at
        case CheckingCache(stored) => OnChain(initial, w, stored)
        case ResolvingKey(stored) => OnChain(initial, w, stored)
        case Writing(stored, plaintext, next) =>
          OnChain(initial, w, stored) && Decodes(c, call.envelope, stored.state, plaintext, next)
        case Releasing(Ok(plaintext)) => Genuine(call.envelope, plaintext)
        case Done(Ok(plaintext)) => Genuine(call.envelope, plaintext)
        case _ => true)
    && (match call.at
        case Acquiring => call.acquired == call.released == 0
        case Done(result) => call.acquired == call.released <= 1 && (call.acquired == 0 ==> result == Err(LockTimeout))
        case _ => call.acquired == 1 && call.released == 0)
  }

  /** A call that has committed is on its way out with the plaintext it committed, or with the error its
      write threw after taking effect. */
  ghost predicate Won(call: Call, commit: Commit) {
    var result := if commit.confirmed then Ok(commit.plaintext) else Err(StorageError);
    call.envelope == commit.envelope && (call.at == Releasing(result) || call.at == Done(result))
  }

  ghost predicate WinnersOk(w: World) {
    && (forall k :: 0 <= k < |w.commits| ==> w.commits[k].call in w.calls && Won(w.calls[w.commits[k].call], w.commits[k]))
    && (forall j, k :: 0 <= j < k < |w.commits| ==> w.commits[j].call != w.commits[k].call)
  }

  ghost predicate RecordsOk(w: World) {
    forall m :: m in w.decrypted ==> Genuine(w.decrypted[m].envelopeDigest.envelope, w.decrypted[m].plaintext)
  }

  ghost predicate Inv(c: Contact, initial: Option<StoredSession>, w: World) {
    && ChainOk(c, initial, w)
    && WinnersOk(w)
    && RecordsOk(w)
    && forall id :: id in w.calls ==> CallOk(c, initial, w, w.calls[id])
  }

  lemma DecodesIsGenuine(c: Contact, e: Envelope, before: RatchetState, plaintext: Bytes, after: RatchetState)
    requires Decodes(c, e, before, plaintext, after)
    ensures Genuine(e, plaintext)
  {
  }

  /** What a call relies on survives another call's commit. */
  lemma CallKept(c: Contact, initial: Option<StoredSession>, w: World, w': World, call: Call)
    requires CallOk(c, initial, w, call) && (w'.commits == w.commits || exists x :: w'.commits == w.commits + [x])
    ensures CallOk(c, initial, w', call)
  {
    hide Decodes, Genuine;
  }

  lemma CallsKept(c: Contact, initial: Option<StoredSession>, w: World, w': World, id: CallId)
    requires forall other :: other in w.calls ==> CallOk(c, initial, w, w.calls[other])
    requires id in w'.calls && w'.calls == w.calls[id := w'.calls[id]] && CallOk(c, initial, w', w'.calls[id])
    requires w'.commits == w.commits || exists x :: w'.commits == w.commits + [x]
    ensures forall other :: other in w'.calls ==> CallOk(c, initial, w', w'.calls[other])
  {
    forall other | other in w'.calls ensures CallOk(c, initial, w', w'.calls[other]) {
      if other != id { CallKept(c, initial, w, w', w.calls[other]); }
    }
  }

  /** Winners stay winners while no winning call goes back. */
  lemma WinnersKept(w: World, w': World, id: CallId)
    requires WinnersOk(w) && w'.commits == w.commits && id in w'.calls && w'.calls == w.calls[id := w'.calls[id]]
    requires id in w.calls ==> w'.calls[id].envelope == w.calls[id].envelope
    requires id in w.calls && w.calls[id].at.Releasing? ==> w'.calls[id].at == Done(w.calls[id].at.result)
    requires id in w.calls && w.calls[id].at.Done? ==> w'.calls[id].at == w.calls[id].at
    ensures WinnersOk(w')
  {
    forall k | 0 <= k < |w'.commits| ensures w'.commits[k].call in w'.calls && Won(w'.calls[w'.commits[k].call], w'.commits[k]) {
      assert Won(w.calls[w.commits[k].call], w.commits[k]);
    }
  }

  lemma WinnerAdded(w: World, w': World, id: CallId)
    requires WinnersOk(w) && id in w.calls && !w.calls[id].at.Releasing? && !w.calls[id].at.Done?
    requires id in w'.calls && w'.calls == w.calls[id := w'.calls[id]]
    requires |w'.commits| == |w.commits| + 1 && w'.commits[..|w.commits|] == w.commits
    requires w'.commits[|w.commits|].call == id && Won(w'.calls[id], w'.commits[|w.commits|])
    ensures WinnersOk(w')
  {
    forall k | 0 <= k < |w.commits| ensures w.commits[k].call != id && w'.commits[k] == w.commits[k] {
      assert w'.commits[..|w.commits|][k] == w.commits[k];
      assert Won(w.calls[w.commits[k].call], w.commits[k]);
    }
    forall k | 0 <= k < |w'.commits| ensures w'.commits[k].call in w'.calls && Won(w'.calls[w'.commits[k].call], w'.commits[k]) {
      if k < |w.commits| { assert Won(w.calls[w.commits[k].call], w.commits[k]); }
    }
  }

  /** A compare-and-set that succeeds was computed from the state it replaces. */
  lemma CommitExtendsChain(c: Contact, initial: Option<StoredSession>, w: World, id: CallId, answer: Answer, newSecret: Secret)
    requires ChainOk(c, initial, w) && id in w.calls && Commits(w, w.calls[id], answer)
    requires CallOk(c, initial, w, w.calls[id])
    ensures ChainOk(c, initial, Step(c, w, Resume(id, answer, newSecret)))
  {
    hide Decodes, Advance;
    var call, w' := w.calls[id], Step(c, w, Resume(id, answer, newSecret));
    assert call.at.stored.generation == initial.value.generation + |w.commits|;
    assert w'.commits == w.commits + [Commit(id, call.messageId, call.envelope, call.at.stored.state, call.at.next, call.at.plaintext,
                                    answer != ThrewLate)];
    assert DecodesTo(c, w'.commits[|w.commits|]);
  }

  lemma CommittedOk(c: Contact, initial: Option<StoredSession>, w: World, id: CallId, answer: Answer, newSecret: Secret)
    requires id in w.calls && Commits(w, w.calls[id], answer) && CallOk(c, initial, w, w.calls[id]) && RecordsOk(w)
    ensures var w' := Step(c, w, Resume(id, answer, newSecret));
            && CallOk(c, initial, w', w'.calls[id])
            && Won(w'.calls[id], w'.commits[|w.commits|])
            && RecordsOk(w')
  {
    hide OnChain, Decodes;
    var call := w.calls[id];
    DecodesIsGenuine(c, call.envelope, call.at.stored.state, call.at.plaintext, call.at.next);
  }

  lemma CommitInv(c: Contact, initial: Option<StoredSession>, w: World, id: CallId, answer: Answer, newSecret: Secret)
    requires Inv(c, initial, w) && id in w.calls && Commits(w, w.calls[id], answer)
    ensures Inv(c, initial, Step(c, w, Resume(id, answer, newSecret)))
  {
    hide Decodes, ChainOk, WinnersOk, CallOk, Won, Advance, RecordsOk;
    var w' := Step(c, w, Resume(id, answer, newSecret));
    assert CallOk(c, initial, w, w.calls[id]);
    CommitExtendsChain(c, initial, w, id, answer, newSecret);
    CommittedOk(c, initial, w, id, answer, newSecret);
    WinnerAdded(w, w', id);
    CallsKept(c, initial, w, w', id);
  }

  /** One await of one call keeps what is said about that call. */
  lemma AdvanceOk(c: Contact, initial: Option<StoredSession>, w: World, call: Call, answer: Answer, newSecret: Secret)
    requires ChainOk(c, initial, w) && RecordsOk(w) && CallOk(c, initial, w, call) && !Commits(w, call, answer)
    ensures var at := Advance(c, w, call, answer, newSecret);
            CallOk(c, initial, w, call.(at := at,
                                        acquired := call.acquired + if call.at.Acquiring? && answer == Fulfilled then 1 else 0,
                                        released := call.released + if call.at.Releasing? then 1 else 0))
  {
    hide DecodeRatchetEnvelope, Decodes;
    if call.at.ResolvingKey? {
      ResolvingOk(c, initial, w, call, answer, newSecret);
    }
  }

  lemma ResolvingOk(c: Contact, initial: Option<StoredSession>, w: World, call: Call, answer: Answer, newSecret: Secret)
    requires call.at.ResolvingKey?
    ensures var at := Advance(c, w, call, answer, newSecret);
            || (at.Releasing? && at.result.Err?)
            || (at.Writing? && at.stored == call.at.stored && Decodes(c, call.envelope, at.stored.state, at.plaintext, at.next))
  {
    hide DecodeRatchetEnvelope;
    if answer.SenderKey? {
      var decoded := DecodeRatchetEnvelope(call.envelope, call.at.stored.state, c.contact, c.self, answer.key, newSecret);
      if decoded.Decoded? {
        assert Decodes(c, call.envelope, call.at.stored.state, decoded.plaintext, decoded.nextState);
      }
    }
  }

  lemma QuietInv(c: Contact, initial: Option<StoredSession>, w: World, id: CallId, answer: Answer, newSecret: Secret)
    requires Inv(c, initial, w) && id in w.calls && !Commits(w, w.calls[id], answer)
    ensures Inv(c, initial, Step(c, w, Resume(id, answer, newSecret)))
  {
    var call, w' := w.calls[id], Step(c, w, Resume(id, answer, newSecret));
    assert call.at.Releasing? || call.at.Done? ==> w'.calls[id].at == Done(call.at.result);
    hide ChainOk, WinnersOk, CallOk, Won, Commits, Advance;
    assert CallOk(c, initial, w, call);
    AdvanceOk(c, initial, w, call, answer, newSecret);
    WinnersKept(w, w', id);
    CallKept(c, initial, w, w', w'.calls[id]);
    CallsKept(c, initial, w, w', id);
    assert ChainOk(c, initial, w') by { ChainKept(c, initial, w, w'); }
  }

  lemma ChainKept(c: Contact, initial: Option<StoredSession>, w: World, w': World)
    requires ChainOk(c, initial, w) && w'.session == w.session && w'.commits == w.commits
    ensures ChainOk(c, initial, w')
  {
    hide DecodesTo;
  }

  lemma StepInv(c: Contact, initial: Option<StoredSession>, w: World, ev: Event)
    requires Inv(c, initial, w)
    ensures Inv(c, initial, Step(c, w, ev))
  {
    match ev
    case Begin(id, messageId, envelope) =>
      if id !in w.calls {
        var w' := Step(c, w, ev);
        hide ChainOk, WinnersOk, Won;
        ChainKept(c, initial, w, w');
        WinnersKept(w, w', id);
        CallsKept(c, initial, w, w', id);
      }
    case DeleteDecrypted(_) =>
      var w' := Step(c, w, ev);
      hide CallOk, Decodes;
      ChainKept(c, initial, w, w');
      forall other | other in w'.calls ensures CallOk(c, initial, w', w'.calls[other]) {
        CallKept(c, initial, w, w', w.calls[other]);
      }
    case Resume(id, answer, newSecret) =>
      if id in w.calls {
        if Commits(w, w.calls[id], answer) { CommitInv(c, initial, w, id, answer, newSecret); }
        else { QuietInv(c, initial, w, id, answer, newSecret); }
      }
  }

  lemma {:induction false} ExecInv(c: Contact, initial: Option<StoredSession>, events: seq<Event>)
    ensures Inv(c, initial, Exec(c, Start(initial), events))
  {
    if events != [] {
      ExecInv(c, initial, events[..|events| - 1]);
      StepInv(c, initial, Exec(c, Start(initial), events[..|events| - 1]), events[|events| - 1]);
    }
  }

  // ----- Every interleaving

  /** Generation n+1 is a successful decode from the state at generation n, and the stored session
      is the end of that chain. */
  lemma StoreIsOneChain(c: Contact, first: StoredSession, events: seq<Event>)
    ensures var w := Exec(c, Start(Some(first)), events);
            && w.session == Some(StoredSession(StateAt(first.state, w.commits, |w.commits|), first.generation + |w.commits|))
            && forall k :: 0 <= k < |w.commits| ==>
                 Decodes(c, w.commits[k].envelope, StateAt(first.state, w.commits, k), w.commits[k].plaintext,
                         StateAt(first.state, w.commits, k + 1))
  {
    hide Decodes, Exec;
    ExecInv(c, Some(first), events);
    var w := Exec(c, Start(Some(first)), events);
    forall k | 0 <= k < |w.commits|
      ensures Decodes(c, w.commits[k].envelope, StateAt(first.state, w.commits, k), w.commits[k].plaintext,
                      StateAt(first.state, w.commits, k + 1))
    {
      assert DecodesTo(c, w.commits[k]);
    }
  }

  /** One writer wins each generation, each call wins at most one, and a winner reports success, unless
      its write threw after taking effect. */
  lemma OneWinnerPerGeneration(c: Contact, initial: Option<StoredSession>, events: seq<Event>, j: nat, k: nat)
    requires j < k < |Exec(c, Start(initial), events).commits|
    ensures var w := Exec(c, Start(initial), events);
            && w.commits[j].call != w.commits[k].call
            && w.commits[k].call in w.calls && Won(w.calls[w.commits[k].call], w.commits[k])
  {
    ExecInv(c, initial, events);
  }

  /** Only a commit or the app's own deletion changes the store. */
  lemma StoreChangesOnlyByCommit(c: Contact, w: World, ev: Event)
    ensures var w' := Step(c, w, ev);
            (w'.session != w.session || w'.decrypted != w.decrypted) ==>
              ev.DeleteDecrypted? || (ev.Resume? && |w'.commits| == |w.commits| + 1 && w'.commits[|w.commits|].call == ev.id)
  {
  }

  /** The write of call `id` takes effect and throws. */
  predicate CommitsLate(w: World, ev: Event, id: CallId) {
    ev.Resume? && ev.id == id && ev.answer == ThrewLate && id in w.calls && Commits(w, w.calls[id], ThrewLate)
  }

  predicate CommittedLate(c: Contact, w: World, events: seq<Event>, id: CallId) {
    events != []
    && (CommittedLate(c, w, events[..|events| - 1], id)
        || CommitsLate(Exec(c, w, events[..|events| - 1]), events[|events| - 1], id))
  }

  ghost predicate HasUnconfirmed(commits: seq<Commit>, id: CallId) {
    exists k :: 0 <= k < |commits| && commits[k].call == id && !commits[k].confirmed
  }

  lemma {:induction false} UnconfirmedIsLate(c: Contact, w: World, events: seq<Event>, id: CallId)
    requires w.commits == []
    ensures HasUnconfirmed(Exec(c, w, events).commits, id) <==> CommittedLate(c, w, events, id)
  {
    hide Step;
    if events != [] {
      hide HasUnconfirmed, CommitsLate;
      UnconfirmedIsLate(c, w, events[..|events| - 1], id);
      StepUnconfirmed(c, Exec(c, w, events[..|events| - 1]), events[|events| - 1], id);
    } else {
      assert !HasUnconfirmed([], id);
    }
  }

  lemma StepUnconfirmed(c: Contact, w: World, ev: Event, id: CallId)
    ensures HasUnconfirmed(Step(c, w, ev).commits, id) <==> HasUnconfirmed(w.commits, id) || CommitsLate(w, ev, id)
  {
    hide Advance;
    var w' := Step(c, w, ev);
    if HasUnconfirmed(w.commits, id) {
      var k :| 0 <= k < |w.commits| && w.commits[k].call == id && !w.commits[k].confirmed;
      assert w'.commits[k] == w.commits[k];
    }
    if CommitsLate(w, ev, id) { assert !w'.commits[|w.commits|].confirmed && w'.commits[|w.commits|].call == id; }
  }

  /** A call that returned a failure has committed if and only if its write threw after taking effect;
      and then the failure is `storage_error`. */
  lemma FailureCommittedIff(c: Contact, initial: Option<StoredSession>, events: seq<Event>, id: CallId)
    requires var w := Exec(c, Start(initial), events); id in w.calls && w.calls[id].at.Done? && w.calls[id].at.result.Err?
    ensures var w := Exec(c, Start(initial), events);
            && ((exists k :: 0 <= k < |w.commits| && w.commits[k].call == id) <==> CommittedLate(c, Start(initial), events, id))
            && (CommittedLate(c, Start(initial), events, id) ==> w.calls[id].at.result == Err(StorageError))
  {
    ExecInv(c, initial, events);
    hide Exec, CommittedLate;
    var w := Exec(c, Start(initial), events);
    UnconfirmedIsLate(c, Start(initial), events, id);
    assert forall k :: 0 <= k < |w.commits| ==> Won(w.calls[w.commits[k].call], w.commits[k]);
  }

  /** The input: whatever call is about to win its write, a late throw commits it and fails it. */
  lemma LateThrowCommits(c: Contact, w: World, id: CallId, newSecret: Secret)
    requires id in w.calls && w.calls[id].at.Writing? && WriteSucceeds(w, w.calls[id].at.stored.generation)
    ensures var w' := Step(c, Step(c, w, Resume(id, ThrewLate, newSecret)), Resume(id, Fulfilled, newSecret));
            && w'.session == Some(StoredSession(w.calls[id].at.next, w.calls[id].at.stored.generation + 1))
            && w'.calls[id].at == Done(Err(StorageError))
  {
  }

  /** Every lock a finished call acquired was released exactly once; a call without one timed out. */
  lemma LockReleasedOnce(c: Contact, initial: Option<StoredSession>, events: seq<Event>, id: CallId)
    requires var w := Exec(c, Start(initial), events); id in w.calls && w.calls[id].at.Done?
    ensures var call := Exec(c, Start(initial), events).calls[id];
            && call.released == call.acquired <= 1
            && (call.acquired == 0 ==> call.at.result == Err(LockTimeout))
  {
    ExecInv(c, initial, events);
    assert CallOk(c, initial, Exec(c, Start(initial), events), Exec(c, Start(initial), events).calls[id]);
  }

  /** Two receives of one envelope that succeed return the same plaintext, whether it was decoded,
      cached, or read after losing the race. */
  lemma ReceivesAgree(c: Contact, initial: Option<StoredSession>, events: seq<Event>, a: CallId, b: CallId)
    requires var w := Exec(c, Start(initial), events);
             && a in w.calls && b in w.calls && w.calls[a].envelope == w.calls[b].envelope
             && w.calls[a].at.Done? && w.calls[a].at.result.Ok?
             && w.calls[b].at.Done? && w.calls[b].at.result.Ok?
    ensures var w := Exec(c, Start(initial), events); w.calls[a].at.result == w.calls[b].at.result
  {
    ExecInv(c, initial, events);
    var w := Exec(c, Start(initial), events);
    assert CallOk(c, initial, w, w.calls[a]) && CallOk(c, initial, w, w.calls[b]);
  }

  /** The record for a message: of the commit for it since the app last deleted it, the latest. */
  function RecordOf(c: Contact, w: World, events: seq<Event>, messageId: MessageId): Option<StoredDecrypted> {
    if events == [] then None
    else
      var init := events[..|events| - 1];
      var before := Exec(c, w, init);
      match events[|events| - 1]
      case DeleteDecrypted(m) => if m == messageId then None else RecordOf(c, w, init, messageId)
      case Resume(id, answer, _) =>
        if id in before.calls && Commits(before, before.calls[id], answer) && before.calls[id].messageId == messageId
        then Some(StoredDecrypted(DigestOf(before.calls[id].envelope), before.calls[id].at.plaintext))
        else RecordOf(c, w, init, messageId)
      case Begin(_, _, _) => RecordOf(c, w, init, messageId)
  }

  lemma {:induction false} RecordIsStored(c: Contact, w: World, events: seq<Event>, m: MessageId)
    requires w.decrypted == map[]
    ensures RecordOf(c, w, events, m)
            == if m in Exec(c, w, events).decrypted then Some(Exec(c, w, events).decrypted[m]) else None
  {
    hide Advance;
    if events != [] { RecordIsStored(c, w, events[..|events| - 1], m); }
  }

  /** A lookup, before decoding or after losing the race, returns a plaintext exactly if it is that of the
      message's record and the record is of this very envelope; a loser without one reports the conflict. */
  lemma LoserReadsWinner(c: Contact, initial: Option<StoredSession>, events: seq<Event>, call: Call, newSecret: Secret)
    requires call.at.Rechecking? || call.at.CheckingCache?
    ensures var w, record := Exec(c, Start(initial), events), RecordOf(c, Start(initial), events, call.messageId);
            var at := Advance(c, w, call, Fulfilled, newSecret);
            && (forall plaintext :: at == Releasing(Ok(plaintext)) <==>
                  record == Some(StoredDecrypted(DigestOf(call.envelope), plaintext)))
            && (call.at.Rechecking? && (record.None? || record.value.envelopeDigest != DigestOf(call.envelope)) ==>
                  at == Releasing(Err(StateConflict)))
  {
    hide Exec, RecordOf;
    RecordIsStored(c, Start(initial), events, call.messageId);
  }

  /** Along the chain, every key spent by commit j is spent at every later state. */
  lemma {:induction false} SpentAlongChain(c: Contact, first: StoredSession, w: World, j: nat, k: nat)
    requires ChainOk(c, Some(first), w) && WellFormed(first.state) && j < k <= |w.commits|
    ensures WellFormed(StateAt(first.state, w.commits, k))
    ensures w.commits[j].envelope.RatchetEnvelope?
    ensures Spent(w.commits[j].envelope.body.key, StateAt(first.state, w.commits, k))
    decreases k
  {
    var last := w.commits[k - 1];
    assert DecodesTo(c, last) && last.before == StateAt(first.state, w.commits, k - 1);
    hide DecodesTo, ChainOk, DecodeRatchetEnvelope, WellFormed, Spent;
    var key, newSecret :| DecodeRatchetEnvelope(last.envelope, last.before, c.contact, c.self, key, newSecret)
                       == Decoded(last.plaintext, last.after);
    if j < k - 1 { SpentAlongChain(c, first, w, j, k - 1); }
    else if j > 0 { SpentAlongChain(c, first, w, 0, k - 1); }
    DecodeSpendsItsKey(last.envelope, last.before, c.contact, c.self, key, newSecret);
  }

  /** The ratchet advances at most once per envelope across all processes. */
  lemma AdvancesOncePerEnvelope(c: Contact, first: StoredSession, events: seq<Event>, j: nat, k: nat)
    requires WellFormed(first.state)
    requires j < k < |Exec(c, Start(Some(first)), events).commits|
    ensures var w := Exec(c, Start(Some(first)), events); w.commits[j].envelope != w.commits[k].envelope
  {
    var w := Exec(c, Start(Some(first)), events);
    ExecInv(c, Some(first), events);
    SpentAlongChain(c, first, w, j, k);
    var later := w.commits[k];
    assert DecodesTo(c, later) && later.before == StateAt(first.state, w.commits, k);
    hide DecodesTo, ChainOk, DecodeRatchetEnvelope, WellFormed, Spent, StateAt;
    var key, newSecret :| DecodeRatchetEnvelope(later.envelope, later.before, c.contact, c.self, key, newSecret)
                       == Decoded(later.plaintext, later.after);
    if later.envelope == w.commits[j].envelope {
      SpentNeverDecodes(later.envelope, later.before, c.contact, c.self, key, newSecret);
    }
  }
}
