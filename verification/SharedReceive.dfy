/** `receiveLocked` as it is written: awaits in sequence, early exits, release in the end
    (apps/mobile/src/crypto/notificationDecrypt.ts:123-205). At every await other receives, in this
    process or another, and the app's deletions may step in. Whatever they do, the execution is a run
    of `SharedSession`, and `Receive` says which answer it gives when and what it leaves in the store.
 */
module SharedReceive {
  import opened Wrappers
  import opened Words
  import opened Keys
  import opened Session
  import opened SharedSession

  /** What happens during an await, and how it is answered. */
  datatype Await = Await(others: seq<Event>, answer: Answer)

  /** Every await, should it be reached, and the secret a ratchet step would draw. */
  datatype Environment = Environment(lock: Await, read: Await, cache: Await, key: Await, write: Await, recheck: Await,
                                     unlock: Await, newSecret: Secret)

  /** Nobody else acts for call `id`. */
  predicate OfOthers(id: CallId, events: seq<Event>) {
    forall n :: 0 <= n < |events| ==> (events[n].Begin? || events[n].Resume?) ==> events[n].id != id
  }

  predicate AllOfOthers(id: CallId, env: Environment) {
    && OfOthers(id, env.lock.others) && OfOthers(id, env.read.others) && OfOthers(id, env.cache.others)
    && OfOthers(id, env.key.others) && OfOthers(id, env.write.others) && OfOthers(id, env.recheck.others)
    && OfOthers(id, env.unlock.others)
  }

  /** What others do does not depend on where call `id` stands, and leaves it there. */
  lemma {:induction false} OthersPassBy(c: Contact, w: World, id: CallId, call: Call, events: seq<Event>)
    requires OfOthers(id, events) && id !in w.calls
    ensures id !in Exec(c, w, events).calls
    ensures Exec(c, w.(calls := w.calls[id := call]), events)
            == Exec(c, w, events).(calls := Exec(c, w, events).calls[id := call])
  {
    hide Step;
    if events != [] {
      var init, last := events[..|events| - 1], events[|events| - 1];
      assert OfOthers(id, init);
      OthersPassBy(c, w, id, call, init);
      StepPassesBy(c, Exec(c, w, init), id, call, last);
    }
  }

  lemma StepPassesBy(c: Contact, w: World, id: CallId, call: Call, ev: Event)
    requires id !in w.calls && ((ev.Begin? || ev.Resume?) ==> ev.id != id)
    ensures id !in Step(c, w, ev).calls
    ensures Step(c, w.(calls := w.calls[id := call]), ev) == Step(c, w, ev).(calls := Step(c, w, ev).calls[id := call])
  {
    hide Advance;
    var w1 := w.(calls := w.calls[id := call]);
    match ev
    case Begin(i, messageId, envelope) =>
      var begun := Call(messageId, envelope, Acquiring, 0, 0);
      assert w.calls[id := call][i := begun] == w.calls[i := begun][id := call];
    case DeleteDecrypted(_) =>
    case Resume(i, answer, newSecret) =>
      if i in w.calls {
        assert w1.calls[i] == w.calls[i];
        SameAdvance(c, w, w1, w.calls[i], answer, newSecret);
        var next := Step(c, w, ev).calls[i];
        assert w.calls[id := call][i := next] == w.calls[i := next][id := call];
      }
  }

  lemma SameAdvance(c: Contact, w: World, w': World, call: Call, answer: Answer, newSecret: Secret)
    requires w'.session == w.session && w'.decrypted == w.decrypted
    ensures Advance(c, w', call, answer, newSecret) == Advance(c, w, call, answer, newSecret)
    ensures Commits(w', call, answer) == Commits(w, call, answer)
  {
    hide DecodeRatchetEnvelope;
  }

  /** The shared storage; `calls` and `commits` are the other receives and what has been written. */
  class SessionStore {
    var session: Option<StoredSession>
    var decrypted: map<MessageId, StoredDecrypted>
    var calls: map<CallId, Call>
    var commits: seq<Commit>

    constructor (session: Option<StoredSession>)
      ensures this.session == session && decrypted == map[] && calls == map[] && commits == []
    {
      this.session := session;
      decrypted, calls, commits := map[], map[], [];
    }

    function Rest(): World
      reads this
    {
      World(session, decrypted, calls, commits)
    }

    /** The world with call `id` in it. */
    function With(id: CallId, call: Call): World
      reads this
    {
      World(session, decrypted, calls[id := call], commits)
    }

    /** An await lets others in. */
    method Let(c: Contact, id: CallId, ghost call: Call, events: seq<Event>)
      requires OfOthers(id, events) && id !in calls
      modifies this
      ensures id !in calls
      ensures With(id, call) == Exec(c, old(With(id, call)), events)
      ensures Rest() == Exec(c, old(Rest()), events)
    {
      OthersPassBy(c, Rest(), id, call, events);
      var w := Exec(c, Rest(), events);
      session, decrypted, calls, commits := w.session, w.decrypted, w.calls, w.commits;
    }

    /** The contract of `write`: one atomic compare-and-set of session and record. */
    method Write(state: RatchetState, expectedGeneration: nat, messageId: MessageId, record: StoredDecrypted)
      returns (ok: bool)
      modifies `session, `decrypted
      ensures ok <==> expectedGeneration == match old(session) case Some(s) => s.generation case None => 0
      ensures ok ==> session == Some(StoredSession(state, expectedGeneration + 1)) && decrypted == old(decrypted)[messageId := record]
      ensures !ok ==> session == old(session) && decrypted == old(decrypted)
    {
      var generation := if session.Some? then session.value.generation else 0;
      ok := generation == expectedGeneration;
      if ok {
        session := Some(StoredSession(state, expectedGeneration + 1));
        decrypted := decrypted[messageId := record];
      }
    }

    method CachedFor(messageId: MessageId, digest: Digest) returns (plaintext: Option<Bytes>)
      ensures plaintext == SharedSession.CachedFor(Rest(), messageId, digest)
    {
      if messageId in decrypted && decrypted[messageId].envelopeDigest == digest {
        return Some(decrypted[messageId].plaintext);
      }
      plaintext := None;
    }
  }

  /** The version a compare-and-set expects: 0 before there is a session. */
  function Generation(session: Option<StoredSession>): nat {
    match session
    case Some(s) => s.generation
    case None => 0
  }

  /** The store holds this plaintext for this very envelope. */
  predicate Recorded(w: World, messageId: MessageId, envelope: Envelope, plaintext: Bytes) {
    messageId in w.decrypted && w.decrypted[messageId] == StoredDecrypted(DigestOf(envelope), plaintext)
  }

  ghost predicate Unrecorded(w: World, messageId: MessageId, envelope: Envelope) {
    forall plaintext :: !Recorded(w, messageId, envelope, plaintext)
  }

  lemma CachedIsRecord(w: World, messageId: MessageId, envelope: Envelope)
    ensures match SharedSession.CachedFor(w, messageId, DigestOf(envelope))
            case Some(plaintext) => Recorded(w, messageId, envelope, plaintext)
            case None => Unrecorded(w, messageId, envelope)
  {
  }

  /** The store after a compare-and-set: the session one generation on, the record and the commit. */
  function Moved(w: World, id: CallId, messageId: MessageId, envelope: Envelope, stored: StoredSession,
                 plaintext: Bytes, next: RatchetState, confirmed: bool): World
  {
    World(Some(StoredSession(next, stored.generation + 1)),
          w.decrypted[messageId := StoredDecrypted(DigestOf(envelope), plaintext)],
          w.calls,
          w.commits + [Commit(id, messageId, envelope, stored.state, next, plaintext, confirmed)])
  }

  /** What a lost race comes to. */
  ghost predicate Rechecks(w: World, messageId: MessageId, envelope: Envelope, answer: Answer, result: ReceiveResult) {
    if Throws(answer) then result == Err(StorageError)
    else if Unrecorded(w, messageId, envelope) then result == Err(StateConflict)
    else result.Ok? && Recorded(w, messageId, envelope, result.plaintext)
  }

  /** What the compare-and-set and a lost race come to, from the store as the write finds it. */
  ghost predicate WritesBack(c: Contact, w: World, id: CallId, messageId: MessageId, envelope: Envelope, env: Environment,
                             stored: StoredSession, plaintext: Bytes, next: RatchetState, after: World, result: ReceiveResult)
  {
    if env.write.answer != Threw && Generation(w.session) == stored.generation then
      && after == Moved(w, id, messageId, envelope, stored, plaintext, next, env.write.answer != ThrewLate)
      && result == (if env.write.answer == ThrewLate then Err(StorageError) else Ok(plaintext))
    else if Throws(env.write.answer) then after == w && result == Err(StorageError)
    else after == Exec(c, w, env.recheck.others) && Rechecks(after, messageId, envelope, env.recheck.answer, result)
  }

  /** What the key and the decoding come to, from the store as the key is resolved. */
  ghost predicate DecodesAndWrites(c: Contact, w: World, id: CallId, messageId: MessageId, envelope: Envelope,
                                   env: Environment, stored: StoredSession, after: World, result: ReceiveResult)
  {
    if Throws(env.key.answer) then after == w && result == Err(StorageError)
    else if !env.key.answer.SenderKey? then after == w && result == Err(NoSession)
    else
      match DecodeRatchetEnvelope(envelope, stored.state, c.contact, c.self, env.key.answer.key, env.newSecret)
      case Failed(Malformed) => after == w && result == Err(CorruptEnvelope)
      case Failed(UnrecognizedVersion) => after == w && result == Err(CorruptEnvelope)
      case Failed(_) => after == w && result == Err(DecryptFailure)
      case Decoded(plaintext, next) =>
        WritesBack(c, Exec(c, w, env.write.others), id, messageId, envelope, env, stored, plaintext, next, after, result)
  }

  /** What the lookup and the version come to, from the store as the record is looked up. */
  ghost predicate LooksAndDecodes(c: Contact, w: World, id: CallId, messageId: MessageId, envelope: Envelope,
                                  env: Environment, stored: StoredSession, after: World, result: ReceiveResult)
  {
    if Throws(env.cache.answer) then after == w && result == Err(StorageError)
    else if !Unrecorded(w, messageId, envelope) then
      after == w && result.Ok? && Recorded(w, messageId, envelope, result.plaintext)
    else
      match FirstByte(envelope)
      case Some(0x02) => after == w && result == Err(UnsupportedEnvelope)
      case Some(0x03) => DecodesAndWrites(c, Exec(c, w, env.key.others), id, messageId, envelope, env, stored, after, result)
      case _ => after == w && result == Err(CorruptEnvelope)
  }

  /** A lost race: the look at what the winner left. */
  method Recheck(c: Contact, store: SessionStore, id: CallId, messageId: MessageId, envelope: Envelope, env: Environment)
    returns (result: ReceiveResult, ghost events: seq<Event>)
    requires id !in store.calls && AllOfOthers(id, env)
    modifies store
    ensures id !in store.calls
    ensures Exec(c, old(store.With(id, Call(messageId, envelope, Rechecking, 1, 0))), events)
            == store.With(id, Call(messageId, envelope, Releasing(result), 1, 0))
    ensures store.Rest() == Exec(c, old(store.Rest()), env.recheck.others)
    ensures Rechecks(store.Rest(), messageId, envelope, env.recheck.answer, result)
  {
    hide Exec;
    ghost var rechecking := Call(messageId, envelope, Rechecking, 1, 0);
    ghost var w0 := store.With(id, rechecking);
    store.Let(c, id, rechecking, env.recheck.others);
    ExecSnoc(c, w0, env.recheck.others, Resume(id, env.recheck.answer, env.newSecret));
    events := env.recheck.others + [Resume(id, env.recheck.answer, env.newSecret)];
    if Throws(env.recheck.answer) {
      return Err(StorageError), events;
    }
    CachedIsRecord(store.Rest(), messageId, envelope);
    var winner := store.CachedFor(messageId, DigestOf(envelope));
    if winner.Some? {
      return Ok(winner.value), events;
    }
    result := Err(StateConflict);
  }

  /** The compare-and-set and, if it lost, the look at what the winner left. */
  method WriteBack(c: Contact, store: SessionStore, id: CallId, messageId: MessageId, envelope: Envelope, env: Environment,
                   stored: StoredSession, plaintext: Bytes, next: RatchetState)
    returns (result: ReceiveResult, ghost events: seq<Event>)
    requires id !in store.calls && AllOfOthers(id, env)
    modifies store
    ensures id !in store.calls
    ensures Exec(c, old(store.With(id, Call(messageId, envelope, Writing(stored, plaintext, next), 1, 0))), events)
            == store.With(id, Call(messageId, envelope, Releasing(result), 1, 0))
    ensures WritesBack(c, Exec(c, old(store.Rest()), env.write.others), id, messageId, envelope, env, stored, plaintext, next,
                       store.Rest(), result)
  {
    hide DecodeRatchetEnvelope, Exec;
    var digest := DigestOf(envelope);
    ghost var writing := Call(messageId, envelope, Writing(stored, plaintext, next), 1, 0);
    ghost var w0 := store.With(id, writing);
    store.Let(c, id, writing, env.write.others);
    ExecSnoc(c, w0, env.write.others, Resume(id, env.write.answer, env.newSecret));
    events := env.write.others + [Resume(id, env.write.answer, env.newSecret)];
    if env.write.answer == Threw {
      return Err(StorageError), events;
    }
    var written := store.Write(next, stored.generation, messageId, StoredDecrypted(digest, plaintext));
    if written {
      var confirmed := env.write.answer != ThrewLate;
      store.commits := store.commits + [Commit(id, messageId, envelope, stored.state, next, plaintext, confirmed)];
    }
    if env.write.answer == ThrewLate {
      return Err(StorageError), events;
    }
    if written {
      return Ok(plaintext), events;
    }
    assert Exec(c, w0, events) == store.With(id, Call(messageId, envelope, Rechecking, 1, 0));
    ghost var rechecked;
    result, rechecked := Recheck(c, store, id, messageId, envelope, env);
    ExecConcat(c, w0, events, rechecked);
    events := events + rechecked;
  }

  /** The sender's key, the decoding, and what follows. */
  method DecodeAndWrite(c: Contact, store: SessionStore, id: CallId, messageId: MessageId, envelope: Envelope, env: Environment,
                        stored: StoredSession)
    returns (result: ReceiveResult, ghost events: seq<Event>)
    requires id !in store.calls && AllOfOthers(id, env)
    modifies store
    ensures id !in store.calls
    ensures Exec(c, old(store.With(id, Call(messageId, envelope, ResolvingKey(stored), 1, 0))), events)
            == store.With(id, Call(messageId, envelope, Releasing(result), 1, 0))
    ensures DecodesAndWrites(c, Exec(c, old(store.Rest()), env.key.others), id, messageId, envelope, env, stored,
                             store.Rest(), result)
  {
    hide DecodeRatchetEnvelope, Exec, WritesBack;
    ghost var resolving := Call(messageId, envelope, ResolvingKey(stored), 1, 0);
    ghost var w0 := store.With(id, resolving);
    store.Let(c, id, resolving, env.key.others);
    ExecSnoc(c, w0, env.key.others, Resume(id, env.key.answer, env.newSecret));
    events := env.key.others + [Resume(id, env.key.answer, env.newSecret)];
    if Throws(env.key.answer) {
      return Err(StorageError), events;
    }
    if !env.key.answer.SenderKey? {
      return Err(NoSession), events;
    }
    var decoded := DecodeRatchetEnvelope(envelope, stored.state, c.contact, c.self, env.key.answer.key, env.newSecret);
    if decoded.Failed? {
      var malformed := decoded.reason == Malformed || decoded.reason == UnrecognizedVersion;
      return Err(if malformed then CorruptEnvelope else DecryptFailure), events;
    }
    assert Exec(c, w0, events)
        == store.With(id, Call(messageId, envelope, Writing(stored, decoded.plaintext, decoded.nextState), 1, 0));
    ghost var writing;
    result, writing := WriteBack(c, store, id, messageId, envelope, env, stored, decoded.plaintext, decoded.nextState);
    ExecConcat(c, w0, events, writing);
    events := events + writing;
  }

  /** The lookup of an earlier decryption, the version, and what follows. */
  method LookAndDecode(c: Contact, store: SessionStore, id: CallId, messageId: MessageId, envelope: Envelope, env: Environment,
                       stored: StoredSession)
    returns (result: ReceiveResult, ghost events: seq<Event>)
    requires id !in store.calls && AllOfOthers(id, env)
    modifies store
    ensures id !in store.calls
    ensures Exec(c, old(store.With(id, Call(messageId, envelope, CheckingCache(stored), 1, 0))), events)
            == store.With(id, Call(messageId, envelope, Releasing(result), 1, 0))
    ensures LooksAndDecodes(c, Exec(c, old(store.Rest()), env.cache.others), id, messageId, envelope, env, stored,
                            store.Rest(), result)
  {
    hide Exec, DecodesAndWrites;
    ghost var checking := Call(messageId, envelope, CheckingCache(stored), 1, 0);
    ghost var w0 := store.With(id, checking);
    store.Let(c, id, checking, env.cache.others);
    ExecSnoc(c, w0, env.cache.others, Resume(id, env.cache.answer, env.newSecret));
    events := env.cache.others + [Resume(id, env.cache.answer, env.newSecret)];
    if Throws(env.cache.answer) {
      return Err(StorageError), events;
    }
    CachedIsRecord(store.Rest(), messageId, envelope);
    var cached := store.CachedFor(messageId, DigestOf(envelope));
    if cached.Some? {
      return Ok(cached.value), events;
    }
    var first := FirstByte(envelope);
    if first == Some(0x02) {
      return Err(UnsupportedEnvelope), events;
    }
    if first != Some(0x03) {
      return Err(CorruptEnvelope), events;
    }
    assert Exec(c, w0, events) == store.With(id, Call(messageId, envelope, ResolvingKey(stored), 1, 0));
    ghost var decoding;
    result, decoding := DecodeAndWrite(c, store, id, messageId, envelope, env, stored);
    ExecConcat(c, w0, events, decoding);
    events := events + decoding;
  }

  /** What happens between acquire and release. */
  method Locked(c: Contact, store: SessionStore, id: CallId, messageId: MessageId, envelope: Envelope, env: Environment)
    returns (result: ReceiveResult, ghost events: seq<Event>)
    requires id !in store.calls && AllOfOthers(id, env)
    modifies store
    ensures id !in store.calls
    ensures Exec(c, old(store.With(id, Call(messageId, envelope, Reading, 1, 0))), events)
            == store.With(id, Call(messageId, envelope, Releasing(result), 1, 0))
    ensures var w := Exec(c, old(store.Rest()), env.read.others);
            if Throws(env.read.answer) then store.Rest() == w && result == Err(StorageError)
            else if w.session.None? then store.Rest() == w && result == Err(NoSession)
            else LooksAndDecodes(c, Exec(c, w, env.cache.others), id, messageId, envelope, env, w.session.value,
                                 store.Rest(), result)
  {
    hide DecodeRatchetEnvelope, Exec, LooksAndDecodes;
    ghost var reading := Call(messageId, envelope, Reading, 1, 0);
    ghost var w0 := store.With(id, reading);
    store.Let(c, id, reading, env.read.others);
    ExecSnoc(c, w0, env.read.others, Resume(id, env.read.answer, env.newSecret));
    events := env.read.others + [Resume(id, env.read.answer, env.newSecret)];
    if Throws(env.read.answer) {
      return Err(StorageError), events;
    }
    if store.session.None? {
      return Err(NoSession), events;
    }
    var stored := store.session.value;
    assert Exec(c, w0, events) == store.With(id, Call(messageId, envelope, CheckingCache(stored), 1, 0));
    ghost var looked;
    result, looked := LookAndDecode(c, store, id, messageId, envelope, env, stored);
    ExecConcat(c, w0, events, looked);
    events := events + looked;
  }

  /** Only others have moved the store. */
  ghost predicate ByOthers(c: Contact, id: CallId, w: World, w': World) {
    exists others :: OfOthers(id, others) && w' == Exec(c, w, others)
  }

  lemma OthersGoOn(c: Contact, id: CallId, w: World, w': World, more: seq<Event>)
    requires ByOthers(c, id, w, w') && OfOthers(id, more)
    ensures ByOthers(c, id, w, Exec(c, w', more))
  {
    hide Exec;
    var others :| OfOthers(id, others) && w' == Exec(c, w, others);
    ExecConcat(c, w, others, more);
    assert OfOthers(id, others + more);
  }

  /** One receive: the store it begins from and all its environment does. */
  datatype Receive = Receive(c: Contact, id: CallId, messageId: MessageId, envelope: Envelope, env: Environment, before: World) {
    /** The store at the answer of an await, as others have left it: the receive itself has not written yet. */
    function AtRead(): World { Exec(c, Exec(c, before, env.lock.others), env.read.others) }

    function AtLookup(): World { Exec(c, AtRead(), env.cache.others) }

    function AtWrite(): World { Exec(c, Exec(c, AtLookup(), env.key.others), env.write.others) }

    function AtRecheck(): World { Exec(c, AtWrite(), env.recheck.others) }

    predicate Reads() { env.lock.answer == Fulfilled && !Throws(env.read.answer) && AtRead().session.Some? }

    function Session(): StoredSession
      requires Reads()
    {
      AtRead().session.value
    }

    predicate Looks() { Reads() && !Throws(env.cache.answer) }

    ghost predicate Misses() { Looks() && Unrecorded(AtLookup(), messageId, envelope) }

    ghost predicate AsksKey() { Misses() && FirstByte(envelope) == Some(0x03) }

    ghost predicate Decodes() { AsksKey() && env.key.answer.SenderKey? }

    ghost function Decoding(): DecodeResult
      requires Decodes()
    {
      DecodeRatchetEnvelope(envelope, Session().state, c.contact, c.self, env.key.answer.key, env.newSecret)
    }

    ghost predicate DecodingFails(reason: FailureReason) { Decodes() && Decoding() == Failed(reason) }

    ghost predicate Writes() { Decodes() && Decoding().Decoded? }

    /** Nobody has moved the session since it was read. */
    predicate Current()
      requires Reads()
    {
      Generation(AtWrite().session) == Session().generation
    }

    /** The compare-and-set takes effect. */
    ghost predicate Moves() { Writes() && env.write.answer != Threw && Current() }

    ghost predicate Loses() { Writes() && !Throws(env.write.answer) && !Current() }

    /** Nothing stands in the way of decoding to `plaintext` and `next`. */
    ghost predicate Unhindered(plaintext: Bytes, next: RatchetState) {
      && Misses() && !Throws(env.write.answer) && Current()
      && env.key.answer.SenderKey?
      && DecodeRatchetEnvelope(envelope, Session().state, c.contact, c.self, env.key.answer.key, env.newSecret)
         == Decoded(plaintext, next)
    }

    /** When each answer is given. */
    ghost predicate Answers(result: ReceiveResult) {
      && (result == Err(LockTimeout) <==> env.lock.answer != Fulfilled)
      && (result == Err(NoSession) <==>
            || (env.lock.answer == Fulfilled && !Throws(env.read.answer) && AtRead().session.None?)
            || (AsksKey() && (env.key.answer == Fulfilled || env.key.answer == Empty)))
      && (result == Err(UnsupportedEnvelope) <==>
            Misses() && (envelope.HandshakeEnvelope? || envelope == TooShort(Some(0x02)) || envelope == UnknownVersion(0x02)))
      && (result == Err(CorruptEnvelope) <==>
            || (Misses() && FirstByte(envelope) != Some(0x02) && FirstByte(envelope) != Some(0x03))
            || DecodingFails(Malformed) || DecodingFails(UnrecognizedVersion))
      && (result == Err(DecryptFailure) <==>
            DecodingFails(SignatureFailure) || DecodingFails(Rejected) || DecodingFails(AeadFailure))
      && (result == Err(StateConflict) <==>
            Loses() && !Throws(env.recheck.answer) && Unrecorded(AtRecheck(), messageId, envelope))
      && (result == Err(StorageError) <==>
            || (env.lock.answer == Fulfilled && Throws(env.read.answer))
            || (Reads() && Throws(env.cache.answer))
            || (AsksKey() && Throws(env.key.answer))
            || (Writes() && Throws(env.write.answer))
            || (Loses() && Throws(env.recheck.answer)))
      && (forall plaintext :: result == Ok(plaintext) <==>
            || (Looks() && Recorded(AtLookup(), messageId, envelope, plaintext))
            || (Moves() && env.write.answer != ThrewLate && Decoding().plaintext == plaintext)
            || (Loses() && !Throws(env.recheck.answer) && Recorded(AtRecheck(), messageId, envelope, plaintext)))
    }

    /** The store in the end: moved on by exactly one commit, or as others alone have left it. */
    ghost predicate Leaves(after: World) {
      if Moves() then
        var (w, stored, d) := (AtWrite(), Session(), Decoding());
        after == Exec(c, World(Some(StoredSession(d.nextState, stored.generation + 1)),
                               w.decrypted[messageId := StoredDecrypted(DigestOf(envelope), d.plaintext)],
                               w.calls,
                               w.commits + [Commit(id, messageId, envelope, stored.state, d.nextState, d.plaintext,
                                                   env.write.answer != ThrewLate)]),
                      env.unlock.others)
      else ByOthers(c, id, before, after)
    }
  }

  lemma UntilTheWrite(q: Receive)
    requires AllOfOthers(q.id, q.env)
    ensures ByOthers(q.c, q.id, q.before, Exec(q.c, q.before, q.env.lock.others))
    ensures ByOthers(q.c, q.id, q.before, q.AtRead()) && ByOthers(q.c, q.id, q.before, q.AtLookup())
    ensures ByOthers(q.c, q.id, q.before, Exec(q.c, q.AtLookup(), q.env.key.others))
    ensures ByOthers(q.c, q.id, q.before, q.AtWrite()) && ByOthers(q.c, q.id, q.before, q.AtRecheck())
  {
    hide ByOthers;
    assert ByOthers(q.c, q.id, q.before, q.before) by { Nobody(q.c, q.id, q.before); }
    OthersGoOn(q.c, q.id, q.before, q.before, q.env.lock.others);
    OthersGoOn(q.c, q.id, q.before, Exec(q.c, q.before, q.env.lock.others), q.env.read.others);
    OthersGoOn(q.c, q.id, q.before, q.AtRead(), q.env.cache.others);
    OthersGoOn(q.c, q.id, q.before, q.AtLookup(), q.env.key.others);
    OthersGoOn(q.c, q.id, q.before, Exec(q.c, q.AtLookup(), q.env.key.others), q.env.write.others);
    OthersGoOn(q.c, q.id, q.before, q.AtWrite(), q.env.recheck.others);
  }

  lemma Nobody(c: Contact, id: CallId, w: World)
    ensures ByOthers(c, id, w, w)
  {
    assert OfOthers(id, []) && w == Exec(c, w, []);
  }

  /** The parts add up, from the store at the read to the store at the release. */
  lemma LockedAnswers(q: Receive, after: World, result: ReceiveResult)
    requires q.env.lock.answer == Fulfilled
    requires var w := q.AtRead();
             if Throws(q.env.read.answer) then after == w && result == Err(StorageError)
             else if w.session.None? then after == w && result == Err(NoSession)
             else LooksAndDecodes(q.c, q.AtLookup(), q.id, q.messageId, q.envelope, q.env, w.session.value, after, result)
    ensures q.Answers(result)
    ensures forall plaintext, next :: q.Unhindered(plaintext, next) ==> result == Ok(plaintext)
  {
    hide Exec;
  }

  lemma LockedLeaves(q: Receive, after: World, result: ReceiveResult)
    requires q.env.lock.answer == Fulfilled && AllOfOthers(q.id, q.env)
    requires var w := q.AtRead();
             if Throws(q.env.read.answer) then after == w && result == Err(StorageError)
             else if w.session.None? then after == w && result == Err(NoSession)
             else LooksAndDecodes(q.c, q.AtLookup(), q.id, q.messageId, q.envelope, q.env, w.session.value, after, result)
    ensures q.Leaves(Exec(q.c, after, q.env.unlock.others))
  {
    hide Exec, ByOthers;
    UntilTheWrite(q);
    if !q.Moves() {
      assert ByOthers(q.c, q.id, q.before, after);
      OthersGoOn(q.c, q.id, q.before, after, q.env.unlock.others);
    }
  }

  lemma RefusedAnswers(q: Receive)
    requires q.env.lock.answer != Fulfilled && AllOfOthers(q.id, q.env)
    ensures q.Answers(Err(LockTimeout)) && q.Leaves(Exec(q.c, q.before, q.env.lock.others))
    ensures forall plaintext, next :: !q.Unhindered(plaintext, next)
  {
    hide Exec, ByOthers;
    UntilTheWrite(q);
  }

  /** A receive, whatever others do at each of its awaits, is a run of `SharedSession`: the store and the
      result are the run's. */
  method ReceiveLocked(c: Contact, store: SessionStore, id: CallId, messageId: MessageId, envelope: Envelope, env: Environment)
    returns (result: ReceiveResult, ghost events: seq<Event>)
    requires id !in store.calls && AllOfOthers(id, env)
    modifies store
    ensures id !in store.calls
    ensures exists held :: Exec(c, old(store.Rest()), events)
                           == store.With(id, Call(messageId, envelope, Done(result), held, held))
    ensures Receive(c, id, messageId, envelope, env, old(store.Rest())).Answers(result)
    ensures Receive(c, id, messageId, envelope, env, old(store.Rest())).Leaves(store.Rest())
    ensures forall plaintext, next :: Receive(c, id, messageId, envelope, env, old(store.Rest())).Unhindered(plaintext, next) ==>
              result == Ok(plaintext)
  {
    hide Advance, Exec, ByOthers, LooksAndDecodes, Receive.Answers, Receive.Leaves, Receive.Unhindered;
    ghost var w0 := store.Rest();
    ghost var q := Receive(c, id, messageId, envelope, env, w0);
    ghost var begun := Call(messageId, envelope, Acquiring, 0, 0);
    ExecOne(c, w0, Begin(id, messageId, envelope));
    assert Exec(c, w0, [Begin(id, messageId, envelope)]) == store.With(id, begun);
    store.Let(c, id, begun, env.lock.others);
    ExecConcat(c, w0, [Begin(id, messageId, envelope)], env.lock.others);
    events := [Begin(id, messageId, envelope)] + env.lock.others;
    AcquireAdvances(c, store.With(id, begun), begun, env);
    ExecSnoc(c, w0, events, Resume(id, env.lock.answer, env.newSecret));
    events := events + [Resume(id, env.lock.answer, env.newSecret)];
    if env.lock.answer != Fulfilled {
      result := Err(LockTimeout);
      RefusedAnswers(q);
      assert Exec(c, w0, events) == store.With(id, Call(messageId, envelope, Done(result), 0, 0));
    } else {
      ghost var locked;
      assert Exec(c, w0, events) == store.With(id, Call(messageId, envelope, Reading, 1, 0));
      result, locked := Locked(c, store, id, messageId, envelope, env);
      ExecConcat(c, w0, events, locked);
      events := events + locked;
      LockedAnswers(q, store.Rest(), result);
      LockedLeaves(q, store.Rest(), result);
      ghost var releasing := Call(messageId, envelope, Releasing(result), 1, 0);
      store.Let(c, id, releasing, env.unlock.others);
      ExecConcat(c, w0, events, env.unlock.others);
      ReleaseAdvances(c, store.With(id, releasing), releasing, env);
      ExecSnoc(c, w0, events + env.unlock.others, Resume(id, env.unlock.answer, env.newSecret));
      events := events + env.unlock.others + [Resume(id, env.unlock.answer, env.newSecret)];
      assert Exec(c, w0, events) == store.With(id, Call(messageId, envelope, Done(result), 1, 1));
    }
  }

  lemma AcquireAdvances(c: Contact, w: World, call: Call, env: Environment)
    requires call.at == Acquiring
    ensures Advance(c, w, call, env.lock.answer, env.newSecret)
            == if env.lock.answer == Fulfilled then Reading else Done(Err(LockTimeout))
  {
  }

  lemma ReleaseAdvances(c: Contact, w: World, call: Call, env: Environment)
    requires call.at.Releasing?
    ensures Advance(c, w, call, env.unlock.answer, env.newSecret) == Done(call.at.result)
  {
  }

  lemma ExecOne(c: Contact, w: World, ev: Event)
    ensures Exec(c, w, [ev]) == Step(c, w, ev)
  {
    hide Step;
    assert [ev][..0] == [];
  }

  lemma ExecSnoc(c: Contact, w: World, events: seq<Event>, ev: Event)
    ensures Exec(c, w, events + [ev]) == Step(c, Exec(c, w, events), ev)
  {
    hide Step;
    assert (events + [ev])[..|events|] == events;
  }

  lemma {:induction false} ExecConcat(c: Contact, w: World, first: seq<Event>, more: seq<Event>)
    ensures Exec(c, w, first + more) == Exec(c, Exec(c, w, first), more)
  {
    hide Step;
    if more == [] {
      assert first + more == first;
    } else {
      ExecConcat(c, w, first, more[..|more| - 1]);
      assert (first + more)[..|first + more| - 1] == first + more[..|more| - 1];
    }
  }
}
