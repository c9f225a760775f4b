/**
 The mobile message envelope: encryption to a recipient's capability, decryption
 with the retained private keys, and what the two promise together. Primitives are
 functions of a `Crypto` record with their correctness equations; randomness and
 the clock are parameters.
 */
module Envelope {
  import opened Wrappers
  import opened Uuid
  import opened Transcript

  const KEM_CIPHERTEXT_SIZE := 1568
  const KEM_PUBLIC_SIZE := 1568
  const MLDSA_PUBLIC_SIZE := 2592
  const MLDSA_SIGNATURE_SIZE := 4627
  const MLDSA_PRIVATE_SIZE := 4896
  const ED_SEED_SIZE := 32
  const ED_SIGNATURE_SIZE := 64
  const GCM_TAG_SIZE := 16
  const MAX_PLAINTEXT := 8 * 1024 * 1024

  datatype Crypto = Crypto(
    sha: Bytes -> Bytes,
    dhPublic: Bytes -> Bytes,
    dh: (Bytes, Bytes) -> Option<Bytes>,
    kemPublic: Bytes -> Bytes,
    kemPublicOk: Bytes -> bool,
    kemPrivateOk: Bytes -> bool,
    encapsulate: (Bytes, Bytes) -> (Bytes, Bytes),
    decapsulate: (Bytes, Bytes) -> Bytes,
    hkdf: (Bytes, Bytes, Bytes) -> Bytes,
    seal: (Bytes, Bytes, Bytes, Bytes) -> Bytes,
    open: (Bytes, Bytes, Bytes, Bytes) -> Option<Bytes>,
    edPublic: Bytes -> Bytes,
    edSign: (Bytes, Bytes) -> Bytes,
    edVerify: (Bytes, Bytes, Bytes) -> bool,
    mlPublic: Bytes -> Bytes,
    mlSign: (Bytes, Bytes, Bytes) -> Bytes,
    mlVerify: (Bytes, Bytes, Bytes) -> bool
  )

  /** Both ends of a Diffie-Hellman exchange compute the same. */
  ghost predicate DhAgrees(c: Crypto) {
    && (forall a: Bytes, b: Bytes :: c.dh(a, c.dhPublic(b)) == c.dh(b, c.dhPublic(a)))
    && (forall a: Bytes :: |c.dhPublic(a)| == X25519_KEY_SIZE)
  }

  /** Decapsulating with the private key recovers the encapsulated secret. */
  ghost predicate KemAgrees(c: Crypto) {
    && (forall private: Bytes, seed: Bytes ::
          c.decapsulate(private, c.encapsulate(c.kemPublic(private), seed).0)
            == c.encapsulate(c.kemPublic(private), seed).1)
    && (forall public: Bytes, seed: Bytes :: |c.encapsulate(public, seed).0| == KEM_CIPHERTEXT_SIZE)
  }

  /** Opening with the same key, nonce and additional data recovers the plaintext. */
  ghost predicate AeadAgrees(c: Crypto) {
    && (forall key: Bytes, iv: Bytes, plaintext: Bytes, aad: Bytes ::
          c.open(key, iv, c.seal(key, iv, plaintext, aad), aad) == Some(plaintext))
    && (forall key: Bytes, iv: Bytes, plaintext: Bytes, aad: Bytes ::
          |c.seal(key, iv, plaintext, aad)| == |plaintext| + GCM_TAG_SIZE)
  }

  ghost predicate SignaturesVerify(c: Crypto) {
    && (forall seed: Bytes, payload: Bytes :: c.edVerify(c.edPublic(seed), payload, c.edSign(seed, payload)))
    && (forall seed: Bytes, payload: Bytes :: |c.edSign(seed, payload)| == ED_SIGNATURE_SIZE)
    && (forall private: Bytes, payload: Bytes, random: Bytes ::
          c.mlVerify(c.mlPublic(private), payload, c.mlSign(private, payload, random)))
    && (forall private: Bytes, payload: Bytes, random: Bytes ::
          |c.mlSign(private, payload, random)| == MLDSA_SIGNATURE_SIZE)
  }

  ghost predicate Lawful(c: Crypto) {
    DhAgrees(c) && KemAgrees(c) && AeadAgrees(c) && SignaturesVerify(c)
  }

  datatype KeyBundle = KeyBundle(
    edSeed: Bytes, edPublic: Bytes, xPrivate: Bytes, xPublic: Bytes,
    kemPrivate: Bytes, mlPrivate: Bytes, mlPublic: Bytes)

  /** The public halves belong to the private ones, in the sizes of the algorithms. */
  predicate Matching(c: Crypto, keys: KeyBundle) {
    && |keys.edSeed| == ED_SEED_SIZE && keys.edPublic == c.edPublic(keys.edSeed) && |keys.edPublic| == IDENTITY_KEY_SIZE
    && keys.xPublic == c.dhPublic(keys.xPrivate)
    && c.kemPrivateOk(keys.kemPrivate)
    && |keys.mlPrivate| == MLDSA_PRIVATE_SIZE && keys.mlPublic == c.mlPublic(keys.mlPrivate)
      && |keys.mlPublic| == MLDSA_PUBLIC_SIZE
  }

  datatype Recipient = Recipient(identity: Bytes, x: Bytes, kem: Bytes, ml: Bytes, deviceKeyId: string)

  /** `NewMessageRecipient` accepts exactly these. */
  predicate ValidRecipient(c: Crypto, r: Recipient) {
    && |r.identity| == IDENTITY_KEY_SIZE && |r.x| == X25519_KEY_SIZE && |r.kem| == KEM_PUBLIC_SIZE
    && (|r.ml| == 0 || |r.ml| == MLDSA_PUBLIC_SIZE)
    && (r.deviceKeyId == "" || Canonical(r.deviceKeyId))
    && c.kemPublicOk(r.kem)
  }

  /** The capability was made from the public keys of this bundle. */
  predicate CapabilityOf(c: Crypto, r: Recipient, keys: KeyBundle) {
    r.identity == keys.edPublic && r.x == keys.xPublic && r.kem == c.kemPublic(keys.kemPrivate)
  }

  datatype Sender = Sender(ed: Bytes, ml: Bytes)

  datatype Message = Message(
    suite: string, kemCiphertext: Bytes, ephemeralPublic: Bytes, payload: Bytes, iv: Bytes,
    edSignature: Bytes, mlSignature: Bytes, senderMl: Bytes,
    messageId: string, timestamp: int, deviceKeyId: string, recipientBox: Bytes)

  /** `validateEnvelopeFields`. */
  predicate ValidMessage(e: Message) {
    && (e.suite == STANDARD_SUITE || e.suite == TOP_SECRET_SUITE)
    && |e.kemCiphertext| == KEM_CIPHERTEXT_SIZE && |e.ephemeralPublic| == X25519_KEY_SIZE
    && GCM_TAG_SIZE <= |e.payload| <= MAX_PLAINTEXT + GCM_TAG_SIZE
    && |e.iv| == IV_SIZE && |e.edSignature| == ED_SIGNATURE_SIZE && |e.recipientBox| == X25519_KEY_SIZE
    && Canonical(e.messageId) && 0 < e.timestamp <= MAX_TIMESTAMP
    && (e.deviceKeyId == "" || Canonical(e.deviceKeyId))
    && (if e.suite == TOP_SECRET_SUITE then |e.mlSignature| == MLDSA_SIGNATURE_SIZE && |e.senderMl| == MLDSA_PUBLIC_SIZE
        else e.mlSignature == [] && e.senderMl == [])
  }

  // ----- Key derivation

  function DerivedKey(c: Crypto, private: Bytes, peer: Bytes, ephemeral: Bytes, kemCiphertext: Bytes,
                      kemSecret: Bytes, suite: string): Option<Bytes> {
    match c.dh(private, peer)
    case None => None
    case Some(secret) =>
      if |secret| != X25519_KEY_SIZE then None
      else Some(c.hkdf(Hybrid(secret, kemSecret), ephemeral + kemCiphertext, AsBytes(suite)))
  }

  /** `deriveSymmetricMessageKey`. */
  method DeriveKey(c: Crypto, private: Bytes, peer: Bytes, ephemeral: Bytes, kemCiphertext: Bytes, kemSecret: Bytes,
                   suite: string) returns (key: Option<Bytes>)
    ensures key == DerivedKey(c, private, peer, ephemeral, kemCiphertext, kemSecret, suite)
  {
    var secret := c.dh(private, peer);
    if secret.None? || |secret.value| != X25519_KEY_SIZE {
      return None;
    }
    var ikm := CombineHybridSecrets(secret.value, kemSecret);
    var salt: Bytes := [];
    salt := salt + ephemeral;
    salt := salt + kemCiphertext;
    assert salt == ephemeral + kemCiphertext;
    return Some(c.hkdf(ikm, salt, AsBytes(suite)));
  }

  // ----- Encryption

  /** Everything an encryption draws at random. */
  datatype Draws = Draws(kemSeed: Bytes, ephemeral: Bytes, iv: Bytes, id: Bytes, signing: Bytes)

  predicate ValidDraws(d: Draws) { |d.iv| == IV_SIZE && |d.id| == 16 }

  function SuiteOf(topSecret: bool): string { if topSecret then TOP_SECRET_SUITE else STANDARD_SUITE }

  function IdFor(messageId: string, d: Draws): string
    requires ValidDraws(d)
  {
    if messageId == "" then Text(Stamped(d.id)) else messageId
  }

  function TimeFor(timestamp: int, now: int): int { if timestamp == 0 then now else timestamp }

  /** The transcript of what is sent, payload still missing. */
  function SentTranscript(c: Crypto, sender: KeyBundle, r: Recipient, suite: string, messageId: string,
                          timestamp: int, d: Draws): MessageTranscript {
    MessageTranscript(suite, sender.edPublic, r.identity, r.x, r.deviceKeyId, c.dhPublic(d.ephemeral),
                      c.encapsulate(r.kem, d.kemSeed).0, messageId, timestamp, d.iv, [])
  }

  function SentKey(c: Crypto, r: Recipient, suite: string, d: Draws): Option<Bytes> {
    var (kemCiphertext, kemSecret) := c.encapsulate(r.kem, d.kemSeed);
    DerivedKey(c, d.ephemeral, r.x, c.dhPublic(d.ephemeral), kemCiphertext, kemSecret, suite)
  }

  /** The envelope under a derived key. */
  function Sealed(c: Crypto, sender: KeyBundle, r: Recipient, plaintext: Bytes, topSecret: bool, messageId: string,
                  timestamp: int, d: Draws, key: Bytes): Message {
    var suite := SuiteOf(topSecret);
    var t := SentTranscript(c, sender, r, suite, messageId, timestamp, d);
    var payload := c.seal(key, d.iv, plaintext, Aad(c.sha, t));
    var signed := SignaturePayload(c.sha, t.(payload := payload));
    Message(suite, t.kemCiphertext, t.ephemeralPublic, payload, d.iv, c.edSign(sender.edSeed, signed),
            if topSecret then c.mlSign(sender.mlPrivate, signed, d.signing) else [],
            if topSecret then sender.mlPublic else [],
            messageId, timestamp, r.deviceKeyId, r.x)
  }

  /** What a caller must get right for an encryption to go through. */
  predicate Accepts(c: Crypto, r: Recipient, plaintext: Bytes, messageId: string, timestamp: int, topSecret: bool,
                    d: Draws, now: int) {
    && |plaintext| <= MAX_PLAINTEXT
    && (messageId == "" || Canonical(messageId))
    && 0 <= timestamp <= MAX_TIMESTAMP
    && (timestamp == 0 ==> 0 < now <= MAX_TIMESTAMP)
    && (topSecret ==> |r.ml| == MLDSA_PUBLIC_SIZE)
    && SentKey(c, r, SuiteOf(topSecret), d).Some?
  }

  /** A sealed message passes the validation of `NewMessageEnvelope`. */
  lemma SealedIsValid(c: Crypto, sender: KeyBundle, r: Recipient, plaintext: Bytes, topSecret: bool,
                      messageId: string, timestamp: int, d: Draws, key: Bytes)
    requires Lawful(c) && Matching(c, sender) && ValidRecipient(c, r) && ValidDraws(d)
    requires |plaintext| <= MAX_PLAINTEXT && Canonical(messageId) && 0 < timestamp <= MAX_TIMESTAMP
    ensures ValidMessage(Sealed(c, sender, r, plaintext, topSecret, messageId, timestamp, d, key))
  {
    SuiteLengths();
  }

  /** The second half of the encryption: transcript, seal, sign. */
  method SealAndSign(c: Crypto, sender: KeyBundle, r: Recipient, plaintext: Bytes, topSecret: bool, messageId: string,
                     timestamp: int, d: Draws, key: Bytes) returns (e: Message)
    ensures e == Sealed(c, sender, r, plaintext, topSecret, messageId, timestamp, d, key)
  {
    var suite := SuiteOf(topSecret);
    var (kemCiphertext, _) := c.encapsulate(r.kem, d.kemSeed);
    var ephemeralPublic := c.dhPublic(d.ephemeral);
    var t := MessageTranscript(suite, sender.edPublic, r.identity, r.x, r.deviceKeyId, ephemeralPublic, kemCiphertext,
                               messageId, timestamp, d.iv, []);
    var aad := BuildAad(c.sha, t);
    t := t.(payload := c.seal(key, d.iv, plaintext, aad));
    var signed := BuildSignaturePayload(c.sha, t);
    e := Message(suite, kemCiphertext, ephemeralPublic, t.payload, d.iv, c.edSign(sender.edSeed, signed), [], [],
                 messageId, timestamp, r.deviceKeyId, r.x);
    if topSecret {
      e := e.(mlSignature := c.mlSign(sender.mlPrivate, signed, d.signing), senderMl := sender.mlPublic);
    }
  }

  /** The id and the time an encryption settles on, when it does. */
  method PickIdAndTime(messageId: string, timestamp: int, d: Draws, now: int) returns (id: string, time: int, ok: bool)
    requires ValidDraws(d) && (messageId == "" || Canonical(messageId)) && 0 <= timestamp <= MAX_TIMESTAMP
    ensures ok <==> (timestamp == 0 ==> 0 < now <= MAX_TIMESTAMP)
    ensures ok ==> id == IdFor(messageId, d) && time == TimeFor(timestamp, now)
    ensures ok ==> Canonical(id) && 0 < time <= MAX_TIMESTAMP
  {
    id, time := messageId, timestamp;
    if id == "" {
      id := Generate(d.id);
      GeneratedIsCanonical(d.id);
    }
    if time == 0 {
      time := now;
    }
    ok := Canonical(id) && 0 < time <= MAX_TIMESTAMP;
  }

  /** The hybrid key of a message to this recipient. */
  method DeriveSentKey(c: Crypto, r: Recipient, suite: string, d: Draws) returns (key: Option<Bytes>)
    ensures key == SentKey(c, r, suite, d)
  {
    var (kemCiphertext, kemSecret) := c.encapsulate(r.kem, d.kemSeed);
    var ephemeralPublic := c.dhPublic(d.ephemeral);
    key := DeriveKey(c, d.ephemeral, r.x, ephemeralPublic, kemCiphertext, kemSecret, suite);
  }

  /** `encryptMessageWithRuntime`: every way out is `None` but the last. */
  method Encrypt(c: Crypto, sender: KeyBundle, r: Recipient, plaintext: Bytes, messageId: string, timestamp: int,
                 topSecret: bool, d: Draws, now: int) returns (e: Option<Message>)
    requires Lawful(c) && Matching(c, sender) && ValidRecipient(c, r) && ValidDraws(d)
    ensures e.Some? <==> Accepts(c, r, plaintext, messageId, timestamp, topSecret, d, now)
    ensures e.Some? ==> ValidMessage(e.value)
    ensures e.Some? ==>
      e.value == Sealed(c, sender, r, plaintext, topSecret, IdFor(messageId, d), TimeFor(timestamp, now), d,
                        SentKey(c, r, SuiteOf(topSecret), d).value)
  {
    if |plaintext| > MAX_PLAINTEXT || (messageId != "" && !Canonical(messageId)) || timestamp < 0
      || timestamp > MAX_TIMESTAMP {
      return None;
    }
    if topSecret && |r.ml| != MLDSA_PUBLIC_SIZE {
      return None;
    }
    var key := DeriveSentKey(c, r, SuiteOf(topSecret), d);
    if key.None? {
      return None;
    }
    var id, time, ok := PickIdAndTime(messageId, timestamp, d, now);
    if !ok {
      return None;
    }
    SealedIsValid(c, sender, r, plaintext, topSecret, id, time, d, key.value);
    var message := SealAndSign(c, sender, r, plaintext, topSecret, id, time, d, key.value);
    return Some(message);
  }

  // ----- Decryption

  function ReceivedTranscript(keys: KeyBundle, sender: Sender, e: Message): MessageTranscript {
    MessageTranscript(e.suite, sender.ed, keys.edPublic, keys.xPublic, e.deviceKeyId, e.ephemeralPublic,
                      e.kemCiphertext, e.messageId, e.timestamp, e.iv, e.payload)
  }

  /** The envelope is well-formed, addressed here, and signed by the trusted sender. */
  predicate Authenticated(c: Crypto, keys: KeyBundle, sender: Sender, e: Message) {
    && ValidMessage(e) && e.recipientBox == keys.xPublic
    && var signed := SignaturePayload(c.sha, ReceivedTranscript(keys, sender, e));
    && c.edVerify(sender.ed, signed, e.edSignature)
    && (e.suite == TOP_SECRET_SUITE ==>
          |sender.ml| == MLDSA_PUBLIC_SIZE && e.senderMl == sender.ml && c.mlVerify(e.senderMl, signed, e.mlSignature))
  }

  function ReceivedKey(c: Crypto, keys: KeyBundle, e: Message): Option<Bytes> {
    DerivedKey(c, keys.xPrivate, e.ephemeralPublic, e.ephemeralPublic, e.kemCiphertext,
               c.decapsulate(keys.kemPrivate, e.kemCiphertext), e.suite)
  }

  function Decrypted(c: Crypto, keys: KeyBundle, sender: Sender, e: Message): Option<Bytes> {
    if !Authenticated(c, keys, sender, e) || !c.kemPrivateOk(keys.kemPrivate) then None
    else match ReceivedKey(c, keys, e)
         case None => None
         case Some(key) =>
           match c.open(key, e.iv, e.payload, Aad(c.sha, ReceivedTranscript(keys, sender, e)))
           case None => None
           case Some(plaintext) => if |plaintext| > MAX_PLAINTEXT then None else Some(plaintext)
  }

  /** `DecryptMessage`: signatures first, then the private keys. */
  method Decrypt(c: Crypto, keys: KeyBundle, sender: Sender, e: Message) returns (plaintext: Option<Bytes>)
    ensures plaintext == Decrypted(c, keys, sender, e)
  {
    if !ValidMessage(e) {
      return None;
    }
    if e.recipientBox != keys.xPublic {
      return None;
    }
    var t := MessageTranscript(e.suite, sender.ed, keys.edPublic, keys.xPublic, e.deviceKeyId, e.ephemeralPublic,
                               e.kemCiphertext, e.messageId, e.timestamp, e.iv, e.payload);
    var signed := BuildSignaturePayload(c.sha, t);
    if !c.edVerify(sender.ed, signed, e.edSignature) {
      return None;
    }
    if e.suite == TOP_SECRET_SUITE {
      if |sender.ml| != MLDSA_PUBLIC_SIZE || e.senderMl != sender.ml || !c.mlVerify(e.senderMl, signed, e.mlSignature) {
        return None;
      }
    }
    if !c.kemPrivateOk(keys.kemPrivate) {
      return None;
    }
    var kemSecret := c.decapsulate(keys.kemPrivate, e.kemCiphertext);
    var key := DeriveKey(c, keys.xPrivate, e.ephemeralPublic, e.ephemeralPublic, e.kemCiphertext, kemSecret, e.suite);
    if key.None? {
      return None;
    }
    var aad := BuildAad(c.sha, t);
    plaintext := c.open(key.value, e.iv, e.payload, aad);
    if plaintext.Some? && |plaintext.value| > MAX_PLAINTEXT {
      return None;
    }
  }

  // ----- What the two promise together

  /** The additional data does not depend on the payload. */
  lemma AadIgnoresPayload(sha: Bytes -> Bytes, t: MessageTranscript, payload: Bytes)
    ensures Aad(sha, t) == Aad(sha, t.(payload := payload))
  {
    assert AadFields(sha, t) == AadFields(sha, t.(payload := payload));
  }

  lemma KeysAgree(c: Crypto, r: Recipient, keys: KeyBundle, e: Message, d: Draws)
    requires Lawful(c) && Matching(c, keys) && CapabilityOf(c, r, keys)
    requires e.ephemeralPublic == c.dhPublic(d.ephemeral) && e.kemCiphertext == c.encapsulate(r.kem, d.kemSeed).0
    ensures ReceivedKey(c, keys, e) == SentKey(c, r, e.suite, d)
  {
    assert c.dh(d.ephemeral, c.dhPublic(keys.xPrivate)) == c.dh(keys.xPrivate, c.dhPublic(d.ephemeral));
    assert c.decapsulate(keys.kemPrivate, c.encapsulate(c.kemPublic(keys.kemPrivate), d.kemSeed).0)
        == c.encapsulate(c.kemPublic(keys.kemPrivate), d.kemSeed).1;
  }

  /** A sealed message opens for the bundle whose capability it was sealed to. */
  lemma SealedOpens(c: Crypto, sender: KeyBundle, r: Recipient, plaintext: Bytes, topSecret: bool, messageId: string,
                    timestamp: int, d: Draws, key: Bytes, keys: KeyBundle)
    requires Lawful(c) && Matching(c, sender) && Matching(c, keys) && CapabilityOf(c, r, keys)
    requires |plaintext| <= MAX_PLAINTEXT && SentKey(c, r, SuiteOf(topSecret), d) == Some(key)
    requires ValidMessage(Sealed(c, sender, r, plaintext, topSecret, messageId, timestamp, d, key))
    ensures Decrypted(c, keys, Sender(sender.edPublic, sender.mlPublic),
                      Sealed(c, sender, r, plaintext, topSecret, messageId, timestamp, d, key)) == Some(plaintext)
  {
    var e := Sealed(c, sender, r, plaintext, topSecret, messageId, timestamp, d, key);
    var s := Sender(sender.edPublic, sender.mlPublic);
    var sent := SentTranscript(c, sender, r, SuiteOf(topSecret), messageId, timestamp, d);
    var received := ReceivedTranscript(keys, s, e);
    assert received == sent.(payload := e.payload);
    AadIgnoresPayload(c.sha, sent, e.payload);
    KeysAgree(c, r, keys, e, d);
    SuiteLengths();
    var signed := SignaturePayload(c.sha, received);
    assert c.edVerify(c.edPublic(sender.edSeed), signed, c.edSign(sender.edSeed, signed));
    assert c.mlVerify(c.mlPublic(sender.mlPrivate), signed, c.mlSign(sender.mlPrivate, signed, d.signing));
    assert c.open(key, d.iv, c.seal(key, d.iv, plaintext, Aad(c.sha, sent)), Aad(c.sha, sent)) == Some(plaintext);
  }

  /**
   The round trip: whatever `Encrypt` accepts for the capability of a key bundle, under
   both suites, with supplied or generated id and time, passes validation and is
   decrypted by that bundle to the same plaintext.
   */
  lemma RoundTrip(c: Crypto, sender: KeyBundle, r: Recipient, plaintext: Bytes, messageId: string, timestamp: int,
                  topSecret: bool, d: Draws, now: int, keys: KeyBundle)
    requires Lawful(c) && Matching(c, sender) && Matching(c, keys)
    requires ValidRecipient(c, r) && CapabilityOf(c, r, keys) && ValidDraws(d)
    requires Accepts(c, r, plaintext, messageId, timestamp, topSecret, d, now)
    ensures var e := Sealed(c, sender, r, plaintext, topSecret, IdFor(messageId, d), TimeFor(timestamp, now), d,
                            SentKey(c, r, SuiteOf(topSecret), d).value);
      ValidMessage(e) && Decrypted(c, keys, Sender(sender.edPublic, sender.mlPublic), e) == Some(plaintext)
  {
    GeneratedIsCanonical(d.id);
    var id, time, key := IdFor(messageId, d), TimeFor(timestamp, now), SentKey(c, r, SuiteOf(topSecret), d).value;
    SealedIsValid(c, sender, r, plaintext, topSecret, id, time, d, key);
    SealedOpens(c, sender, r, plaintext, topSecret, id, time, d, key, keys);
  }

  function Zeros(n: nat): (r: Bytes)
    ensures |r| == n
  {
    seq(n, i => 0)
  }

  /** A degenerate instance, to see that the equations do not contradict each other. */
  function Degenerate(): Crypto {
    Crypto(_ => Zeros(HASH_SIZE), _ => Zeros(X25519_KEY_SIZE), (_, _) => Some(Zeros(X25519_KEY_SIZE)),
           _ => Zeros(KEM_PUBLIC_SIZE), _ => true, _ => true,
           (_, _) => (Zeros(KEM_CIPHERTEXT_SIZE), []), (_, _) => [], (_, _, _) => [],
           (_, _, plaintext, _) => plaintext + Zeros(GCM_TAG_SIZE),
           (_, _, sealed, _) => if |sealed| < GCM_TAG_SIZE then None else Some(sealed[..|sealed| - GCM_TAG_SIZE]),
           _ => Zeros(IDENTITY_KEY_SIZE), (_, _) => Zeros(ED_SIGNATURE_SIZE),
           (_, _, signature) => signature == Zeros(ED_SIGNATURE_SIZE),
           _ => Zeros(MLDSA_PUBLIC_SIZE), (_, _, _) => Zeros(MLDSA_SIGNATURE_SIZE),
           (_, _, signature) => signature == Zeros(MLDSA_SIGNATURE_SIZE))
  }

  lemma LawsAreConsistent()
    ensures Lawful(Degenerate())
  {
    var c := Degenerate();
    forall key: Bytes, iv: Bytes, plaintext: Bytes, aad: Bytes
      ensures c.open(key, iv, c.seal(key, iv, plaintext, aad), aad) == Some(plaintext)
    {
      assert (plaintext + Zeros(GCM_TAG_SIZE))[..|plaintext|] == plaintext;
    }
    assert AeadAgrees(c);
  }

  // ----- Authenticity

  /** One call of `Encrypt` by the sender, with what it drew. */
  datatype Sending = Sending(r: Recipient, plaintext: Bytes, messageId: string, timestamp: int, topSecret: bool,
                             d: Draws, now: int)

  predicate WentOut(c: Crypto, s: Sending) {
    ValidRecipient(c, s.r) && ValidDraws(s.d)
      && Accepts(c, s.r, s.plaintext, s.messageId, s.timestamp, s.topSecret, s.d, s.now)
  }

  function Sent(c: Crypto, sender: KeyBundle, s: Sending): Message
    requires WentOut(c, s)
  {
    Sealed(c, sender, s.r, s.plaintext, s.topSecret, IdFor(s.messageId, s.d), TimeFor(s.timestamp, s.now), s.d,
           SentKey(c, s.r, SuiteOf(s.topSecret), s.d).value)
  }

  /** The transcript signed for a sending. */
  function TranscriptOf(c: Crypto, sender: KeyBundle, s: Sending): MessageTranscript
    requires WentOut(c, s)
  {
    SentTranscript(c, sender, s.r, SuiteOf(s.topSecret), IdFor(s.messageId, s.d), TimeFor(s.timestamp, s.now), s.d)
    .(payload := Sent(c, sender, s).payload)
  }

  /** Bytes with a signature, as somebody may present them. */
  datatype Claim = Claim(signed: Bytes, signature: Bytes)

  /** Nobody presented a signature of the sender on bytes the sender did not sign. */
  ghost predicate Unforged(c: Crypto, sender: KeyBundle, sendings: set<Sending>, presented: set<Claim>) {
    forall p :: p in presented && c.edVerify(sender.edPublic, p.signed, p.signature) ==>
                  exists s :: s in sendings && WentOut(c, s)
                    && p.signed == SignaturePayload(c.sha, TranscriptOf(c, sender, s))
  }

  function ClaimOf(c: Crypto, keys: KeyBundle, sender: Sender, e: Message): Claim {
    Claim(SignaturePayload(c.sha, ReceivedTranscript(keys, sender, e)), e.edSignature)
  }

  /** The hash has its size and does not collide on the two transcripts. */
  predicate CollisionFree(c: Crypto, t: MessageTranscript, u: MessageTranscript) {
    && |c.sha(u.kemCiphertext)| == HASH_SIZE && |c.sha(u.payload)| == HASH_SIZE
    && |c.sha(t.kemCiphertext)| == HASH_SIZE && |c.sha(t.payload)| == HASH_SIZE
    && (c.sha(t.kemCiphertext) == c.sha(u.kemCiphertext) ==> t.kemCiphertext == u.kemCiphertext)
    && (c.sha(t.payload) == c.sha(u.payload) ==> t.payload == u.payload)
  }

  ghost predicate NoCollisions(c: Crypto, sender: KeyBundle, sendings: set<Sending>, u: MessageTranscript) {
    forall s :: s in sendings && WentOut(c, s) ==> CollisionFree(c, TranscriptOf(c, sender, s), u)
  }

  function PublicKeys(keys: KeyBundle): Sender { Sender(keys.edPublic, keys.mlPublic) }

  /** The same message but for the signatures, which others may vary. */
  predicate SameButSignatures(e: Message, f: Message) {
    e.(edSignature := f.edSignature, mlSignature := f.mlSignature) == f
  }

  lemma SentTranscriptIsValid(c: Crypto, sender: KeyBundle, s: Sending)
    requires Lawful(c) && Matching(c, sender) && WentOut(c, s)
    ensures Valid(TranscriptOf(c, sender, s))
  {
    GeneratedIsCanonical(s.d.id);
  }

  lemma ReceivedIsValid(c: Crypto, keys: KeyBundle, sender: Sender, e: Message)
    requires ValidMessage(e) && e.recipientBox == keys.xPublic && |sender.ed| == IDENTITY_KEY_SIZE
             && |keys.edPublic| == IDENTITY_KEY_SIZE
    ensures Valid(ReceivedTranscript(keys, sender, e))
  {
  }

  /** Equal signed bytes mean equal transcripts. */
  lemma SameTranscript(c: Crypto, t: MessageTranscript, u: MessageTranscript)
    requires Valid(t) && Valid(u) && CollisionFree(c, t, u) && SignaturePayload(c.sha, u) == SignaturePayload(c.sha, t)
    ensures t == u
  {
    SignaturePayloadInjective(c.sha, u, t);
  }

  /** Where the received transcript is that of a sending, so is the rest of the message. */
  lemma SameMessage(c: Crypto, sender: KeyBundle, s: Sending, keys: KeyBundle, e: Message)
    requires WentOut(c, s) && Authenticated(c, keys, PublicKeys(sender), e)
    requires ReceivedTranscript(keys, PublicKeys(sender), e) == TranscriptOf(c, sender, s)
    ensures SameButSignatures(e, Sent(c, sender, s)) && s.r.identity == keys.edPublic && s.r.x == keys.xPublic
  {
    SuiteLengths();
  }

  /**
   Authenticity, for an honest sender: if nothing that was presented is a forgery, whatever
   decrypts is a message the sender sent to this bundle, field by field, signatures aside.
   */
  lemma OnlySentDecrypts(c: Crypto, sender: KeyBundle, sendings: set<Sending>, presented: set<Claim>, keys: KeyBundle,
                         e: Message)
    returns (s: Sending)
    requires Lawful(c) && Matching(c, sender) && Matching(c, keys) && Unforged(c, sender, sendings, presented)
    requires ClaimOf(c, keys, PublicKeys(sender), e) in presented
    requires NoCollisions(c, sender, sendings, ReceivedTranscript(keys, PublicKeys(sender), e))
    requires Decrypted(c, keys, PublicKeys(sender), e).Some?
    ensures s in sendings && WentOut(c, s) && SameButSignatures(e, Sent(c, sender, s))
    ensures s.r.identity == keys.edPublic && s.r.x == keys.xPublic
  {
    var received := ReceivedTranscript(keys, PublicKeys(sender), e);
    s :| s in sendings && WentOut(c, s)
      && SignaturePayload(c.sha, received) == SignaturePayload(c.sha, TranscriptOf(c, sender, s));
    ReceivedIsValid(c, keys, PublicKeys(sender), e);
    SentTranscriptIsValid(c, sender, s);
    SameTranscript(c, TranscriptOf(c, sender, s), received);
    SameMessage(c, sender, s, keys, e);
  }

  /** Signatures aside, the same message opens to the same plaintext. */
  lemma SamePlaintext(c: Crypto, keys: KeyBundle, sender: Sender, e: Message, f: Message)
    requires SameButSignatures(e, f) && Decrypted(c, keys, sender, e).Some? && Decrypted(c, keys, sender, f).Some?
    ensures Decrypted(c, keys, sender, e) == Decrypted(c, keys, sender, f)
  {
    assert ReceivedTranscript(keys, sender, e) == ReceivedTranscript(keys, sender, f);
  }

  /** And it opens to the plaintext that was sent, if it was sealed to this bundle's capability. */
  lemma OnlySentPlaintexts(c: Crypto, sender: KeyBundle, sendings: set<Sending>, presented: set<Claim>,
                           keys: KeyBundle, e: Message)
    returns (s: Sending)
    requires Lawful(c) && Matching(c, sender) && Matching(c, keys) && Unforged(c, sender, sendings, presented)
    requires ClaimOf(c, keys, PublicKeys(sender), e) in presented
    requires NoCollisions(c, sender, sendings, ReceivedTranscript(keys, PublicKeys(sender), e))
    requires Decrypted(c, keys, PublicKeys(sender), e).Some?
    ensures s in sendings && WentOut(c, s) && SameButSignatures(e, Sent(c, sender, s))
    ensures CapabilityOf(c, s.r, keys) ==> Decrypted(c, keys, PublicKeys(sender), e) == Some(s.plaintext)
  {
    s := OnlySentDecrypts(c, sender, sendings, presented, keys, e);
    if CapabilityOf(c, s.r, keys) {
      RoundTrip(c, sender, s.r, s.plaintext, s.messageId, s.timestamp, s.topSecret, s.d, s.now, keys);
      SamePlaintext(c, keys, PublicKeys(sender), e, Sent(c, sender, s));
    }
  }

  // ----- The hypotheses can be met

  lemma ReceivedAsSent(c: Crypto, sender: KeyBundle, s: Sending, keys: KeyBundle)
    requires WentOut(c, s) && CapabilityOf(c, s.r, keys)
    ensures ReceivedTranscript(keys, PublicKeys(sender), Sent(c, sender, s)) == TranscriptOf(c, sender, s)
  {
  }

  lemma OneSendingIsUnforged(c: Crypto, sender: KeyBundle, s: Sending, claim: Claim, other: Claim)
    requires WentOut(c, s) && claim.signed == SignaturePayload(c.sha, TranscriptOf(c, sender, s))
    requires !c.edVerify(sender.edPublic, other.signed, other.signature)
    ensures Unforged(c, sender, {s}, {claim, other})
  {
    assert s in {s};
  }

  lemma OneSendingHasNoCollisions(c: Crypto, sender: KeyBundle, s: Sending)
    requires WentOut(c, s) && CollisionFree(c, TranscriptOf(c, sender, s), TranscriptOf(c, sender, s))
    ensures NoCollisions(c, sender, {s}, TranscriptOf(c, sender, s))
  {
  }

  /** An honest sender's message, presented beside any claim that does not verify, meets every hypothesis. */
  lemma HonestTrafficQualifies(c: Crypto, sender: KeyBundle, s: Sending, keys: KeyBundle, other: Claim)
    requires Lawful(c) && Matching(c, sender) && Matching(c, keys) && WentOut(c, s) && CapabilityOf(c, s.r, keys)
    requires !c.edVerify(sender.edPublic, other.signed, other.signature)
    requires CollisionFree(c, TranscriptOf(c, sender, s), TranscriptOf(c, sender, s))
    ensures Unforged(c, sender, {s}, {ClaimOf(c, keys, PublicKeys(sender), Sent(c, sender, s)), other})
    ensures NoCollisions(c, sender, {s}, ReceivedTranscript(keys, PublicKeys(sender), Sent(c, sender, s)))
    ensures Decrypted(c, keys, PublicKeys(sender), Sent(c, sender, s)) == Some(s.plaintext)
  {
    ReceivedAsSent(c, sender, s, keys);
    OneSendingIsUnforged(c, sender, s, ClaimOf(c, keys, PublicKeys(sender), Sent(c, sender, s)), other);
    OneSendingHasNoCollisions(c, sender, s);
    RoundTrip(c, sender, s.r, s.plaintext, s.messageId, s.timestamp, s.topSecret, s.d, s.now, keys);
  }

  function SampleKeys(): KeyBundle {
    KeyBundle(Zeros(ED_SEED_SIZE), Zeros(IDENTITY_KEY_SIZE), [], Zeros(X25519_KEY_SIZE), [],
              Zeros(MLDSA_PRIVATE_SIZE), Zeros(MLDSA_PUBLIC_SIZE))
  }

  function SampleSending(): Sending {
    var keys := SampleKeys();
    Sending(Recipient(keys.edPublic, keys.xPublic, Zeros(KEM_PUBLIC_SIZE), [], ""), [], "", 1, false,
            Draws([], [], Zeros(IV_SIZE), Zeros(16), []), 0)
  }

  /** And there are such a sender, message and claim. */
  lemma HonestTrafficExists()
    ensures var c, keys, s := Degenerate(), SampleKeys(), SampleSending();
            && Lawful(c) && Matching(c, keys) && WentOut(c, s) && CapabilityOf(c, s.r, keys)
            && !c.edVerify(keys.edPublic, [], [])
            && CollisionFree(c, TranscriptOf(c, keys, s), TranscriptOf(c, keys, s))
  {
    LawsAreConsistent();
  }
}
