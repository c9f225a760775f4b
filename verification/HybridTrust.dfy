/**
 What the second half of each pair of algorithms is for: a top-secret message is authentic
 if either signature scheme holds, and the message key is bound to both secrets.
 */
module HybridTrust {
  import opened Wrappers
  import opened Uuid
  import opened Transcript
  import opened Envelope

  // ----- What a plaintext stands for

  /** Whatever decrypts is addressed here and verified under the sender's keys, both of them if it is top secret. */
  lemma DecryptedIsVerified(c: Crypto, keys: KeyBundle, sender: Sender, e: Message)
    requires Decrypted(c, keys, sender, e).Some?
    ensures e.recipientBox == keys.xPublic
    ensures var signed := SignaturePayload(c.sha, ReceivedTranscript(keys, sender, e));
            && c.edVerify(sender.ed, signed, e.edSignature)
            && (e.suite == TOP_SECRET_SUITE ==> e.senderMl == sender.ml && c.mlVerify(sender.ml, signed, e.mlSignature))
  {
  }

  // ----- The second signature by itself

  function MlClaimOf(c: Crypto, keys: KeyBundle, sender: Sender, e: Message): Claim {
    Claim(SignaturePayload(c.sha, ReceivedTranscript(keys, sender, e)), e.mlSignature)
  }

  /** Nobody presented an ML-DSA signature of the sender on bytes the sender did not sign as top secret. */
  ghost predicate MlUnforged(c: Crypto, sender: KeyBundle, sendings: set<Sending>, presented: set<Claim>) {
    forall p :: p in presented && c.mlVerify(sender.mlPublic, p.signed, p.signature) ==>
                  exists s :: s in sendings && WentOut(c, s) && s.topSecret
                    && p.signed == SignaturePayload(c.sha, TranscriptOf(c, sender, s))
  }

  /**
   Authenticity of top-secret messages, without any trust in Ed25519: if no ML-DSA signature that was presented is a
   forgery, whatever decrypts under that suite is a message the sender sent to this bundle as top secret, field by
   field, signatures aside.
   */
  lemma OnlySentTopSecretDecrypts(c: Crypto, sender: KeyBundle, sendings: set<Sending>, presented: set<Claim>,
                                  keys: KeyBundle, e: Message)
    returns (s: Sending)
    requires Lawful(c) && Matching(c, sender) && Matching(c, keys) && MlUnforged(c, sender, sendings, presented)
    requires e.suite == TOP_SECRET_SUITE && MlClaimOf(c, keys, PublicKeys(sender), e) in presented
    requires NoCollisions(c, sender, sendings, ReceivedTranscript(keys, PublicKeys(sender), e))
    requires Decrypted(c, keys, PublicKeys(sender), e).Some?
    ensures s in sendings && WentOut(c, s) && s.topSecret && SameButSignatures(e, Sent(c, sender, s))
    ensures s.r.identity == keys.edPublic && s.r.x == keys.xPublic
  {
    var received := ReceivedTranscript(keys, PublicKeys(sender), e);
    DecryptedIsVerified(c, keys, PublicKeys(sender), e);
    s :| s in sendings && WentOut(c, s) && s.topSecret
      && SignaturePayload(c.sha, received) == SignaturePayload(c.sha, TranscriptOf(c, sender, s));
    ReceivedIsValid(c, keys, PublicKeys(sender), e);
    SentTranscriptIsValid(c, sender, s);
    SameTranscript(c, TranscriptOf(c, sender, s), received);
    SameMessage(c, sender, s, keys, e);
  }

  /** So a top-secret message is safe as long as one of the two schemes is. */
  lemma EitherSchemeIsEnough(c: Crypto, sender: KeyBundle, sendings: set<Sending>, presented: set<Claim>,
                             keys: KeyBundle, e: Message)
    returns (s: Sending)
    requires Lawful(c) && Matching(c, sender) && Matching(c, keys)
    requires Unforged(c, sender, sendings, presented) || MlUnforged(c, sender, sendings, presented)
    requires ClaimOf(c, keys, PublicKeys(sender), e) in presented
    requires MlClaimOf(c, keys, PublicKeys(sender), e) in presented
    requires NoCollisions(c, sender, sendings, ReceivedTranscript(keys, PublicKeys(sender), e))
    requires e.suite == TOP_SECRET_SUITE && Decrypted(c, keys, PublicKeys(sender), e).Some?
    ensures s in sendings && WentOut(c, s) && s.topSecret && SameButSignatures(e, Sent(c, sender, s))
    ensures CapabilityOf(c, s.r, keys) ==> Decrypted(c, keys, PublicKeys(sender), e) == Some(s.plaintext)
  {
    if Unforged(c, sender, sendings, presented) {
      s := OnlySentDecrypts(c, sender, sendings, presented, keys, e);
      SuiteLengths();
    } else {
      s := OnlySentTopSecretDecrypts(c, sender, sendings, presented, keys, e);
    }
    if CapabilityOf(c, s.r, keys) {
      RoundTrip(c, sender, s.r, s.plaintext, s.messageId, s.timestamp, s.topSecret, s.d, s.now, keys);
      SamePlaintext(c, keys, PublicKeys(sender), e, Sent(c, sender, s));
    }
  }

  /** An honest top-secret sending, presented beside any claim that does not verify, meets the hypotheses. */
  lemma HonestTopSecretQualifies(c: Crypto, sender: KeyBundle, s: Sending, keys: KeyBundle, other: Claim)
    requires Lawful(c) && Matching(c, sender) && Matching(c, keys) && WentOut(c, s) && CapabilityOf(c, s.r, keys)
    requires s.topSecret && !c.mlVerify(sender.mlPublic, other.signed, other.signature)
    ensures MlUnforged(c, sender, {s}, {MlClaimOf(c, keys, PublicKeys(sender), Sent(c, sender, s)), other})
    ensures Sent(c, sender, s).suite == TOP_SECRET_SUITE
    ensures Decrypted(c, keys, PublicKeys(sender), Sent(c, sender, s)) == Some(s.plaintext)
  {
    ReceivedAsSent(c, sender, s, keys);
    assert s in {s};
    RoundTrip(c, sender, s.r, s.plaintext, s.messageId, s.timestamp, s.topSecret, s.d, s.now, keys);
  }

  function TopSecretSample(): Sending {
    SampleSending().(topSecret := true, r := SampleSending().r.(ml := Zeros(MLDSA_PUBLIC_SIZE)))
  }

  /** And there is one, for which a claim that does not verify exists. */
  lemma HonestTopSecretExists()
    ensures var c, keys, s := Degenerate(), SampleKeys(), TopSecretSample();
            && Lawful(c) && Matching(c, keys) && WentOut(c, s) && s.topSecret && CapabilityOf(c, s.r, keys)
            && !c.mlVerify(keys.mlPublic, [], [])
            && CollisionFree(c, TranscriptOf(c, keys, s), TranscriptOf(c, keys, s))
  {
    LawsAreConsistent();
  }

  // ----- A signature that does not verify

  /** The message of an honest sender with another ML-DSA signature is refused, unless that one verifies too. */
  lemma OtherMlSignatureIsRefused(c: Crypto, sender: KeyBundle, s: Sending, keys: KeyBundle, signature: Bytes)
    requires WentOut(c, s) && CapabilityOf(c, s.r, keys) && s.topSecret
    requires !c.mlVerify(sender.mlPublic, SignaturePayload(c.sha, TranscriptOf(c, sender, s)), signature)
    ensures Decrypted(c, keys, PublicKeys(sender), Sent(c, sender, s).(mlSignature := signature)) == None
  {
    var e := Sent(c, sender, s).(mlSignature := signature);
    ReceivedAsSent(c, sender, s, keys);
    assert ReceivedTranscript(keys, PublicKeys(sender), e) == TranscriptOf(c, sender, s);
    if Decrypted(c, keys, PublicKeys(sender), e).Some? {
      DecryptedIsVerified(c, keys, PublicKeys(sender), e);
    }
  }

  /** And so is the one with another Ed25519 signature, under both suites. */
  lemma OtherEdSignatureIsRefused(c: Crypto, sender: KeyBundle, s: Sending, keys: KeyBundle, signature: Bytes)
    requires WentOut(c, s) && CapabilityOf(c, s.r, keys)
    requires !c.edVerify(sender.edPublic, SignaturePayload(c.sha, TranscriptOf(c, sender, s)), signature)
    ensures Decrypted(c, keys, PublicKeys(sender), Sent(c, sender, s).(edSignature := signature)) == None
  {
    var e := Sent(c, sender, s).(edSignature := signature);
    ReceivedAsSent(c, sender, s, keys);
    assert ReceivedTranscript(keys, PublicKeys(sender), e) == TranscriptOf(c, sender, s);
    if Decrypted(c, keys, PublicKeys(sender), e).Some? {
      DecryptedIsVerified(c, keys, PublicKeys(sender), e);
    }
  }

  // ----- The message key

  /** The extraction does not collide, as far as these two inputs go. */
  predicate Extracts(c: Crypto, a: (Bytes, Bytes, Bytes), b: (Bytes, Bytes, Bytes)) {
    c.hkdf(a.0, a.1, a.2) == c.hkdf(b.0, b.1, b.2) ==> a == b
  }

  function Input(secret: Bytes, kemSecret: Bytes, ephemeral: Bytes, kemCiphertext: Bytes, suite: string)
    : (Bytes, Bytes, Bytes)
  {
    (Hybrid(secret, kemSecret), ephemeral + kemCiphertext, AsBytes(suite))
  }

  /**
   Two derivations that come to the same key, the extraction not colliding on them, had the same exchanged secret, the
   same encapsulated secret, the same ephemeral key, the same ciphertext and the same suite.
   */
  lemma KeyIsBoundToBothSecrets(c: Crypto, private: Bytes, peer: Bytes, ephemeral: Bytes, kemCiphertext: Bytes,
                                kemSecret: Bytes, suite: string, private': Bytes, peer': Bytes, ephemeral': Bytes,
                                kemCiphertext': Bytes, kemSecret': Bytes, suite': string)
    requires DerivedKey(c, private, peer, ephemeral, kemCiphertext, kemSecret, suite).Some?
    requires DerivedKey(c, private, peer, ephemeral, kemCiphertext, kemSecret, suite)
             == DerivedKey(c, private', peer', ephemeral', kemCiphertext', kemSecret', suite')
    requires |ephemeral| == |ephemeral'| == X25519_KEY_SIZE && Narrow(suite) && Narrow(suite')
    requires c.dh(private, peer).Some? && c.dh(private', peer').Some? ==>
               Extracts(c, Input(c.dh(private, peer).value, kemSecret, ephemeral, kemCiphertext, suite),
                        Input(c.dh(private', peer').value, kemSecret', ephemeral', kemCiphertext', suite'))
    ensures c.dh(private, peer) == c.dh(private', peer') && kemSecret == kemSecret'
    ensures ephemeral == ephemeral' && kemCiphertext == kemCiphertext' && suite == suite'
  {
    var x, y := c.dh(private, peer).value, c.dh(private', peer').value;
    assert Power(4) > X25519_KEY_SIZE by {
      assert Power(1) == 256;
    }
    HybridInjective(x, kemSecret, y, kemSecret');
    AsBytesInjective(suite, suite');
    assert (ephemeral + kemCiphertext)[..X25519_KEY_SIZE] == ephemeral;
    assert (ephemeral' + kemCiphertext')[..X25519_KEY_SIZE] == ephemeral';
    assert (ephemeral + kemCiphertext)[X25519_KEY_SIZE..] == kemCiphertext;
    assert (ephemeral' + kemCiphertext')[X25519_KEY_SIZE..] == kemCiphertext';
  }

  // ----- The header is bound to the payload

  /** The sealed payload opens under other additional data than it was sealed with. */
  predicate Reopens(c: Crypto, key: Bytes, iv: Bytes, payload: Bytes, aad: Bytes, other: Bytes) {
    aad != other && c.open(key, iv, payload, other).Some?
  }

  /**
   Signatures aside, the payload of a sent message decrypts only in an envelope with the header it was sealed under:
   same suite, sender, recipient, device, ephemeral key, message id, time and nonce, and the same hash of the
   encapsulated key. This takes an envelope, whoever made it, that gives the same message key, and a payload that does
   not open under other additional data.
   */
  lemma PayloadIsBoundToItsHeader(c: Crypto, sender: KeyBundle, s: Sending, key: Bytes, keys: KeyBundle, from: Sender,
                                  e: Message)
    requires Lawful(c) && Matching(c, sender) && Matching(c, keys) && WentOut(c, s) && |from.ed| == IDENTITY_KEY_SIZE
    requires |c.sha(e.kemCiphertext)| == HASH_SIZE && |c.sha(Sent(c, sender, s).kemCiphertext)| == HASH_SIZE
    requires e.payload == Sent(c, sender, s).payload && ReceivedKey(c, keys, e) == Some(key)
    requires !Reopens(c, key, e.iv, e.payload, Aad(c.sha, TranscriptOf(c, sender, s)),
                      Aad(c.sha, ReceivedTranscript(keys, from, e)))
    requires Decrypted(c, keys, from, e).Some?
    ensures SameUpToHash(c.sha, TranscriptOf(c, sender, s), ReceivedTranscript(keys, from, e))
  {
    SentTranscriptIsValid(c, sender, s);
    ReceivedIsValid(c, keys, from, e);
    AadInjective(c.sha, TranscriptOf(c, sender, s), ReceivedTranscript(keys, from, e));
  }

  /** In numbers, what can be encrypted: at most 8 MiB, under a canonical id or none, at a time up to 2^53 - 1 or none,
      top secret only to a recipient with an ML-DSA key, whenever the exchange with the recipient's key works. */
  lemma AcceptedExactly(c: Crypto, r: Recipient, plaintext: Bytes, messageId: string, timestamp: int, topSecret: bool,
                        d: Draws, now: int)
    requires ValidRecipient(c, r)
    ensures Accepts(c, r, plaintext, messageId, timestamp, topSecret, d, now) <==>
              && |plaintext| <= 8388608 && (messageId == "" || Canonical(messageId))
              && (if timestamp == 0 then 1 <= now <= 9007199254740991 else 1 <= timestamp <= 9007199254740991)
              && (topSecret ==> r.ml != []) && c.dh(d.ephemeral, r.x).Some? && |c.dh(d.ephemeral, r.x).value| == 32
  {
  }

  /** In numbers, what can be decrypted: an envelope of one of the two suites with every part in its size, and the
      second signature and key exactly if top secret. */
  lemma DecryptedHasItsSizes(c: Crypto, keys: KeyBundle, sender: Sender, e: Message)
    requires Decrypted(c, keys, sender, e).Some?
    ensures |e.kemCiphertext| == 1568 && |e.ephemeralPublic| == 32 && |e.iv| == 12 && |e.edSignature| == 64
    ensures 16 <= |e.payload| <= 8388624 && |Decrypted(c, keys, sender, e).value| <= 8388608
    ensures 1 <= e.timestamp <= 9007199254740991 && Canonical(e.messageId)
    ensures e.deviceKeyId == "" || Canonical(e.deviceKeyId)
    ensures e.recipientBox == keys.xPublic && |e.recipientBox| == 32
    ensures e.suite == TOP_SECRET_SUITE ==> |e.mlSignature| == 4627 && |e.senderMl| == 2592 && e.senderMl == sender.ml
    ensures e.suite != TOP_SECRET_SUITE ==> e.suite == STANDARD_SUITE && e.mlSignature == [] && e.senderMl == []
  {
  }
}
