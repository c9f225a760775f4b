/**
 The byte-level transcript of a mobile message: what is authenticated as additional
 data and what is signed. Strings carry a two-byte length; the device key id is
 optional and untagged. SHA-256 is a function the caller supplies.
 */
module Transcript {
  import opened Wrappers
  import opened Uuid

  type Bytes = seq<Byte>

  const PROTOCOL_VERSION := "v0.1"
  const STANDARD_SUITE := "GaiaCom/v0.1/hybrid-kem/X25519+ML-KEM-1024/AES-256-GCM"
  const TOP_SECRET_SUITE := "GaiaCom/v0.2/top-secret/X25519+ML-KEM-1024/AES-256-GCM/Ed25519+ML-DSA-87"

  const IDENTITY_KEY_SIZE := 32
  const X25519_KEY_SIZE := 32
  const HASH_SIZE := 32
  const IV_SIZE := 12
  const MAX_TIMESTAMP := 9_007_199_254_740_991

  datatype MessageTranscript = MessageTranscript(
    suite: string,
    senderIdentity: Bytes,
    recipientIdentity: Bytes,
    recipientDevice: Bytes,
    deviceKeyId: string,
    ephemeralPublic: Bytes,
    kemCiphertext: Bytes,
    messageId: string,
    timestamp: int,
    iv: Bytes,
    payload: Bytes
  )

  /** What validation leaves of the fields that enter the transcript. */
  predicate Valid(t: MessageTranscript) {
    && (t.suite == STANDARD_SUITE || t.suite == TOP_SECRET_SUITE)
    && Sized(t)
    && (t.deviceKeyId == "" || Canonical(t.deviceKeyId))
    && Canonical(t.messageId)
    && 0 < t.timestamp <= MAX_TIMESTAMP
  }

  predicate Sized(t: MessageTranscript) {
    && |t.senderIdentity| == IDENTITY_KEY_SIZE && |t.recipientIdentity| == IDENTITY_KEY_SIZE
    && |t.recipientDevice| == X25519_KEY_SIZE && |t.ephemeralPublic| == X25519_KEY_SIZE && |t.iv| == IV_SIZE
  }

  // ----- Encodings

  function ByteOf(c: char): Byte { c as int % 256 }

  function AsBytes(s: string): Bytes { seq(|s|, i requires 0 <= i < |s| => ByteOf(s[i])) }

  /** Big-endian, in a given number of bytes; higher bytes are cut off. */
  function BigEndian(n: int, width: nat): (r: Bytes)
    ensures |r| == width
    decreases width
  {
    if width == 0 then [] else BigEndian(n / 256, width - 1) + [n % 256]
  }

  function Prefixed(s: string): Bytes { BigEndian(|s|, 2) + AsBytes(s) }

  function Optional(s: string): Bytes { if s == "" then [] else Prefixed(s) }

  function AadFields(sha: Bytes -> Bytes, t: MessageTranscript): seq<Bytes> {
    [Prefixed(PROTOCOL_VERSION), Prefixed(t.suite), t.senderIdentity, t.recipientIdentity, t.recipientDevice,
     Optional(t.deviceKeyId), t.ephemeralPublic, sha(t.kemCiphertext), Prefixed(t.messageId),
       BigEndian(t.timestamp, 8), t.iv]
  }

  function Flatten(fields: seq<Bytes>): Bytes {
    if fields == [] then [] else fields[0] + Flatten(fields[1..])
  }

  function Aad(sha: Bytes -> Bytes, t: MessageTranscript): Bytes { Flatten(AadFields(sha, t)) }

  function SignaturePayload(sha: Bytes -> Bytes, t: MessageTranscript): Bytes {
    Flatten(AadFields(sha, t) + [sha(t.payload)])
  }

  function PrefixedSize(s: string): nat { if s == "" then 0 else 2 + |s| }

  /** The capacity reserved before the additional data is written. */
  function AadCapacity(t: MessageTranscript): nat {
    PrefixedSize(PROTOCOL_VERSION) + PrefixedSize(t.suite) + IDENTITY_KEY_SIZE + IDENTITY_KEY_SIZE + X25519_KEY_SIZE
    + PrefixedSize(t.deviceKeyId) + X25519_KEY_SIZE + HASH_SIZE + PrefixedSize(t.messageId) + 8 + IV_SIZE
  }

  lemma {:induction false} FlattenSnoc(fields: seq<Bytes>, last: Bytes)
    ensures Flatten(fields + [last]) == Flatten(fields) + last
  {
    if fields == [] {
      assert [last][1..] == [];
    } else {
      FlattenSnoc(fields[1..], last);
      assert (fields + [last])[1..] == fields[1..] + [last];
    }
  }

  /** `appendPrefixedString`. */
  method AppendPrefixed(destination: Bytes, value: string) returns (output: Bytes)
    ensures output == destination + Prefixed(value)
  {
    var length := new Byte[2];
    length[0], length[1] := |value| / 256 % 256, |value| % 256;
    output := destination + length[..];
    assert BigEndian(|value|, 2) == [|value| / 256 % 256, |value| % 256] by {
      assert BigEndian(|value| / 256, 1) == BigEndian(|value| / 256 / 256, 0) + [|value| / 256 % 256];
    }
    output := output + AsBytes(value);
  }

  /** Bytes filled from the last to the first. */
  method AppendNumber(destination: Bytes, n: int, width: nat) returns (output: Bytes)
    ensures output == destination + BigEndian(n, width)
  {
    var encoded: Bytes := [];
    var rest := n;
    for i := 0 to width
      invariant BigEndian(n, width) == BigEndian(rest, width - i) + encoded
    {
      encoded := [rest % 256] + encoded;
      rest := rest / 256;
    }
    output := destination + encoded;
  }

  /** `appendTimestamp`: eight bytes. */
  method AppendTimestamp(destination: Bytes, timestamp: int) returns (output: Bytes)
    ensures output == destination + BigEndian(timestamp, 8)
  {
    output := AppendNumber(destination, timestamp, 8);
  }

  /** The names and the sender, the first three fields. */
  method AppendNames(t: MessageTranscript, ghost fields: seq<Bytes>) returns (output: Bytes)
    requires |fields| == 11 && fields[0] == Prefixed(PROTOCOL_VERSION) && fields[1] == Prefixed(t.suite)
             && fields[2] == t.senderIdentity
    ensures output == Flatten(fields[..3])
  {
    output := AppendPrefixed([], PROTOCOL_VERSION);
    FlattenTo(fields, 0, output);
    output := AppendPrefixed(output, t.suite);
    FlattenTo(fields, 1, output);
    output := output + t.senderIdentity;
    FlattenTo(fields, 2, output);
  }

  /** The recipient, and its device key id if there is one. */
  method AppendRecipient(before: Bytes, t: MessageTranscript, ghost fields: seq<Bytes>) returns (output: Bytes)
    requires |fields| == 11 && before == Flatten(fields[..3])
    requires fields[3] == t.recipientIdentity && fields[4] == t.recipientDevice && fields[5] == Optional(t.deviceKeyId)
    ensures output == Flatten(fields[..6])
  {
    output := before + t.recipientIdentity;
    FlattenTo(fields, 3, output);
    output := output + t.recipientDevice;
    FlattenTo(fields, 4, output);
    if t.deviceKeyId != "" {
      output := AppendPrefixed(output, t.deviceKeyId);
    }
    FlattenTo(fields, 5, output);
  }

  /** The ephemeral key, the ciphertext's hash and the message id. */
  method AppendMessage(before: Bytes, sha: Bytes -> Bytes, t: MessageTranscript,
                       ghost fields: seq<Bytes>) returns (output: Bytes)
    requires |fields| == 11 && before == Flatten(fields[..6])
    requires fields[6] == t.ephemeralPublic && fields[7] == sha(t.kemCiphertext) && fields[8] == Prefixed(t.messageId)
    ensures output == Flatten(fields[..9])
  {
    output := before + t.ephemeralPublic;
    FlattenTo(fields, 6, output);
    output := output + sha(t.kemCiphertext);
    FlattenTo(fields, 7, output);
    output := AppendPrefixed(output, t.messageId);
    FlattenTo(fields, 8, output);
  }

  /** The part `buildMessageAAD` and `buildMessageSignaturePayload` share, field by field. */
  method AppendFields(sha: Bytes -> Bytes, t: MessageTranscript) returns (output: Bytes)
    ensures output == Aad(sha, t)
  {
    ghost var fields := AadFields(sha, t);
    output := AppendNames(t, fields);
    output := AppendRecipient(output, t, fields);
    output := AppendMessage(output, sha, t, fields);
    output := AppendEnd(output, t, fields);
    assert fields[..11] == fields;
  }

  method AppendEnd(before: Bytes, t: MessageTranscript, ghost fields: seq<Bytes>) returns (output: Bytes)
    requires |fields| == 11 && before == Flatten(fields[..9]) && fields[9] == BigEndian(t.timestamp, 8)
             && fields[10] == t.iv
    ensures output == Flatten(fields[..11])
  {
    output := AppendTimestamp(before, t.timestamp);
    FlattenTo(fields, 9, output);
    output := output + t.iv;
    FlattenTo(fields, 10, output);
  }

  /** The buffer holds the first fields once it held those before and the next was appended. */
  lemma FlattenTo(fields: seq<Bytes>, i: nat, output: Bytes)
    requires i < |fields| && output == Flatten(fields[..i]) + fields[i]
    ensures output == Flatten(fields[..i + 1])
  {
    FlattenSnoc(fields[..i], fields[i]);
    assert fields[..i + 1] == fields[..i] + [fields[i]];
  }

  /** `buildMessageAAD`. */
  method BuildAad(sha: Bytes -> Bytes, t: MessageTranscript) returns (output: Bytes)
    ensures output == Aad(sha, t)
  {
    output := AppendFields(sha, t);
  }

  /** `buildMessageSignaturePayload`. */
  method BuildSignaturePayload(sha: Bytes -> Bytes, t: MessageTranscript) returns (output: Bytes)
    ensures output == SignaturePayload(sha, t)
  {
    output := AppendFields(sha, t);
    output := output + sha(t.payload);
    FlattenSnoc(AadFields(sha, t), sha(t.payload));
  }

  // ----- Lengths

  function TotalLength(fields: seq<Bytes>): nat {
    if fields == [] then 0 else |fields[0]| + TotalLength(fields[1..])
  }

  lemma {:induction false} FlattenLength(fields: seq<Bytes>)
    ensures |Flatten(fields)| == TotalLength(fields)
  {
    if fields != [] {
      FlattenLength(fields[1..]);
    }
  }

  lemma TotalOfEleven(f: seq<Bytes>)
    requires |f| == 11
    ensures TotalLength(f)
            == |f[0]| + |f[1]| + |f[2]| + |f[3]| + |f[4]| + |f[5]| + |f[6]| + |f[7]| + |f[8]| + |f[9]| + |f[10]|
  {
    assert TotalLength(f[10..]) == |f[10]| by { assert f[10..][1..] == []; }
    assert f[9..][1..] == f[10..] && f[8..][1..] == f[9..] && f[7..][1..] == f[8..] && f[6..][1..] == f[7..];
    assert f[5..][1..] == f[6..] && f[4..][1..] == f[5..] && f[3..][1..] == f[4..] && f[2..][1..] == f[3..];
    assert f[1..][1..] == f[2..];
    assert TotalLength(f[6..]) == |f[6]| + |f[7]| + |f[8]| + |f[9]| + |f[10]| by {
      assert TotalLength(f[8..]) == |f[8]| + TotalLength(f[9..]);
      assert TotalLength(f[6..]) == |f[6]| + TotalLength(f[7..]);
    }
    assert TotalLength(f[3..]) == |f[3]| + |f[4]| + |f[5]| + TotalLength(f[6..]) by {
      assert TotalLength(f[4..]) == |f[4]| + TotalLength(f[5..]);
    }
    assert TotalLength(f[1..]) == |f[1]| + |f[2]| + TotalLength(f[3..]);
  }

  /** What is written fits the reserved capacity, but for two bytes each when suite or message id is empty. */
  lemma AadLength(sha: Bytes -> Bytes, t: MessageTranscript)
    requires Sized(t) && |sha(t.kemCiphertext)| == HASH_SIZE
    ensures |Aad(sha, t)| == AadCapacity(t) + (if t.suite == "" then 2 else 0) + (if t.messageId == "" then 2 else 0)
  {
    FlattenLength(AadFields(sha, t));
    TotalOfEleven(AadFields(sha, t));
  }

  /** For validated fields both buffers are exactly as long as reserved. */
  lemma CapacityIsExact(sha: Bytes -> Bytes, t: MessageTranscript)
    requires Valid(t) && |sha(t.kemCiphertext)| == HASH_SIZE && |sha(t.payload)| == HASH_SIZE
    ensures |Aad(sha, t)| == AadCapacity(t)
    ensures |SignaturePayload(sha, t)| == AadCapacity(t) + HASH_SIZE
  {
    AadLength(sha, t);
    FlattenSnoc(AadFields(sha, t), sha(t.payload));
  }

  // ----- Injectivity

  lemma {:induction false} FlattenInjective(fs: seq<Bytes>, gs: seq<Bytes>)
    requires |fs| == |gs| && Flatten(fs) == Flatten(gs)
    requires forall i :: 0 <= i < |fs| ==> |fs[i]| == |gs[i]|
    ensures fs == gs
  {
    if fs != [] {
      assert fs[0] == Flatten(fs)[..|fs[0]|] && gs[0] == Flatten(gs)[..|gs[0]|];
      assert Flatten(fs[1..]) == Flatten(fs)[|fs[0]|..] && Flatten(gs[1..]) == Flatten(gs)[|gs[0]|..];
      FlattenInjective(fs[1..], gs[1..]);
      assert fs == [fs[0]] + fs[1..] && gs == [gs[0]] + gs[1..];
    }
  }

  function Power(width: nat): nat {
    if width == 0 then 1 else 256 * Power(width - 1)
  }

  lemma {:induction false} BigEndianInjective(a: int, b: int, width: nat)
    requires 0 <= a < Power(width) && 0 <= b < Power(width) && BigEndian(a, width) == BigEndian(b, width)
    ensures a == b
  {
    if width > 0 {
      var front, back := BigEndian(a / 256, width - 1), BigEndian(b / 256, width - 1);
      assert front == BigEndian(a, width)[..width - 1] && back == BigEndian(b, width)[..width - 1];
      assert a % 256 == BigEndian(a, width)[width - 1] && b % 256 == BigEndian(b, width)[width - 1];
      BigEndianInjective(a / 256, b / 256, width - 1);
    }
  }

  /** Every character is a single byte. */
  predicate Narrow(s: string) { forall i :: 0 <= i < |s| ==> s[i] as int < 256 }

  lemma AsBytesInjective(a: string, b: string)
    requires Narrow(a) && Narrow(b) && AsBytes(a) == AsBytes(b)
    ensures a == b
  {
    assert |a| == |AsBytes(a)| == |AsBytes(b)| == |b|;
    forall i | 0 <= i < |a| ensures a[i] == b[i] {
      assert AsBytes(a)[i] == ByteOf(a[i]) && AsBytes(b)[i] == ByteOf(b[i]);
    }
  }

  lemma PrefixedInjective(a: string, b: string)
    requires Narrow(a) && Narrow(b) && Prefixed(a) == Prefixed(b)
    ensures a == b
  {
    assert AsBytes(a) == Prefixed(a)[2..] && AsBytes(b) == Prefixed(b)[2..];
    AsBytesInjective(a, b);
  }

  lemma CanonicalIsNarrow(s: string)
    requires Canonical(s)
    ensures |s| == LENGTH && Narrow(s)
  {
    forall i | 0 <= i < |s| ensures s[i] as int < 256 {
      if !IsDash(i) {
        assert PositionOf(DigitsBefore(i)) == i;
        assert IsHex(s[PositionOf(DigitsBefore(i))]);
      }
    }
  }

  lemma SuiteLengths()
    ensures |STANDARD_SUITE| != |TOP_SECRET_SUITE| && 0 < |STANDARD_SUITE| < 100 && 0 < |TOP_SECRET_SUITE| < 100
    ensures |Prefixed(PROTOCOL_VERSION)| == 6
  {
  }

  /** The second field starts right after the first, with its own length. */
  lemma SuiteLengthAt(sha: Bytes -> Bytes, t: MessageTranscript)
    requires |Prefixed(PROTOCOL_VERSION)| == 6
    ensures |Aad(sha, t)| >= 8 && Aad(sha, t)[6..8] == BigEndian(|t.suite|, 2)
  {
    var fields := AadFields(sha, t);
    assert Flatten(fields) == fields[0] + Flatten(fields[1..]);
    assert Flatten(fields[1..]) == fields[1] + Flatten(fields[1..][1..]);
    assert fields[1][..2] == BigEndian(|t.suite|, 2);
  }

  lemma SameSuite(sha: Bytes -> Bytes, a: MessageTranscript, b: MessageTranscript)
    requires Valid(a) && Valid(b) && Aad(sha, a) == Aad(sha, b)
    ensures a.suite == b.suite
  {
    SuiteLengths();
    SuiteLengthAt(sha, a);
    SuiteLengthAt(sha, b);
    assert Power(2) == 65536 by { assert Power(1) == 256; }
    BigEndianInjective(|a.suite|, |b.suite|, 2);
  }

  /** Given the suite, only the presence of the device key id decides the length of each field. */
  lemma FieldLengths(sha: Bytes -> Bytes, t: MessageTranscript)
    requires Valid(t) && |sha(t.kemCiphertext)| == HASH_SIZE
    ensures |Optional(t.deviceKeyId)| == PrefixedSize(t.deviceKeyId) == if t.deviceKeyId == "" then 0 else 2 + LENGTH
    ensures |Prefixed(t.messageId)| == PrefixedSize(t.messageId) == 2 + LENGTH
    ensures |Aad(sha, t)| == AadCapacity(t)
  {
    CanonicalIsNarrow(t.messageId);
    if t.deviceKeyId != "" { CanonicalIsNarrow(t.deviceKeyId); }
    AadLength(sha, t);
  }

  lemma AlignedFields(sha: Bytes -> Bytes, a: MessageTranscript, b: MessageTranscript)
    requires Sized(a) && Sized(b) && |a.suite| == |b.suite| && |a.messageId| == |b.messageId|
    requires |Optional(a.deviceKeyId)| == |Optional(b.deviceKeyId)|
    requires |sha(a.kemCiphertext)| == |sha(b.kemCiphertext)| && Aad(sha, a) == Aad(sha, b)
    ensures AadFields(sha, a) == AadFields(sha, b)
  {
    FlattenInjective(AadFields(sha, a), AadFields(sha, b));
  }

  lemma SameFields(sha: Bytes -> Bytes, a: MessageTranscript, b: MessageTranscript)
    requires Valid(a) && Valid(b) && a.suite == b.suite && Aad(sha, a) == Aad(sha, b)
    requires |sha(a.kemCiphertext)| == HASH_SIZE && |sha(b.kemCiphertext)| == HASH_SIZE
    ensures AadFields(sha, a) == AadFields(sha, b) && (a.deviceKeyId == "" <==> b.deviceKeyId == "")
  {
    FieldLengths(sha, a);
    FieldLengths(sha, b);
    assert |a.messageId| == |Prefixed(a.messageId)| - 2 && |b.messageId| == |Prefixed(b.messageId)| - 2;
    AlignedFields(sha, a, b);
  }

  lemma TimestampFits(timestamp: int)
    requires 0 < timestamp <= MAX_TIMESTAMP
    ensures timestamp < Power(8)
  {
    assert Power(4) == 0x1_0000_0000 by { assert Power(2) == 65536; }
    assert Power(6) == 0x1_0000_0000_0000 by { assert Power(5) == 256 * Power(4); }
    assert Power(8) == 0x1_0000_0000_0000_0000 by { assert Power(7) == 256 * Power(6); }
  }

  /** Equal but for the ciphertexts, which agree in their hashes. */
  predicate SameUpToHash(sha: Bytes -> Bytes, a: MessageTranscript, b: MessageTranscript) {
    && a.(kemCiphertext := [], payload := []) == b.(kemCiphertext := [], payload := [])
    && sha(a.kemCiphertext) == sha(b.kemCiphertext)
  }

  /** Although the device key id is optional and untagged, the additional data determines every field. */
  lemma AadInjective(sha: Bytes -> Bytes, a: MessageTranscript, b: MessageTranscript)
    requires Valid(a) && Valid(b) && Aad(sha, a) == Aad(sha, b)
    requires |sha(a.kemCiphertext)| == HASH_SIZE && |sha(b.kemCiphertext)| == HASH_SIZE
    ensures SameUpToHash(sha, a, b)
  {
    SameSuite(sha, a, b);
    SameFields(sha, a, b);
    var f, g := AadFields(sha, a), AadFields(sha, b);
    assert f[5] == g[5] && f[8] == g[8] && f[9] == g[9];
    assert f[2] == g[2] && f[3] == g[3] && f[4] == g[4] && f[6] == g[6] && f[7] == g[7] && f[10] == g[10];
    CanonicalIsNarrow(a.messageId);
    CanonicalIsNarrow(b.messageId);
    PrefixedInjective(a.messageId, b.messageId);
    if a.deviceKeyId != "" {
      CanonicalIsNarrow(a.deviceKeyId);
      CanonicalIsNarrow(b.deviceKeyId);
      PrefixedInjective(a.deviceKeyId, b.deviceKeyId);
    }
    TimestampFits(a.timestamp);
    TimestampFits(b.timestamp);
    BigEndianInjective(a.timestamp, b.timestamp, 8);
  }

  /** The signed bytes determine every field, up to the hashes of the two ciphertexts. */
  lemma SignaturePayloadInjective(sha: Bytes -> Bytes, a: MessageTranscript, b: MessageTranscript)
    requires Valid(a) && Valid(b) && SignaturePayload(sha, a) == SignaturePayload(sha, b)
    requires |sha(a.kemCiphertext)| == HASH_SIZE && |sha(b.kemCiphertext)| == HASH_SIZE
    requires |sha(a.payload)| == HASH_SIZE && |sha(b.payload)| == HASH_SIZE
    ensures SameUpToHash(sha, a, b) && sha(a.payload) == sha(b.payload)
  {
    FlattenSnoc(AadFields(sha, a), sha(a.payload));
    FlattenSnoc(AadFields(sha, b), sha(b.payload));
    var x, y := SignaturePayload(sha, a), SignaturePayload(sha, b);
    assert Aad(sha, a) == x[..|x| - HASH_SIZE] && Aad(sha, b) == y[..|y| - HASH_SIZE];
    assert sha(a.payload) == x[|x| - HASH_SIZE..] && sha(b.payload) == y[|y| - HASH_SIZE..];
    AadInjective(sha, a, b);
  }

  // ----- The combined input of the key derivation

  function Hybrid(x25519Secret: Bytes, mlkemSecret: Bytes): Bytes {
    BigEndian(|x25519Secret|, 4) + x25519Secret + BigEndian(|mlkemSecret|, 4) + mlkemSecret
  }

  method PutUint32(output: array<Byte>, offset: nat, n: nat)
    requires offset + 4 <= output.Length
    modifies output
    ensures output[..] == old(output[..offset]) + BigEndian(n, 4) + old(output[offset + 4..])
  {
    var rest := n;
    ghost var all := BigEndian(n, 4);
    for i := 0 to 4
      invariant all == BigEndian(rest, 4 - i) + output[offset + 4 - i..offset + 4]
      invariant output[..offset] == old(output[..offset]) && output[offset + 4..] == old(output[offset + 4..])
    {
      output[offset + 3 - i] := rest % 256;
      rest := rest / 256;
    }
    assert output[..] == output[..offset] + output[offset..offset + 4] + output[offset + 4..];
  }

  method Copy(output: array<Byte>, offset: nat, source: Bytes)
    requires offset + |source| <= output.Length
    modifies output
    ensures output[..] == old(output[..offset]) + source + old(output[offset + |source|..])
  {
    forall i | 0 <= i < |source| {
      output[offset + i] := source[i];
    }
  }

  /** `combineHybridSecrets`: one buffer, four writes. */
  method CombineHybridSecrets(x25519Secret: Bytes, mlkemSecret: Bytes) returns (combined: Bytes)
    ensures combined == Hybrid(x25519Secret, mlkemSecret)
  {
    var output := new Byte[4 + |x25519Secret| + 4 + |mlkemSecret|];
    PutUint32(output, 0, |x25519Secret|);
    assert output[..4] == BigEndian(|x25519Secret|, 4);
    Copy(output, 4, x25519Secret);
    var offset := 4 + |x25519Secret|;
    assert output[..offset] == BigEndian(|x25519Secret|, 4) + x25519Secret;
    PutUint32(output, offset, |mlkemSecret|);
    assert output[..offset + 4] == BigEndian(|x25519Secret|, 4) + x25519Secret + BigEndian(|mlkemSecret|, 4);
    Copy(output, offset + 4, mlkemSecret);
    combined := output[..];
  }

  lemma SameStart(a: Bytes, x: Bytes, b: Bytes, y: Bytes)
    requires |a| == |b| && a + x == b + y
    ensures a == b && x == y
  {
    assert a == (a + x)[..|a|] && b == (b + y)[..|b|];
    assert x == (a + x)[|a|..] && y == (b + y)[|b|..];
  }

  lemma Grouped(a: Bytes, b: Bytes, c: Bytes, d: Bytes)
    ensures a + b + c + d == a + (b + (c + d))
  {
  }

  lemma SameFour(n: Bytes, x: Bytes, m: Bytes, k: Bytes, n': Bytes, x': Bytes, m': Bytes, k': Bytes)
    requires n + x + m + k == n' + x' + m' + k' && |n| == |n'| && |m| == |m'| && (n == n' ==> |x| == |x'|)
    ensures x == x' && k == k'
  {
    Grouped(n, x, m, k);
    Grouped(n', x', m', k');
    SameStart(n, x + (m + k), n', x' + (m' + k'));
    SameStart(x, m + k, x', m' + k');
    SameStart(m, k, m', k');
  }

  lemma SameLength(a: nat, b: nat)
    requires a < Power(4) && b < Power(4)
    ensures BigEndian(a, 4) == BigEndian(b, 4) ==> a == b
  {
    if BigEndian(a, 4) == BigEndian(b, 4) {
      BigEndianInjective(a, b, 4);
    }
  }

  /** Two pairs of secrets shorter than 4 GiB never combine to the same bytes. */
  lemma HybridInjective(x: Bytes, k: Bytes, x': Bytes, k': Bytes)
    requires |x| < Power(4) && |x'| < Power(4) && Hybrid(x, k) == Hybrid(x', k')
    ensures x == x' && k == k'
  {
    SameLength(|x|, |x'|);
    SameFour(BigEndian(|x|, 4), x, BigEndian(|k|, 4), k, BigEndian(|x'|, 4), x', BigEndian(|k'|, 4), k');
  }
}
