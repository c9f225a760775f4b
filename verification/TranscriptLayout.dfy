/**
 Where each field stands in the bytes of a message transcript, counted in bytes.
 */
module TranscriptLayout {
  import opened Wrappers
  import opened Transcript

  /** What stands in a text from one place up to another. */
  predicate Holds(bytes: Bytes, from: nat, field: Bytes) {
    from + |field| <= |bytes| && bytes[from..from + |field|] == field
  }

  lemma FlattenFirst(fields: seq<Bytes>)
    requires fields != []
    ensures Flatten(fields) == fields[0] + Flatten(fields[1..])
  {
  }

  /** The front of a list, field by field, and then the rest. */
  lemma {:induction false} FlattenTwo(fields: seq<Bytes>, k: nat)
    requires k <= |fields|
    ensures Flatten(fields) == Flatten(fields[..k]) + Flatten(fields[k..])
  {
    if k == 0 {
      assert fields[..0] == [] && fields[0..] == fields;
    } else {
      var front := fields[..k - 1];
      FlattenTwo(fields, k - 1);
      FlattenFirst(fields[k - 1..]);
      FlattenSnoc(front, fields[k - 1]);
      assert front + [fields[k - 1]] == fields[..k] && fields[k - 1..][1..] == fields[k..];
      Regrouped(Flatten(front), fields[k - 1], Flatten(fields[k..]));
    }
  }

  lemma Regrouped(a: Bytes, b: Bytes, c: Bytes)
    ensures a + (b + c) == a + b + c
  {
  }

  /** Each field begins where the one before it ends. */
  function Start(fields: seq<Bytes>, k: nat): nat
    requires k <= |fields|
  {
    if k == 0 then 0 else Start(fields, k - 1) + |fields[k - 1]|
  }

  lemma {:induction false} StartIsLength(fields: seq<Bytes>, k: nat)
    requires k <= |fields|
    ensures |Flatten(fields[..k])| == Start(fields, k)
  {
    if k > 0 {
      StartIsLength(fields, k - 1);
      assert fields[..k] == fields[..k - 1] + [fields[k - 1]];
      FlattenSnoc(fields[..k - 1], fields[k - 1]);
    }
  }

  lemma FieldAt(fields: seq<Bytes>, k: nat)
    requires k < |fields|
    ensures Holds(Flatten(fields), Start(fields, k), fields[k])
  {
    StartIsLength(fields, k);
    FlattenTwo(fields, k);
    FlattenFirst(fields[k..]);
    Between(Flatten(fields[..k]), fields[k], Flatten(fields[k..][1..]));
  }

  lemma Between(a: Bytes, b: Bytes, c: Bytes)
    ensures Holds(a + (b + c), |a|, b)
  {
    assert (a + (b + c))[|a|..|a| + |b|] == b;
  }

  lemma Starts(f: seq<Bytes>)
    requires |f| == 11
    ensures Start(f, 0) == 0 && Start(f, 1) == |f[0]| && Start(f, 2) == Start(f, 1) + |f[1]|
    ensures Start(f, 3) == Start(f, 2) + |f[2]| && Start(f, 4) == Start(f, 3) + |f[3]|
    ensures Start(f, 5) == Start(f, 4) + |f[4]| && Start(f, 6) == Start(f, 5) + |f[5]|
    ensures Start(f, 7) == Start(f, 6) + |f[6]| && Start(f, 8) == Start(f, 7) + |f[7]|
    ensures Start(f, 9) == Start(f, 8) + |f[8]| && Start(f, 10) == Start(f, 9) + |f[9]|
  {
  }

  lemma FirstPlaces(f: seq<Bytes>, n: nat)
    requires |f| == 11 && |f[0]| == 6 && |f[1]| == n - 6 && |f[2]| == 32 && |f[3]| == 32 && |f[4]| == 32
    ensures Start(f, 1) == 6 && Start(f, 2) == n && Start(f, 3) == n + 32 && Start(f, 4) == n + 64
    ensures Start(f, 5) == n + 96
  {
    Starts(f);
  }

  lemma LastPlaces(f: seq<Bytes>, m: nat, k: nat)
    requires |f| == 11 && Start(f, 5) == m && |f[5]| == k && |f[6]| == 32 && |f[7]| == 32 && |f[8]| == 38 && |f[9]| == 8
    ensures Start(f, 6) == m + k && Start(f, 7) == m + k + 32 && Start(f, 8) == m + k + 64
    ensures Start(f, 9) == m + k + 102 && Start(f, 10) == m + k + 110
  {
    Starts(f);
  }

  /** Eleven fields of the lengths of a validated message. */
  predicate Measured(f: seq<Bytes>, n: nat, k: nat) {
    && |f| == 11 && |f[0]| == 6 && |f[1]| == n - 6 && |f[2]| == 32 && |f[3]| == 32 && |f[4]| == 32
    && |f[5]| == k && |f[6]| == 32 && |f[7]| == 32 && |f[8]| == 38 && |f[9]| == 8 && |f[10]| == 12
  }

  lemma Placed(f: seq<Bytes>, n: nat, k: nat)
    requires Measured(f, n, k)
    ensures Holds(Flatten(f), 0, f[0]) && Holds(Flatten(f), 6, f[1]) && Holds(Flatten(f), n, f[2])
    ensures Holds(Flatten(f), n + 32, f[3]) && Holds(Flatten(f), n + 64, f[4]) && Holds(Flatten(f), n + 96, f[5])
    ensures Holds(Flatten(f), n + k + 96, f[6]) && Holds(Flatten(f), n + k + 128, f[7])
    ensures Holds(Flatten(f), n + k + 160, f[8]) && Holds(Flatten(f), n + k + 198, f[9])
    ensures Holds(Flatten(f), n + k + 206, f[10])
  {
    FirstPlaces(f, n);
    LastPlaces(f, n + 96, k);
    forall i | 0 <= i < 11 ensures Holds(Flatten(f), Start(f, i), f[i]) {
      FieldAt(f, i);
    }
  }

  lemma FieldSizes(t: MessageTranscript)
    requires Valid(t)
    ensures Sized(t) && |Prefixed("v0.1")| == 6 && |Prefixed(t.suite)| == 2 + |t.suite|
    ensures |Optional(t.deviceKeyId)| == (if t.deviceKeyId == "" then 0 else 38) && |Prefixed(t.messageId)| == 38
  {
  }

  lemma SizedIsMeasured(sha: Bytes -> Bytes, t: MessageTranscript, k: nat)
    requires Sized(t) && |sha(t.kemCiphertext)| == 32 && |Prefixed(PROTOCOL_VERSION)| == 6
    requires |Prefixed(t.suite)| == 2 + |t.suite| && |Optional(t.deviceKeyId)| == k && |Prefixed(t.messageId)| == 38
    ensures Measured(AadFields(sha, t), 8 + |t.suite|, k)
  {
  }

  lemma AadIsMeasured(sha: Bytes -> Bytes, t: MessageTranscript)
    requires Valid(t) && |sha(t.kemCiphertext)| == 32
    ensures Measured(AadFields(sha, t), 8 + |t.suite|, if t.deviceKeyId == "" then 0 else 38)
  {
    FieldSizes(t);
    SizedIsMeasured(sha, t, if t.deviceKeyId == "" then 0 else 38);
  }

  /** The additional data of a validated message, byte by byte. */
  lemma AadLayout(sha: Bytes -> Bytes, t: MessageTranscript)
    requires Valid(t) && |sha(t.kemCiphertext)| == 32
    ensures var n, k, aad := 8 + |t.suite|, if t.deviceKeyId == "" then 0 else 38, Aad(sha, t);
            && Holds(aad, 0, Prefixed("v0.1")) && Holds(aad, 6, Prefixed(t.suite))
            && Holds(aad, n, t.senderIdentity) && Holds(aad, n + 32, t.recipientIdentity)
            && Holds(aad, n + 64, t.recipientDevice)
            && (t.deviceKeyId != "" ==> Holds(aad, n + 96, Prefixed(t.deviceKeyId)))
            && Holds(aad, n + k + 96, t.ephemeralPublic) && Holds(aad, n + k + 128, sha(t.kemCiphertext))
            && Holds(aad, n + k + 160, Prefixed(t.messageId))
            && Holds(aad, n + k + 198, BigEndian(t.timestamp, 8)) && Holds(aad, n + k + 206, t.iv)
            && |aad| == n + k + 218
  {
    AadIsMeasured(sha, t);
    Placed(AadFields(sha, t), 8 + |t.suite|, if t.deviceKeyId == "" then 0 else 38);
    FieldLengths(sha, t);
    SuiteLengths();
  }

  /** What is signed is the additional data and, behind it, the hash of the payload. */
  lemma SignedLayout(sha: Bytes -> Bytes, t: MessageTranscript)
    ensures SignaturePayload(sha, t) == Aad(sha, t) + sha(t.payload)
  {
    FlattenSnoc(AadFields(sha, t), sha(t.payload));
  }

  /** A length and a text in front of each other, highest byte first. */
  lemma PrefixedBytes(s: string)
    requires |s| < 65536
    ensures |Prefixed(s)| == 2 + |s| && Prefixed(s)[0] == |s| / 256 && Prefixed(s)[1] == |s| % 256
    ensures forall i :: 0 <= i < |s| && s[i] < 128 as char ==> Prefixed(s)[2 + i] == s[i] as int
  {
    assert BigEndian(|s|, 2) == BigEndian(|s| / 256, 1) + [|s| % 256];
    assert BigEndian(|s| / 256, 1) == BigEndian(|s| / 256 / 256, 0) + [|s| / 256 % 256];
  }

  /** The two secrets, each behind its length in four bytes, the elliptic one first. */
  lemma HybridLayout(x: Bytes, k: Bytes)
    ensures Holds(Hybrid(x, k), 0, BigEndian(|x|, 4)) && Holds(Hybrid(x, k), 4, x)
    ensures Holds(Hybrid(x, k), 4 + |x|, BigEndian(|k|, 4)) && Holds(Hybrid(x, k), 8 + |x|, k)
    ensures |Hybrid(x, k)| == 8 + |x| + |k|
  {
  }
}
